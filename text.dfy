/**
 * The two string operations of Python's `str` that the weather lookup uses:
 * `str.title()` (restricted to ASCII letters) and `sep.join(parts)`.
 */
module Text {

  /** A character that `str.title()` treats as cased: an ASCII letter. */
  predicate IsLetter(c: char) {
    'a' <= c <= 'z' || 'A' <= c <= 'Z'
  }

  predicate IsUpper(c: char) { 'A' <= c <= 'Z' }

  predicate IsLower(c: char) { 'a' <= c <= 'z' }

  function ToUpper(c: char): char {
    if IsLower(c) then (c as int - 32) as char else c
  }

  function ToLower(c: char): char {
    if IsUpper(c) then (c as int + 32) as char else c
  }

  /**
   * The character `str.title()` writes for `c`, where `afterLetter` tells
   * whether the character before `c` in the input is a letter: a letter that
   * starts a word is upper-cased, any other letter lower-cased, and a
   * non-letter is kept.
   */
  function TitleChar(c: char, afterLetter: bool): char {
    if !IsLetter(c) then c
    else if afterLetter then ToLower(c)
    else ToUpper(c)
  }

  /** Whether position `i` of `s` starts a word: its predecessor is not a letter. */
  predicate StartsWord(s: string, i: nat)
    requires i < |s|
  {
    i == 0 || !IsLetter(s[i - 1])
  }

  /**
   * `str.title()` over ASCII, scanning left to right with a flag that says
   * whether the previous input character was a letter.
   */
  function TitleAfter(s: string, afterLetter: bool): (r: string)
    ensures |r| == |s|
    ensures forall i :: 0 <= i < |s| ==>
      r[i] == TitleChar(s[i], if i == 0 then afterLetter else IsLetter(s[i - 1]))
  {
    if s == [] then []
    else [TitleChar(s[0], afterLetter)] + TitleAfter(s[1..], IsLetter(s[0]))
  }

  /**
   * Python's `s.title()` on ASCII text; its contract is the position-wise
   * reading of the rule: a letter that starts a word is upper-cased, every
   * other letter lower-cased, and every non-letter kept.
   */
  function Title(s: string): (r: string)
    ensures |r| == |s|
    ensures forall i :: 0 <= i < |s| ==>
      r[i] == if !IsLetter(s[i]) then s[i]
              else if StartsWord(s, i) then ToUpper(s[i])
              else ToLower(s[i])
  {
    var r := TitleAfter(s, false);
    assert forall i :: 0 <= i < |s| ==> r[i] == TitleChar(s[i], !StartsWord(s, i));
    r
  }

  /** `s` is already in title case: each letter is upper-case exactly when it starts a word. */
  predicate IsTitled(s: string) {
    forall i :: 0 <= i < |s| && IsLetter(s[i]) ==> (StartsWord(s, i) <==> IsUpper(s[i]))
  }

  lemma TitleCharCases(c: char, afterLetter: bool)
    ensures IsLetter(TitleChar(c, afterLetter)) == IsLetter(c)
    ensures IsLetter(c) ==> (IsUpper(TitleChar(c, afterLetter)) <==> !afterLetter)
    ensures IsLetter(c) && (IsUpper(c) <==> !afterLetter) ==> TitleChar(c, afterLetter) == c
  {
  }

  /** The result of `title()` is in title case. */
  lemma TitleIsTitled(s: string)
    ensures IsTitled(Title(s))
  {
    var r := Title(s);
    forall i | 0 <= i < |r| && IsLetter(r[i])
      ensures StartsWord(r, i) <==> IsUpper(r[i])
    {
      assert IsLetter(s[i]);
      if i > 0 {
        TitleCharCases(s[i - 1], !StartsWord(s, i - 1));
        assert IsLetter(r[i - 1]) == IsLetter(s[i - 1]);
      }
    }
  }

  /** `title()` leaves a string unchanged exactly when it is already in title case. */
  lemma TitleFixedPoints(s: string)
    ensures Title(s) == s <==> IsTitled(s)
  {
    var r := Title(s);
    if IsTitled(s) {
      forall i | 0 <= i < |s|
        ensures r[i] == s[i]
      {
        if IsLetter(s[i]) {
          TitleCharCases(s[i], !StartsWord(s, i));
          assert TitleAfter(s, false)[i] == TitleChar(s[i], !StartsWord(s, i));
        }
      }
    } else {
      var i :| 0 <= i < |s| && IsLetter(s[i]) && !(StartsWord(s, i) <==> IsUpper(s[i]));
      assert IsUpper(r[i]) != IsUpper(s[i]);
    }
  }

  /** `title()` is idempotent. */
  lemma TitleIdempotent(s: string)
    ensures Title(Title(s)) == Title(s)
  {
    TitleIsTitled(s);
    TitleFixedPoints(Title(s));
  }

  /** Python's `sep.join(parts)`: the parts in order with `sep` between neighbours. */
  function Join(parts: seq<string>, sep: string): string {
    if |parts| == 0 then ""
    else if |parts| == 1 then parts[0]
    else parts[0] + sep + Join(parts[1..], sep)
  }

  /** Joining two non-empty lists is joining each and putting one separator between them. */
  lemma {:induction false} JoinConcat(ps: seq<string>, qs: seq<string>, sep: string)
    requires |ps| > 0 && |qs| > 0
    ensures Join(ps + qs, sep) == Join(ps, sep) + sep + Join(qs, sep)
  {
    if |ps| == 1 {
      assert (ps + qs)[1..] == qs;
    } else {
      assert (ps + qs)[1..] == ps[1..] + qs;
      JoinConcat(ps[1..], qs, sep);
    }
  }

  /**
   * Every part sits in the joined string, in list order: the string is the
   * parts before index `i`, a separator if there were any, the part itself, and
   * a separator followed by the parts after it if there are any.
   */
  lemma JoinAt(parts: seq<string>, sep: string, i: nat)
    requires i < |parts|
    ensures Join(parts, sep) ==
      Join(parts[..i], sep) + (if i > 0 then sep else "") + parts[i] +
      (if i + 1 < |parts| then sep + Join(parts[i + 1..], sep) else "")
  {
    var before, after := parts[..i], parts[i + 1..];
    var middle := Join(before, sep) + (if i > 0 then sep else "") + parts[i];
    if i > 0 {
      assert parts[..i + 1] == before + [parts[i]];
      JoinConcat(before, [parts[i]], sep);
    }
    assert Join(parts[..i + 1], sep) == middle;
    if i + 1 < |parts| {
      assert parts == parts[..i + 1] + after;
      JoinConcat(parts[..i + 1], after, sep);
    } else {
      assert parts == parts[..i + 1];
    }
  }
}
