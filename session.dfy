/**
 * The per-session chat history kept by the two UI callbacks: session start
 * resets it, and every message turn appends the user's text and the agent's
 * final output.
 */
module Chat {

  /** One history entry, the dict `{"role": ..., "content": ...}`. */
  datatype Entry = Entry(role: string, content: string)

  /** The role tag the source writes on every entry, the agent's replies included. */
  const UserRole: string := "user"

  /** The text sent to the UI when a chat session starts. */
  const Greeting: string :=
    "Hi! I am a simple weather Bot. ask me about the weather in renowned cities of the world! 😊"

  /** One completed turn: the user's message and the agent's final output. */
  datatype Turn = Turn(message: string, output: string)

  /** The history after session start and then `turns`, one after the other. */
  function Replay(turns: seq<Turn>): seq<Entry> {
    if turns == [] then []
    else
      var last := turns[|turns| - 1];
      Replay(turns[..|turns| - 1]) + [Entry(UserRole, last.message), Entry(UserRole, last.output)]
  }

  /**
   * After `n` turns the history has `2 * n` entries; turn `k` left the user's
   * message at `2 * k` and the agent's output at `2 * k + 1`.
   */
  lemma {:induction false} ReplayAt(turns: seq<Turn>, k: nat)
    requires k < |turns|
    ensures |Replay(turns)| == 2 * |turns|
    ensures Replay(turns)[2 * k] == Entry(UserRole, turns[k].message)
    ensures Replay(turns)[2 * k + 1] == Entry(UserRole, turns[k].output)
  {
    var init := turns[..|turns| - 1];
    if k < |turns| - 1 {
      assert init[k] == turns[k];
      ReplayAt(init, k);
    } else if |turns| > 1 {
      ReplayAt(init, 0);
    }
  }

  /** Later turns only add entries: the history of a prefix of the turns is a prefix of the history. */
  lemma {:induction false} ReplayPrefix(turns: seq<Turn>, n: nat)
    requires n <= |turns|
    ensures |Replay(turns[..n])| == 2 * n <= |Replay(turns)|
    ensures Replay(turns)[..2 * n] == Replay(turns[..n])
  {
    if n < |turns| {
      var init := turns[..|turns| - 1];
      assert init[..n] == turns[..n];
      ReplayPrefix(init, n);
    } else {
      assert turns[..n] == turns;
    }
    if n > 0 {
      ReplayAt(turns[..n], 0);
    }
    if |turns| > 0 {
      ReplayAt(turns, 0);
    }
  }

  /** As written, every entry of the history carries the user role, so replies cannot be told from messages by role. */
  lemma {:induction false} ReplayAllUser(turns: seq<Turn>)
    ensures forall e :: e in Replay(turns) ==> e.role == UserRole
  {
    if turns != [] {
      ReplayAllUser(turns[..|turns| - 1]);
    }
  }

  /** One chat session's stored state. */
  class Session {
    /** The list stored under the key "history" of the session. */
    var history: seq<Entry>
    /** The turns completed since the session started. */
    ghost var turns: seq<Turn>

    ghost predicate Valid()
      reads this
    {
      history == Replay(turns)
    }

    /** A new session, before any callback has run: nothing stored yet. */
    constructor ()
      ensures Valid() && turns == [] && history == []
    {
      history := [];
      turns := [];
    }

    /** `handle_chat_start`: store an empty history and send the greeting. */
    method HandleChatStart() returns (sent: string)
      modifies this
      ensures Valid() && turns == []
      ensures history == []
      ensures sent == Greeting
    {
      history := [];
      turns := [];
      sent := Greeting;
    }

    /**
     * `handle_message`: append the user's message, hand the whole history to
     * the runner, append the runner's final output (tagged "user" as well),
     * store the history and send the output. `finalOutput` stands for the
     * runner's result; `runnerInput` is the history the runner was given.
     */
    method HandleMessage(message: string, finalOutput: string) returns (runnerInput: seq<Entry>, sent: string)
      requires Valid()
      modifies this
      ensures Valid() && turns == old(turns) + [Turn(message, finalOutput)]
      ensures history == old(history) + [Entry(UserRole, message), Entry(UserRole, finalOutput)]
      ensures runnerInput == old(history) + [Entry(UserRole, message)]
      ensures sent == finalOutput == history[|history| - 1].content
    {
      var h := history;
      h := h + [Entry(UserRole, message)];
      runnerInput := h;
      var result := finalOutput;
      h := h + [Entry(UserRole, result)];
      history := h;
      turns := turns + [Turn(message, finalOutput)];
      assert turns[..|turns| - 1] == old(turns);
      sent := result;
    }
  }
}
