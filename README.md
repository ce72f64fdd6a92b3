# Mock weather chat bot: lookup tool and session history

This project models the two pieces of `hello.py` that have behaviour of their own:

- **`weather_lookup_tool`**: a mock weather lookup over a fixed table of five cities
  (`MOCK_WEATHER_DATA`). An exact, case-sensitive key hit gives
  `"The weather in <city> is <description> "`, with a trailing space. A miss gives an
  apology. The apology names the title-cased query and lists every key, title-cased and
  joined by `" , "` in table order, with no space after the period.
  Module `Weather` models it. Module `Text` models the two Python string operations it
  uses: `str.title()` and `str.join`.
- **The chat history**: `handle_chat_start` stores an empty history. `handle_message`
  appends the user's message, hands the whole history to the agent runner, appends the
  runner's final output, stores the history and sends the output. Module `Chat` models
  the session as the class `Session`. Its field `history` is the stored list. A ghost
  record of the completed turns ties `history` to the function `Replay`, and the lemmas
  about the history are proved on `Replay`.

The dict is an ordered sequence of `(key, value)` pairs, because its insertion order
fixes the order of the known-city list. `Get` is the dict read `key in d` / `d[key]`.
Python's `str.title()` is modelled over ASCII letters. A letter is upper-cased when it
is first or follows a non-letter, and lower-cased otherwise. Every other character is
kept.

The lookup has no precondition and is a Dafny function. So it is total, with no error
path and every input giving a string, and it is deterministic: the same input always
gives the same reply.

The code tags **both** appended history entries with the role `"user"`
(`hello.py:95` and `hello.py:102`), so the agent's own replies are stored as if the user
had written them. That looks unintended, since a conversation history would normally
tag replies with an assistant role. The model follows the code as written:
`ReplayAllUser` proves that every stored entry carries the user role.

## Model

| member | source | states |
|---|---|---|
| `Text.Title` | hello.py:59-61 | `str.title()` over ASCII keeps the length; at each position a letter that starts a word (first, or after a non-letter) is upper-cased, any other letter lower-cased, and a non-letter kept |
| `Text.TitleIsTitled` | hello.py:61 | the result of `title()` is in title case: each letter in it is upper-case exactly when it starts a word |
| `Text.TitleFixedPoints` | hello.py:61 | `title()` leaves a string unchanged if and only if the string is already in title case |
| `Text.TitleIdempotent` | hello.py:59-61 | applying `title()` twice gives the same string as applying it once |
| `Text.JoinConcat` | hello.py:59 | joining two non-empty lists of parts is joining each list and putting exactly one separator between the two results |
| `Text.JoinAt` | hello.py:59 | `sep.join(parts)` is, for any index `i`, the join of the parts before `i`, a separator if there are any, part `i`, then a separator and the join of the rest if there is a rest; every part appears, in list order |
| `Weather.Get` | hello.py:53-54 | the dict read misses exactly when no entry has the query as its key, and a hit returns a value stored under that key |
| `Weather.GetEntry` | hello.py:53-54 | in a table without duplicate keys, reading the key of any entry returns that entry's value |
| `Weather.KnownCitiesAt` | hello.py:59 | each key of the table appears title-cased in the known-city list at its own position in table order, between `" , "` separators |
| `Weather.MockTitledKeys` | hello.py:33-39 | the keys of the mock table, title-cased in insertion order, are exactly `KnownCityNames`: London, New York, Tokyo, Paris, Sydney |
| `Weather.MockKeysDistinct` | hello.py:33-39 | no key of the mock table occurs twice, and no city name in `KnownCityNames` occurs twice, so each key is named exactly once in the known-city list |
| `Weather.KnownCitiesValue` | hello.py:59 | the known-city list is exactly `"London , New York , Tokyo , Paris , Sydney"` |
| `Weather.WeatherLookupTool` | hello.py:42-63 | when the query equals a key character for character, the reply is `"The weather in " + query + " is " + description + " "`; when it equals no key, the reply is the apology with the title-cased query, `"."` and `"Please ask me about: London , New York , Tokyo , Paris , Sydney"` |
| `Weather.CaseSensitiveMatch` | hello.py:53-63 | `"london"` is a hit with `"sunny with 25°C"`, while `"London"` is a miss that gets the apology |
| `Weather.UnknownCityReply` | hello.py:56-63 | an unknown city (`"atlantis"`) gets the apology naming `"Atlantis"` and listing all five cities in table order |
| `Chat.ReplayAt` | hello.py:93-103 | after `n` turns the history has `2 * n` entries; turn `k` placed the user's message at `2 * k` and the runner's output at `2 * k + 1`, both with role `"user"` |
| `Chat.ReplayPrefix` | hello.py:93-103 | a turn never changes earlier entries: the history after the first `n` turns is a prefix of the history after all of them |
| `Chat.ReplayAllUser` | hello.py:95-102 | every entry of the history has the role `"user"`, the agent's outputs included |
| `Chat.Session.HandleChatStart` | hello.py:86-89 | session start leaves the history empty, with no turns recorded, and sends the fixed greeting |
| `Chat.Session.HandleMessage` | hello.py:91-104 | the history grows by exactly `("user", message)` then `("user", output)` and the old entries are kept; the runner receives the old history plus the new user entry, so that entry comes last; the text sent equals the last stored entry's content; the history stays the replay of the turns so far |

## Left out

- Loading the environment and the API key, and building the provider, the model and
  the `RunConfig` (`hello.py:8-29`): this is configuration and network client setup.
- Building the `Agent` and the `@function_tool` decorator (`hello.py:41`,
  `hello.py:69-73`): these are declarative objects of an agent library that is not part
  of this model. The tool is modelled as a plain function.
- The internals of `Runner.run` (`hello.py:96-100`): an external agent runtime that
  makes network round-trips. Its final output is a string parameter of
  `HandleMessage`, and nothing is assumed about it.
- Sending messages to the chat UI (`hello.py:89`, `hello.py:104`) and the async/await
  scheduling: the text that would be sent is returned as `sent`.
- `cl.user_session` as ambient per-session storage: it is replaced by the `history`
  field of an explicit `Session` object.
- Chat.Session.HandleMessage: the runner is given a copy of the history. In Python it
  gets the list object itself, which is appended to again after `Runner.run` returns.
  Aliasing of that list is not modelled.
- Chat.Session.HandleMessage: before `handle_chat_start` has run, Python has no stored
  history and `handle_message` would fail on `None`. The model's new session starts
  with an empty history instead. The chat framework always runs the start callback
  first.
- Text.Title: models `str.title()` over ASCII letters only. Python treats every Unicode
  cased character as a letter, so, for example, accented letters are not case-converted
  in the model.
- A failure path for the runner, an assistant role tag and lower-casing of the city
  before lookup: the code has none of them, so the model has none either.
