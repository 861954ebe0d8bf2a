# Game information agent, modelled in Dafny

`game_agent.py` is a small console program wrapped around a hosted-model agent. This project models the parts of
it that decide things on their own and proves what they promise:

- **`get_game_info`** (module `GameInfo`, `game_info.dfy`). The tool lowercases the keyword. It then walks a fixed,
  ordered table of `(key, record)` pairs and returns the first record whose key is a substring of the lowercased
  keyword. With no such key it returns the mapping `{"error": "No game found for '<keyword>'"}`. The model is a
  recursive search over `seq<(string, GameRecord)>` with a `Found(record) | Error(message)` result, and the
  program's own two-entry table.
- **`main`** (module `Session`, `session.dfy`). Standard input is a sequence of events: `Line(raw)`, `EOF` or
  `Interrupt`. Running out of events counts as end of file. The agent is a function `agent: nat -> Outcome` giving
  how its n-th call ends: `Ok`, `Fail` (any `Exception`) or `Interrupted` (a `KeyboardInterrupt`, which
  `except Exception` does not catch). What the program prints is a trace of `Action`s.
  - The configuration step keeps a non-empty `KNOWLEDGE_BASE_ID`. Otherwise it warns, reads one line, strips it
    and writes it back.
  - Batch mode makes a single dispatch.
  - The interactive loop classifies each stripped line as an exit word, an empty line or a query.
  - `Interact` is the specification of the loop. `InteractiveLoop` is the `while` loop itself, proved equal to
    it. The class `Process` holds the environment and the printed trace as fields, and its method `Run` is
    `main()`.
- **The string operations** these rely on (module `Text`, `text.dfy`):
  - `str.lower()` on ASCII letters;
  - `str.strip()` with Python's whitespace set;
  - the substring test `key in text`;
  - `" ".join(...)`, with `split(" ")` as its reference inverse.

The code (`game_agent.py:78-81`) prompts once and writes back whatever it reads, even an empty string;
`Session.ConfigureReadsOneLine` states it.

## Model

| member | source | states |
|---|---|---|
| Text.Lower | game_agent.py:43 | the model of `keyword.lower()` keeps the length and maps each character on its own: A-Z to a-z, everything else unchanged |
| Text.LowerIdempotent | game_agent.py:43 | no upper-case ASCII letter survives lowering, and lowering twice is lowering once |
| Text.LowerFixesLowerCase | game_agent.py:43 | a string without upper-case ASCII letters is its own lower form |
| Text.Strip | game_agent.py:54 | `input(...).strip()`; its contract is carried by `Text.StripIsTrim`, `Text.StripEmptyIff` and `Text.StripIdempotent` |
| Text.StripIsTrim | game_agent.py:54 | `strip()` returns a slice of its input; only whitespace is cut, only at the two ends, and neither end of the result is whitespace |
| Text.StripEmptyIff | game_agent.py:54 | a line strips to the empty string if and only if it is all whitespace |
| Text.StripIdempotent | game_agent.py:54 | a string with no whitespace at either end is left as it is, so stripping twice is stripping once |
| Text.Contains | game_agent.py:45 | Python's `key in text`; `Text.ContainsIff` proves it holds exactly when the key occurs at some position |
| Text.ContainsIff | game_agent.py:45 | `key in text` holds if and only if `key` occurs at some position of `text` |
| Text.AbsentCharNotContained | game_agent.py:45 | a key holding a character the text lacks is not in the text |
| Text.ContainsBounds | game_agent.py:45 | a key longer than the text is never in it; the empty key always is |
| Text.Join | game_agent.py:91 | `" ".join(sys.argv[1:])`; `Text.SplitJoin` proves splitting on spaces gives the words back |
| Text.SplitJoin | game_agent.py:91 | joining the arguments with single spaces loses nothing: splitting on spaces gives them back when no argument holds a space |
| GameInfo.Search | game_agent.py:44-47 | the `for key, game in ...items()` scan with its early return; `GameInfo.SearchFindsFirst` states what it finds |
| GameInfo.LookupIn | game_agent.py:43-48 | the lookup over any ordered table; `GameInfo.LookupSpec` and `GameInfo.CaseInsensitive` state its contract |
| GameInfo.GetGameInfo | game_agent.py:19-48 | `get_game_info` over the program's own table; `GameInfo.ZeldaFirst`, `GameInfo.EldenRingSecond` and `GameInfo.NoKeyNoGame` state its results |
| GameInfo.SearchFindsFirst | game_agent.py:44-47 | the scan finds nothing if and only if no key is a substring; otherwise it returns, unchanged, the record of the first entry whose key is a substring |
| GameInfo.LookupSpec | game_agent.py:43-48 | the result is a record if and only if some key is in the lowercased keyword; that record is the first matching entry's value; the error message quotes the keyword as given |
| GameInfo.CaseInsensitive | game_agent.py:43-48 | keywords with the same lower-case form both find or both miss, and when they find they return the same record; a miss quotes each keyword as given |
| GameInfo.ZeldaFirst | game_agent.py:26-46 | any keyword whose lower form contains "zelda" gets the Zelda record: developer "Nintendo", year 2017 |
| GameInfo.EldenRingSecond | game_agent.py:34-46 | a keyword whose lower form contains "elden ring" but not "zelda" gets the Elden Ring record |
| GameInfo.NoKeyNoGame | game_agent.py:43-48 | with neither key in the lowercased keyword, the result is the error quoting the original keyword |
| GameInfo.ZeldaPrefix | game_agent.py:43-46 | a keyword that lowers to something starting with "zelda" gets the Zelda record |
| GameInfo.NoKeyLetterNoGame | game_agent.py:43-48 | a keyword without the letters z and l, in either case, gets the error |
| GameInfo.ZeldaQueryExample | game_agent.py:26-46 | "zelda game info" gets the Zelda record |
| GameInfo.BothGamesExample | game_agent.py:26-46 | "Zelda and Elden Ring" names both games and gets the Zelda record, the earlier table entry |
| GameInfo.KeyMustBeWholeExample | game_agent.py:34-48 | "eldenring" matches no key, because "elden ring" must occur whole |
| GameInfo.MissExample | game_agent.py:43-48 | "no such game" gets `No game found for 'no such game'` |
| Session.Classify | game_agent.py:104-112 | how the loop treats one stripped line, exit test first; `Session.ClassifyRules` and `Session.ExitTokenRules` state its contract |
| Session.ExitTokenRules | game_agent.py:106 | the exit test ignores case, and the empty string is not an exit word |
| Session.ExitTokenExamples | game_agent.py:106 | "EXIT", "Quit" and "Q" are exit words |
| Session.ClassifyRules | game_agent.py:104-115 | a line ends the session if and only if it strips to an exit word; it counts as empty if and only if it is all whitespace; every other line is the query `Strip(raw)`, which is non-empty, has no whitespace at either end and is not an exit word |
| Session.Interact | game_agent.py:102-122 | the trace of the interactive loop; `Session.EndStops`, `Session.EmptyLineContinues` and `Session.QueryLineDispatches` state each step, `Session.ShutdownOnceAtEnd`, `Session.DispatchesFollowInput` and `Session.AllQueriesDispatched` state the whole run |
| Session.EndStops | game_agent.py:102-122 | end of input, Ctrl-C at the prompt or an exit word ends the loop with the shutdown message and no dispatch, whatever input follows |
| Session.EmptyLineContinues | game_agent.py:110-112 | an empty line prints the notice, calls nothing, and the loop goes on |
| Session.QueryLineDispatches | game_agent.py:114-122 | a query is dispatched once; a response or a caught failure is printed and the loop goes on; an interrupt during the call ends the loop with the shutdown message |
| Session.InteractiveLoop | game_agent.py:102-122 | the `while True` loop with `break` and `continue` prints exactly the trace `Interact` specifies |
| Session.ShutdownOnceAtEnd | game_agent.py:102-122 | every run of the loop prints the shutdown message exactly once, as its last action |
| Session.DispatchesFollowInput | game_agent.py:102-122 | the loop dispatches a prefix of the queries typed before the session ends, in order, each once; empty lines and exit words are never dispatched |
| Session.AllQueriesDispatched | game_agent.py:114-118 | when no agent call is interrupted, a failed call does not stop the loop: every query typed before the end is dispatched, in order, exactly once |
| Session.EmptyThenQuit | game_agent.py:104-112 | the lines "" then "quit" print the empty-input notice, then the shutdown message, and dispatch nothing |
| Session.Configure | game_agent.py:77-81 | the configuration step; `Session.ConfigureReadsOneLine` states its contract |
| Session.BatchRun | game_agent.py:90-97 | the batch-mode trace; `Session.BatchDispatchesOnce` states its contract |
| Session.AfterStartup | game_agent.py:89-122 | batch mode or the banner and the loop; `Session.Process.Serve` is proved to print exactly it |
| Session.MainTrace | game_agent.py:74-122 | everything `main()` prints; `Session.MissingKbPromptsFirst`, `Session.BatchDispatchesOnce` and `Session.InteractiveFollowsInput` state its contract, and `Session.Process.Run` is proved to print exactly it |
| Session.ConfigureReadsOneLine | game_agent.py:77-81 | a non-empty KNOWLEDGE_BASE_ID is kept and nothing is read; otherwise one line is read, stripped and stored even when empty, no other variable changes, and there is no second prompt; failing to read one ends the process |
| Session.MissingKbPromptsFirst | game_agent.py:77-81 | without a usable KNOWLEDGE_BASE_ID the warning is printed first and input is read before any dispatch, in batch mode too; if that read fails the process dies having printed only the warning |
| Session.BatchDispatchesOnce | game_agent.py:90-97 | with extra arguments there is exactly one dispatch, of the arguments joined by single spaces, and no banner, empty-input notice or loop shutdown; the dispatch is followed by one last action: the response on success, the error on a caught `Exception`, the process dying on a `KeyboardInterrupt` |
| Session.InteractiveFollowsInput | game_agent.py:99-122 | without extra arguments the banner is printed, a prefix of the queries typed after configuration is dispatched (all of them when no call is interrupted), and the trace ends with exactly one shutdown message |
| Session.Process.constructor | game_agent.py:77 | a process starts with the given environment and has printed nothing |
| Session.Process.Run | game_agent.py:74-122 | `main()` leaves the environment as the configuration step makes it, unchanged when the prompt read fails, and appends exactly `MainTrace` to what was printed |
| Session.Process.Serve | game_agent.py:89-122 | after configuration, batch mode or the banner and the interactive loop append exactly the trace `AfterStartup` specifies |

## Left out

- The hosted-model agent and its tools are not part of this model. That covers the model id, `GAME_AGENT_PROMPT`,
  `http_request` and `retrieve` (`game_agent.py:1-15`, `83-87`). They are external services. Each agent call is
  reduced to how it ends (`Ok`, `Fail`, `Interrupted`), and the response text is not modelled.
- The decoding fallback chain of `safe_input` (`game_agent.py:55-71`) is left out. It rebinds `sys.stdin` and
  decodes bytes with replacement characters, which is codec and stream behaviour. Only the `.strip()` of each
  line is kept, so a line that fails to decode is not modelled.
- The text and layout of what is printed are left out. Each `print` is one `Action`, and an uncaught exception is
  the `Abort` action.
- `os.environ` is modelled as a `map<string, string>` field of `Process`. Effects on child processes are not modelled.
- A `KeyboardInterrupt` is modelled at two points only: as an input event at a prompt, or as the outcome of an
  agent call. An interrupt delivered during a `print` is not modelled.
- Text.Lower: folds only the ASCII letters A-Z, while Python's `str.lower()` also folds other Unicode letters, some of
  them into more than one character (`'İ'.lower()` has length 2), so the model always keeps the length.
  Case folding is library behaviour outside the ASCII range.
- GameInfo.CaseInsensitive: keywords with equal lower-case forms return identical results only when a record is
  found. On a miss the error message quotes each keyword as given (`game_agent.py:48`), so the two messages differ.
- The lookup is a Dafny function, so repeated calls with the same keyword are equal by construction, and no lemma
  states it.
- A batch run whose arguments join to the empty string still dispatches that string, as the code does. No
  property singles out this case.
