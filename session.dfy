/**
 The decision logic of `main()`: the knowledge-base configuration step, batch
 mode, and the interactive read-dispatch loop. Standard input is a sequence of
 events, the hosted agent is a function giving the outcome of its n-th call,
 and what the program prints is a trace of actions.
 */
module Session {
  import opened Text

  /** What one read of standard input yields: a line, end of input, or Ctrl-C. */
  datatype Event = Line(raw: string) | EOF | Interrupt

  /** How one call `agent(query)` ends: a response, an `Exception`, or a `KeyboardInterrupt`
      (which `except Exception` does not catch). */
  datatype Outcome = Ok | Fail | Interrupted

  /** What the program does that can be seen: one entry per `print` or agent call, plus the process dying
      on an uncaught exception. */
  datatype Action =
    | MissingKbWarning        // "Warning: KNOWLEDGE_BASE_ID environment variable not set"
    | Banner                  // "Game Information Agent started. ..."
    | Dispatch(query: string) // the agent is called with `query`
    | Reply                   // the agent's response is printed
    | ErrorMsg                // "Error: ..." for a caught exception
    | EmptyNotice             // "Please enter a question."
    | Shutdown                // "Shutting down agent."
    | Abort                   // an uncaught exception ends the process

  const KbVar := "KNOWLEDGE_BASE_ID"

  const ExitTokens: seq<string> := ["exit", "quit", "q"]

  /** `query.lower() in ['exit', 'quit', 'q']`. */
  predicate IsExitToken(query: string) {
    Lower(query) in ExitTokens
  }

  /** How the loop treats one input line (game_agent.py:104-112): `safe_input` strips it, the exit test
      comes first, then the empty test; anything else is a query. */
  datatype LineKind = ExitLine | EmptyLine | QueryLine(query: string)

  function Classify(raw: string): LineKind {
    var query := Strip(raw);
    if IsExitToken(query) then ExitLine
    else if query == "" then EmptyLine
    else QueryLine(query)
  }

  /* ------------------------------------------------------------ start-up */

  /** The state after the configuration step: ready with the (possibly updated) environment,
      the messages printed and the input not yet read, or dead because the prompt read failed. */
  datatype Startup =
    | Ready(env: map<string, string>, notices: seq<Action>, rest: seq<Event>)
    | Aborted(notices: seq<Action>)

  /** game_agent.py:77-81: keep a non-empty KNOWLEDGE_BASE_ID; otherwise warn, read one line with plain
      `input()` (EOFError or KeyboardInterrupt there is not caught), strip it and store it. */
  function Configure(env: map<string, string>, events: seq<Event>): Startup {
    if KbVar in env && env[KbVar] != "" then Ready(env, [], events)
    else if events != [] && events[0].Line? then
      Ready(env[KbVar := Strip(events[0].raw)], [MissingKbWarning], events[1..])
    else Aborted([MissingKbWarning, Abort])
  }

  /** The exit test ignores case, and the empty line is not an exit word. */
  lemma ExitTokenRules(query: string)
    ensures IsExitToken(query) <==> IsExitToken(Lower(query))
    ensures !IsExitToken("")
  {
    LowerIdempotent(query);
  }

  /** "EXIT", "Quit" and "Q" all end the session. */
  lemma ExitTokenExamples(a: string, b: string, c: string)
    requires a == "EXIT" && b == "Quit" && c == "Q"
    ensures IsExitToken(a) && IsExitToken(b) && IsExitToken(c)
  {
    assert Lower(a) == "exit";
    assert Lower(b) == "quit";
    assert Lower(c) == "q";
  }

  /** A line ends the session exactly when it strips to an exit word and is treated as empty exactly
      when it is all whitespace; every other line is a query, and the query is the stripped, non-empty
      line, which is not an exit word. */
  lemma ClassifyRules(raw: string)
    ensures Classify(raw) == ExitLine <==> IsExitToken(Strip(raw))
    ensures Classify(raw) == EmptyLine <==> AllSpace(raw)
    ensures !AllSpace(raw) && !IsExitToken(Strip(raw)) ==> Classify(raw) == QueryLine(Strip(raw))
    ensures Classify(raw).QueryLine? ==>
              var query := Classify(raw).query;
              query == Strip(raw) && query != "" && Stripped(query) && !IsExitToken(query)
  {
    StripEmptyIff(raw);
    ExitTokenRules("");
    StripIsTrim(raw);
  }

  /* --------------------------------------------------------- batch mode */

  /** game_agent.py:90-97: one dispatch of the joined arguments; an `Exception` is reported,
      a `KeyboardInterrupt` escapes `main`. */
  function BatchRun(query: string, outcome: Outcome): seq<Action> {
    [Dispatch(query)] + match outcome
                        case Ok => [Reply]
                        case Fail => [ErrorMsg]
                        case Interrupted => [Abort]
  }

  /* --------------------------------------------------- interactive mode */

  /** The trace of the `while True` loop (game_agent.py:102-122) over the remaining input, when `calls`
      agent calls have been made so far. Running out of input is end of file. */
  function Interact(events: seq<Event>, agent: nat -> Outcome, calls: nat): seq<Action>
    decreases |events|
  {
    if events == [] then [Shutdown]
    else match events[0]
      case EOF => [Shutdown]
      case Interrupt => [Shutdown]
      case Line(raw) =>
        match Classify(raw)
        case ExitLine => [Shutdown]
        case EmptyLine => [EmptyNotice] + Interact(events[1..], agent, calls)
        case QueryLine(query) =>
          match agent(calls)
          case Ok => [Dispatch(query), Reply] + Interact(events[1..], agent, calls + 1)
          case Fail => [Dispatch(query), ErrorMsg] + Interact(events[1..], agent, calls + 1)
          case Interrupted => [Dispatch(query), Shutdown]
  }

  /** End of input, Ctrl-C at the prompt, or an exit word ends the loop with the shutdown message
      and no dispatch, whatever input follows. */
  lemma EndStops(events: seq<Event>, agent: nat -> Outcome, calls: nat)
    requires events == [] || !events[0].Line? || Classify(events[0].raw) == ExitLine
    ensures Interact(events, agent, calls) == [Shutdown]
  {
  }

  /** An empty line prints the notice, makes no agent call and the loop goes on. */
  lemma EmptyLineContinues(events: seq<Event>, agent: nat -> Outcome, calls: nat)
    requires events != [] && events[0].Line? && Classify(events[0].raw) == EmptyLine
    ensures Interact(events, agent, calls) == [EmptyNotice] + Interact(events[1..], agent, calls)
  {
  }

  /** A query line is dispatched once; a response or a caught failure is printed and the loop goes on
      with one more agent call made, while an interrupt during the call ends the loop. */
  lemma QueryLineDispatches(events: seq<Event>, agent: nat -> Outcome, calls: nat)
    requires events != [] && events[0].Line? && Classify(events[0].raw).QueryLine?
    ensures var query := Classify(events[0].raw).query;
            Interact(events, agent, calls) ==
              match agent(calls)
              case Ok => [Dispatch(query), Reply] + Interact(events[1..], agent, calls + 1)
              case Fail => [Dispatch(query), ErrorMsg] + Interact(events[1..], agent, calls + 1)
              case Interrupted => [Dispatch(query), Shutdown]
  {
  }

  /** The interactive loop, one input event per iteration. */
  method InteractiveLoop(events: seq<Event>, agent: nat -> Outcome) returns (out: seq<Action>)
    ensures out == Interact(events, agent, 0)
  {
    ghost var whole := Interact(events, agent, 0);
    out := [];
    var i, calls := 0, 0;
    while true
      invariant 0 <= i <= |events|
      invariant out + Interact(events[i..], agent, calls) == whole
      decreases |events| - i
    {
      ghost var before, rest := out, events[i..];
      if i == |events| {
        // safe_input raises EOFError
        EndStops(rest, agent, calls);
        out := out + [Shutdown];
        break;
      }
      var event := events[i];
      assert rest[1..] == events[i + 1..];
      i := i + 1;
      if !event.Line? {
        // EOFError or KeyboardInterrupt from safe_input
        EndStops(rest, agent, calls);
        out := out + [Shutdown];
        break;
      }
      var kind := Classify(event.raw);
      if kind == ExitLine {
        EndStops(rest, agent, calls);
        out := out + [Shutdown];
        break;
      }
      if kind == EmptyLine {
        EmptyLineContinues(rest, agent, calls);
        out := out + [EmptyNotice];
        assert out + Interact(events[i..], agent, calls) == before + Interact(rest, agent, calls);
        continue;
      }
      var query := kind.query;
      var outcome := agent(calls);
      QueryLineDispatches(rest, agent, calls);
      calls := calls + 1;
      if outcome == Interrupted {
        // KeyboardInterrupt passes the inner `except Exception` and reaches the outer handler
        out := out + [Dispatch(query), Shutdown];
        break;
      }
      out := out + [Dispatch(query), if outcome == Ok then Reply else ErrorMsg];
      assert out + Interact(events[i..], agent, calls) == before + Interact(rest, agent, calls - 1);
    }
  }

  /* ------------------------------------------- properties of the loop */

  /** `trace` ends with the shutdown message and holds no other. */
  predicate EndsWithOneShutdown(trace: seq<Action>) {
    trace != [] && trace[|trace| - 1] == Shutdown
    && forall k :: 0 <= k < |trace| - 1 ==> trace[k] != Shutdown
  }

  lemma PrependKeepsOneShutdown(prefix: seq<Action>, trace: seq<Action>)
    requires Shutdown !in prefix && EndsWithOneShutdown(trace)
    ensures EndsWithOneShutdown(prefix + trace)
  {
    var whole := prefix + trace;
    forall k | 0 <= k < |whole| - 1 ensures whole[k] != Shutdown {
      if k >= |prefix| { assert whole[k] == trace[k - |prefix|]; }
    }
  }

  /** Every run of the loop prints the shutdown message exactly once, as its last action. */
  lemma {:induction false} ShutdownOnceAtEnd(events: seq<Event>, agent: nat -> Outcome, calls: nat)
    ensures EndsWithOneShutdown(Interact(events, agent, calls))
    decreases |events|
  {
    if events == [] || EndsSession(events[0]) {
      EndStops(events, agent, calls);
    } else {
      match Classify(events[0].raw)
      case EmptyLine =>
        EmptyLineContinues(events, agent, calls);
        ShutdownOnceAtEnd(events[1..], agent, calls);
        PrependKeepsOneShutdown([EmptyNotice], Interact(events[1..], agent, calls));
      case QueryLine(query) =>
        QueryLineDispatches(events, agent, calls);
        if agent(calls) != Interrupted {
          var printed := if agent(calls) == Ok then Reply else ErrorMsg;
          ShutdownOnceAtEnd(events[1..], agent, calls + 1);
          PrependKeepsOneShutdown([Dispatch(query), printed], Interact(events[1..], agent, calls + 1));
        }
    }
  }

  /** The queries the loop hands to the agent, in order. */
  function Dispatched(trace: seq<Action>): seq<string> {
    if trace == [] then []
    else (if trace[0].Dispatch? then [trace[0].query] else []) + Dispatched(trace[1..])
  }

  lemma {:induction false} DispatchedAppend(a: seq<Action>, b: seq<Action>)
    ensures Dispatched(a + b) == Dispatched(a) + Dispatched(b)
    decreases |a|
  {
    if a != [] {
      DispatchedAppend(a[1..], b);
      assert (a + b)[1..] == a[1..] + b;
    } else {
      assert a + b == b;
    }
  }

  /** An input event after which the loop reads nothing more. */
  predicate EndsSession(e: Event) {
    !e.Line? || Classify(e.raw) == ExitLine
  }

  /** The position of the first event that ends the session, or the length of the input. */
  function EndIndex(events: seq<Event>): (k: nat)
    ensures k <= |events|
  {
    if events == [] || EndsSession(events[0]) then 0 else 1 + EndIndex(events[1..])
  }

  /** The stripped query lines among `events`, in order. */
  function QueryLines(events: seq<Event>): seq<string> {
    if events == [] then []
    else (if events[0].Line? && Classify(events[0].raw).QueryLine?
          then [Classify(events[0].raw).query] else []) + QueryLines(events[1..])
  }

  /** What the user asked before the session ended. */
  function Submitted(events: seq<Event>): seq<string> {
    QueryLines(events[..EndIndex(events)])
  }

  lemma SubmittedStep(events: seq<Event>)
    requires events != [] && !EndsSession(events[0])
    ensures Submitted(events) ==
              (if Classify(events[0].raw).QueryLine? then [Classify(events[0].raw).query] else [])
              + Submitted(events[1..])
  {
    var k := EndIndex(events);
    assert events[..k][1..] == events[1..][..k - 1];
  }

  predicate IsPrefix(a: seq<string>, b: seq<string>) {
    |a| <= |b| && a == b[..|a|]
  }

  lemma PrefixCons(x: string, a: seq<string>, b: seq<string>)
    requires IsPrefix(a, b)
    ensures IsPrefix([x] + a, [x] + b)
  {
    assert ([x] + b)[..|a| + 1] == [x] + b[..|a|];
  }

  /** An empty line contributes no dispatched query. */
  lemma DispatchedEmptyStep(events: seq<Event>, agent: nat -> Outcome, calls: nat)
    requires events != [] && events[0].Line? && Classify(events[0].raw) == EmptyLine
    ensures Dispatched(Interact(events, agent, calls)) == Dispatched(Interact(events[1..], agent, calls))
  {
    EmptyLineContinues(events, agent, calls);
    DispatchedAppend([EmptyNotice], Interact(events[1..], agent, calls));
    assert Dispatched([EmptyNotice]) == [];
  }

  /** A query line contributes exactly its query, and the loop goes on unless the call is interrupted. */
  lemma DispatchedQueryStep(events: seq<Event>, agent: nat -> Outcome, calls: nat)
    requires events != [] && events[0].Line? && Classify(events[0].raw).QueryLine?
    ensures var query := Classify(events[0].raw).query;
            Dispatched(Interact(events, agent, calls)) ==
              if agent(calls) == Interrupted then [query]
              else [query] + Dispatched(Interact(events[1..], agent, calls + 1))
  {
    var query := Classify(events[0].raw).query;
    QueryLineDispatches(events, agent, calls);
    if agent(calls) == Interrupted {
      assert [Dispatch(query), Shutdown][1..] == [Shutdown];
      assert Dispatched([Shutdown]) == [];
    } else {
      var printed := if agent(calls) == Ok then Reply else ErrorMsg;
      DispatchedAppend([Dispatch(query), printed], Interact(events[1..], agent, calls + 1));
      assert [Dispatch(query), printed][1..] == [printed];
      assert Dispatched([printed]) == [];
    }
  }

  /** The loop dispatches a prefix of the submitted queries, in order and each once. Empty lines and
      exit words are never dispatched, and nothing after the end of the session is. */
  lemma {:induction false} DispatchesFollowInput(events: seq<Event>, agent: nat -> Outcome, calls: nat)
    ensures IsPrefix(Dispatched(Interact(events, agent, calls)), Submitted(events))
    decreases |events|
  {
    if events == [] || EndsSession(events[0]) {
      EndStops(events, agent, calls);
      assert Dispatched([Shutdown]) == [];
    } else {
      SubmittedStep(events);
      var rest := events[1..];
      var kind := Classify(events[0].raw);
      if kind == EmptyLine {
        DispatchedEmptyStep(events, agent, calls);
        DispatchesFollowInput(rest, agent, calls);
        return;
      }
      DispatchedQueryStep(events, agent, calls);
      if agent(calls) == Interrupted {
        PrefixCons(kind.query, [], Submitted(rest));
      } else {
        DispatchesFollowInput(rest, agent, calls + 1);
        PrefixCons(kind.query, Dispatched(Interact(rest, agent, calls + 1)), Submitted(rest));
      }
    }
  }

  /** When no agent call is interrupted, every submitted query is dispatched, in order, exactly once. */
  lemma {:induction false} AllQueriesDispatched(events: seq<Event>, agent: nat -> Outcome, calls: nat)
    requires forall c :: calls <= c < calls + |Submitted(events)| ==> agent(c) != Interrupted
    ensures Dispatched(Interact(events, agent, calls)) == Submitted(events)
    decreases |events|
  {
    if events == [] || EndsSession(events[0]) {
      EndStops(events, agent, calls);
      assert Dispatched([Shutdown]) == [];
    } else {
      SubmittedStep(events);
      var rest := events[1..];
      if Classify(events[0].raw) == EmptyLine {
        DispatchedEmptyStep(events, agent, calls);
        AllQueriesDispatched(rest, agent, calls);
      } else {
        DispatchedQueryStep(events, agent, calls);
        assert agent(calls) != Interrupted;
        AllQueriesDispatched(rest, agent, calls + 1);
      }
    }
  }

  /** Lines "", then "quit": the empty-input notice, then shutdown, and no dispatch. */
  lemma EmptyThenQuit(events: seq<Event>, agent: nat -> Outcome)
    requires events == [Line(""), Line("quit")]
    ensures Interact(events, agent, 0) == [EmptyNotice, Shutdown]
  {
    assert Strip("") == "";
    ExitTokenRules("");
    EmptyLineContinues(events, agent, 0);
    assert events[1..] == [Line("quit")];
    assert Strip("quit") == "quit" by { StripIdempotent("quit"); }
    assert Lower("quit") == "quit";
    EndStops(events[1..], agent, 0);
  }

  /* -------------------------------------------------------------- main */

  /** What `main()` prints once configured: batch mode when `sys.argv` has extra words,
      otherwise the banner and the interactive loop. */
  function AfterStartup(argv: seq<string>, rest: seq<Event>, agent: nat -> Outcome): seq<Action> {
    if |argv| > 1 then BatchRun(Join(argv[1..]), agent(0))
    else [Banner] + Interact(rest, agent, 0)
  }

  /** Everything `main()` prints, from the starting environment, `sys.argv` and the input. */
  function MainTrace(env: map<string, string>, argv: seq<string>, events: seq<Event>,
                     agent: nat -> Outcome): seq<Action>
  {
    match Configure(env, events)
    case Aborted(notices) => notices
    case Ready(_, notices, rest) => notices + AfterStartup(argv, rest, agent)
  }

  /* -------------------------------------------- properties of main() */

  /** Configuration reads at most one line and never prompts twice: a non-empty KNOWLEDGE_BASE_ID is
      kept and nothing is read; otherwise the first line, stripped, is stored even when it is empty,
      no other variable changes, and the session goes on with the input after that line. */
  lemma ConfigureReadsOneLine(env: map<string, string>, events: seq<Event>)
    ensures var r := Configure(env, events);
            && (KbVar in env && env[KbVar] != "" ==> r == Ready(env, [], events))
            && (!(KbVar in env && env[KbVar] != "") && events != [] && events[0].Line? ==>
                  && r.Ready? && KbVar in r.env && r.env[KbVar] == Strip(events[0].raw)
                  && r.rest == events[1..] && r.notices == [MissingKbWarning]
                  && forall k :: k != KbVar ==> (k in r.env <==> k in env) && (k in env ==> r.env[k] == env[k]))
            && (!(KbVar in env && env[KbVar] != "") && (events == [] || !events[0].Line?) ==> r.Aborted?)
  {
  }

  /** Without a usable KNOWLEDGE_BASE_ID the warning comes first and the prompt reads input before any
      dispatch, in batch mode too; if that read fails the process dies having dispatched nothing. */
  lemma MissingKbPromptsFirst(env: map<string, string>, argv: seq<string>, events: seq<Event>,
                              agent: nat -> Outcome)
    requires !(KbVar in env && env[KbVar] != "")
    ensures MainTrace(env, argv, events, agent) != []
    ensures MainTrace(env, argv, events, agent)[0] == MissingKbWarning
    ensures events == [] || !events[0].Line? ==> MainTrace(env, argv, events, agent) == [MissingKbWarning, Abort]
  {
  }

  /** With extra arguments `main()` dispatches exactly once, the arguments joined by single spaces,
      and never enters the loop; it then prints the response, or the error of a caught `Exception`,
      or dies of a `KeyboardInterrupt`. */
  lemma BatchDispatchesOnce(env: map<string, string>, argv: seq<string>, events: seq<Event>,
                            agent: nat -> Outcome)
    requires |argv| > 1 && Configure(env, events).Ready?
    ensures Dispatched(MainTrace(env, argv, events, agent)) == [Join(argv[1..])]
    ensures var trace := MainTrace(env, argv, events, agent);
            && |trace| >= 2 && trace[|trace| - 2] == Dispatch(Join(argv[1..]))
            && trace[|trace| - 1] == match agent(0)
                                     case Ok => Reply
                                     case Fail => ErrorMsg
                                     case Interrupted => Abort
    ensures var trace := MainTrace(env, argv, events, agent);
            Banner !in trace && EmptyNotice !in trace && Shutdown !in trace
  {
    var r := Configure(env, events);
    var batch := BatchRun(Join(argv[1..]), agent(0));
    DispatchedAppend(r.notices, batch);
    assert Dispatched(r.notices) == [] by {
      if r.notices != [] { assert r.notices == [MissingKbWarning]; }
    }
    assert batch[1..] == [batch[1]];
    assert Dispatched([batch[1]]) == [];
  }

  /** The interactive trace is the startup notices and the banner, which dispatch nothing, then the loop's trace. */
  lemma InteractiveHead(env: map<string, string>, argv: seq<string>, events: seq<Event>, agent: nat -> Outcome)
    returns (head: seq<Action>)
    requires |argv| <= 1 && Configure(env, events).Ready?
    ensures MainTrace(env, argv, events, agent) == head + Interact(Configure(env, events).rest, agent, 0)
    ensures Banner in head && Dispatched(head) == [] && Shutdown !in head
  {
    var r := Configure(env, events);
    head := r.notices + [Banner];
    assert MainTrace(env, argv, events, agent) == r.notices + ([Banner] + Interact(r.rest, agent, 0));
    assert Dispatched([Banner]) == [];
    if r.notices != [] {
      assert head == [MissingKbWarning, Banner];
      assert Dispatched(head) == Dispatched([Banner]);
    }
  }

  /** Without extra arguments `main()` prints the banner, dispatches a prefix of the queries typed after
      configuration (all of them when no call is interrupted) and ends with the shutdown message. */
  lemma InteractiveFollowsInput(env: map<string, string>, argv: seq<string>, events: seq<Event>,
                                agent: nat -> Outcome)
    requires |argv| <= 1 && Configure(env, events).Ready?
    ensures var trace := MainTrace(env, argv, events, agent);
            var rest := Configure(env, events).rest;
            && Banner in trace
            && IsPrefix(Dispatched(trace), Submitted(rest))
            && ((forall c :: 0 <= c < |Submitted(rest)| ==> agent(c) != Interrupted) ==>
                  Dispatched(trace) == Submitted(rest))
            && EndsWithOneShutdown(trace)
  {
    var r := Configure(env, events);
    var session := Interact(r.rest, agent, 0);
    var head := InteractiveHead(env, argv, events, agent);
    DispatchedAppend(head, session);
    DispatchesFollowInput(r.rest, agent, 0);
    if forall c :: 0 <= c < |Submitted(r.rest)| ==> agent(c) != Interrupted {
      AllQueriesDispatched(r.rest, agent, 0);
    }
    ShutdownOnceAtEnd(r.rest, agent, 0);
    PrependKeepsOneShutdown(head, session);
  }

  /** The process: its environment, which `main()` may write, and what it has printed. */
  class Process {
    var env: map<string, string>
    var stdout: seq<Action>

    constructor (environment: map<string, string>)
      ensures env == environment && stdout == []
    {
      env := environment;
      stdout := [];
    }

    /** `main()`. */
    method Run(argv: seq<string>, events: seq<Event>, agent: nat -> Outcome)
      modifies this
      ensures Configure(old(env), events).Ready? ==> env == Configure(old(env), events).env
      ensures Configure(old(env), events).Aborted? ==> env == old(env)
      ensures stdout == old(stdout) + MainTrace(old(env), argv, events, agent)
    {
      ghost var startup := Configure(env, events);
      var rest := events;
      var kb := if KbVar in env then env[KbVar] else "";
      if kb == "" {
        stdout := stdout + [MissingKbWarning];
        if rest == [] || !rest[0].Line? {
          // input() raises EOFError or KeyboardInterrupt, which nothing catches
          stdout := stdout + [Abort];
          assert startup.notices == [MissingKbWarning, Abort];
          return;
        }
        kb := Strip(rest[0].raw);
        rest := rest[1..];
        env := env[KbVar := kb];
      }
      assert startup.Ready? && startup.env == env && startup.rest == rest;
      assert stdout == old(stdout) + startup.notices;
      Serve(argv, rest, agent);
    }

    /** game_agent.py:89-122, after configuration. */
    method Serve(argv: seq<string>, rest: seq<Event>, agent: nat -> Outcome)
      modifies this`stdout
      ensures stdout == old(stdout) + AfterStartup(argv, rest, agent)
    {
      if |argv| > 1 {
        var query := Join(argv[1..]);
        var outcome := agent(0);
        stdout := stdout + [Dispatch(query)];
        match outcome {
          case Ok => stdout := stdout + [Reply];
          case Fail => stdout := stdout + [ErrorMsg];
          case Interrupted => stdout := stdout + [Abort];
        }
        return;
      }
      stdout := stdout + [Banner];
      var session := InteractiveLoop(rest, agent);
      stdout := stdout + session;
    }
  }
}
