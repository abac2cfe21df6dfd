/** What the user of the console sees, command line by command line: which calls are made, in which order,
    and what is said. Nothing here is stated through the functions that describe the stages of a run. */
module ConsoleLaws {
  import opened LuaStack
  import opened ConsoleArgs
  import opened ConsoleCalls
  import opened ConsoleReader
  import opened Console

  // ---------------------------------------------------------------------------
  // The mask

  predicate Given(ts: seq<Token>, option: char) {
    exists k :: 0 <= k < |ts| && ts[k].option == option
  }

  predicate AllWellFormed(ts: seq<Token>) {
    forall k :: 0 <= k < |ts| ==> WellFormed(ts[k])
  }

  lemma GivenSnoc(ts: seq<Token>, t: Token, option: char)
    ensures Given(ts + [t], option) <==> Given(ts, option) || t.option == option
  {
    var us := ts + [t];
    assert us[|ts|] == t;
    if Given(ts, option) {
      var k :| 0 <= k < |ts| && ts[k].option == option;
      assert us[k].option == option;
    }
    if Given(us, option) {
      var k :| 0 <= k < |us| && us[k].option == option;
      assert k < |ts| ==> ts[k].option == option;
    }
  }

  /** Bits of one token, and what or-ing them in does. */
  lemma BitsMean(mask: bv8, t: Token)
    requires WellFormed(t)
    ensures (mask | Bits(t)) & HAS_I != 0 <==> mask & HAS_I != 0 || t.option == 'i'
    ensures (mask | Bits(t)) & HAS_V != 0 <==> mask & HAS_V != 0 || t.option == 'v' || t.option == 'i'
    ensures (mask | Bits(t)) & HAS_E_LOWER != 0 <==> mask & HAS_E_LOWER != 0 || t.option == 'e'
    ensures (mask | Bits(t)) & HAS_E_UPPER != 0 <==> mask & HAS_E_UPPER != 0 || t.option == 'E'
  {
  }

  /** Each bit of the mask says whether its option was given; `-i` counts as `-v` too. */
  lemma {:induction false} MaskMeans(ts: seq<Token>)
    requires AllWellFormed(ts)
    ensures Mask(ts) & HAS_I != 0 <==> Given(ts, 'i')
    ensures Mask(ts) & HAS_V != 0 <==> Given(ts, 'v') || Given(ts, 'i')
    ensures Mask(ts) & HAS_E_LOWER != 0 <==> Given(ts, 'e')
    ensures Mask(ts) & HAS_E_UPPER != 0 <==> Given(ts, 'E')
  {
    if ts != [] {
      var n := |ts| - 1;
      MaskMeans(ts[..n]);
      BitsMean(Mask(ts[..n]), ts[n]);
      assert ts == ts[..n] + [ts[n]];
      GivenSnoc(ts[..n], ts[n], 'i');
      GivenSnoc(ts[..n], ts[n], 'v');
      GivenSnoc(ts[..n], ts[n], 'e');
      GivenSnoc(ts[..n], ts[n], 'E');
    }
  }

  lemma ParsedWellFormed(argv: seq<string>, p: Parse)
    requires IsParse(argv, p)
    ensures AllWellFormed(p.tokens)
  {
    forall k | 0 <= k < |p.tokens|
      ensures WellFormed(p.tokens[k])
    {
      assert InPlace(argv, p.tokens, k);
    }
  }

  // ---------------------------------------------------------------------------
  // Rejected command lines

  /** The message names the fault: a missing argument, or an option that does not exist. */
  lemma UsageSays(argv: seq<string>, p: Parse)
    requires IsParse(argv, p) && p.Rejected?
    ensures var w := argv[First(p)];
            && (p.reason.MissingArgument? <==> UsageText(w) == "'" + w + "' needs argument")
            && (p.reason.BadOption? <==> UsageText(w) == "unrecognized option '" + w + "'")
  {
    var w := argv[First(p)];
    UsageMessage(argv, p);
    assert ("'" + w + "' needs argument")[0] == '\'';
    assert ("unrecognized option '" + w + "'")[0] == 'u';
  }

  // ---------------------------------------------------------------------------
  // The options

  /** `c` is the call an option makes: `-e` calls its compiled chunk, `-l` requires its library. */
  predicate IsOptionCall(compile: string -> Loaded, a: Action, c: Call) {
    match a
    case DoString(chunk) => compile(chunk).Compiled? && c == Call(Function(compile(chunk).chunk), [], 0, MessageHandler)
    case DoLibrary(name) => c == Call(c.callee, [Str(name)], 1, MessageHandler)
  }

  lemma PerformCalls(compile: string -> Loaded, oracle: Oracle, w: World, a: Action)
    ensures var (w', ok) := Perform(compile, oracle, w, a);
            && w.calls <= w'.calls && |w'.calls| <= |w.calls| + 1
            && (|w'.calls| == |w.calls| + 1 ==> IsOptionCall(compile, a, w'.calls[|w.calls|]))
            && (|w'.calls| == |w.calls| <==> a.DoString? && compile(a.chunk).NotLoaded?)
            && (|w'.calls| == |w.calls| ==> !ok)
            && |w'.messages| == |w.messages| + (if ok then 0 else 1)
  {
  }

  /** The options make their calls one after the other, one each, up to the first that fails; only a failure
      says something. */
  lemma {:induction false} OptionsCall(compile: string -> Loaded, oracle: Oracle, w: World, actions: seq<Action>)
    ensures var (w', ok) := PerformAll(compile, oracle, w, actions);
            && w.calls <= w'.calls && |w'.calls| <= |w.calls| + |actions|
            && (forall k :: 0 <= k < |w'.calls| - |w.calls| ==> IsOptionCall(compile, actions[k], w'.calls[|w.calls| + k]))
            && (ok ==> |w'.calls| == |w.calls| + |actions|)
            && |w'.messages| == |w.messages| + (if ok then 0 else 1)
    decreases |actions|
  {
    if actions != [] {
      var (mid, ok) := Perform(compile, oracle, w, actions[0]);
      PerformCalls(compile, oracle, w, actions[0]);
      if ok {
        OptionsCall(compile, oracle, mid, actions[1..]);
        var (w', _) := PerformAll(compile, oracle, mid, actions[1..]);
        forall k | 0 <= k < |w'.calls| - |w.calls|
          ensures IsOptionCall(compile, actions[k], w'.calls[|w.calls| + k])
        {
          if k > 0 {
            assert actions[k] == actions[1..][k - 1];
            assert w'.calls[|w.calls| + k] == w'.calls[|mid.calls| + (k - 1)];
          }
        }
      }
    }
  }

  // ---------------------------------------------------------------------------
  // The initialisation

  /** With `-E` the environment's initialisation has no influence. */
  lemma InitIgnored(compile: string -> Loaded, loadFile: string -> Loaded, oracle: Oracle, before: World,
                    argv: seq<string>, p: Parse, init: Init, tty: bool, input: seq<string>, n: nat, after: World, end: End)
    requires IsParse(argv, p) && Given(p.tokens, 'E')
    ensures IsRun(compile, loadFile, oracle, before, argv, p, init, tty, input, n, after, end) <==>
            IsRun(compile, loadFile, oracle, before, argv, p, NoInit, tty, input, n, after, end)
  {
    ParsedWellFormed(argv, p);
    MaskMeans(p.tokens);
    assert Opening(compile, loadFile, oracle, before, argv, p, init) == Opening(compile, loadFile, oracle, before, argv, p, NoInit);
  }

  /** Without `-E` the initialisation is the first call of the run; if it cannot be loaded or fails, it is
      the last thing the run does. */
  lemma InitFirst(compile: string -> Loaded, loadFile: string -> Loaded, oracle: Oracle, before: World,
                  argv: seq<string>, p: Parse, init: Init, tty: bool, input: seq<string>, n: nat, after: World, end: End)
    requires IsParse(argv, p) && p.Accepted? && !Given(p.tokens, 'E') && !init.NoInit?
    requires IsRun(compile, loadFile, oracle, before, argv, p, init, tty, input, n, after, end)
    ensures var l := if init.InitFile? then loadFile(init.name) else compile(init.text);
            if l.NotLoaded? then
              end == Failure && after.calls == before.calls && after.messages == before.messages + [l.message]
            else
              var call := Call(Function(l.chunk), [], 0, MessageHandler);
              var o := oracle(|before.calls|, call, before.globals["arg" := ArgTable(argv, First(p))]);
              && before.calls + [call] <= after.calls
              && (o.Raised? ==> end == Failure && after.calls == before.calls + [call] && after.messages == before.messages + [Text(o.message)])
  {
    ParsedWellFormed(argv, p);
    MaskMeans(p.tokens);
    var w1 := WithArgs(before, argv, First(p));
    var (w2, ok) := RunInit(compile, loadFile, oracle, w1, init);
    if ok {
      var (w3, _) := Opening(compile, loadFile, oracle, before, argv, p, init);
      OptionsCall(compile, oracle, w2, Actions(p.tokens, |p.tokens|));
      CallsOnlyGrow(compile, loadFile, oracle, before, argv, p, init, tty, input, n, after, end);
      assert w2.calls <= w3.calls <= after.calls;
    }
  }

  /** What comes after the options adds calls and takes none away. */
  lemma CallsOnlyGrow(compile: string -> Loaded, loadFile: string -> Loaded, oracle: Oracle, before: World,
                      argv: seq<string>, p: Parse, init: Init, tty: bool, input: seq<string>, n: nat, after: World, end: End)
    requires IsParse(argv, p) && p.Accepted?
    requires IsRun(compile, loadFile, oracle, before, argv, p, init, tty, input, n, after, end)
    ensures Opening(compile, loadFile, oracle, before, argv, p, init).0.calls <= after.calls
  {
    var (w, ok) := Opening(compile, loadFile, oracle, before, argv, p, init);
    SessionPrints(compile, oracle, w, input);
    if First(p) < |argv| {
      var w' := RunScript(oracle, w, loadFile(FileName(argv, First(p))), n).0;
      SessionPrints(compile, oracle, w', input);
      assert w.calls <= w'.calls;
    }
  }

  // ---------------------------------------------------------------------------
  // The end of a run

  /** The state after the options and the script, if there is one. */
  ghost function Settled(compile: string -> Loaded, loadFile: string -> Loaded, oracle: Oracle, before: World,
                         argv: seq<string>, p: Parse, init: Init, n: nat): World
    requires IsParse(argv, p)
  {
    var w := Opening(compile, loadFile, oracle, before, argv, p, init).0;
    if First(p) < |argv| then RunScript(oracle, w, loadFile(FileName(argv, First(p))), n).0 else w
  }

  /** The run enters the interactive loop. */
  predicate EntersLoop(argv: seq<string>, p: Parse, tty: bool) {
    Given(p.tokens, 'i') || (NothingToDo(argv, p) && tty)
  }

  /** No script, no `-e`, no `-v` and no `-i`. */
  predicate NothingToDo(argv: seq<string>, p: Parse) {
    First(p) == |argv| && !Given(p.tokens, 'e') && !Given(p.tokens, 'v') && !Given(p.tokens, 'i')
  }

  /** How a run that fails nowhere ends: with `-i`, or with nothing to do on a terminal, every chunk of the
      input is called once and in order and its results are printed; with nothing to do and no terminal,
      standard input is run as one file; otherwise nothing further is called. */
  lemma EndOfRun(compile: string -> Loaded, loadFile: string -> Loaded, oracle: Oracle, before: World,
                 argv: seq<string>, p: Parse, init: Init, tty: bool, input: seq<string>, n: nat, after: World)
    requires IsParse(argv, p) && p.Accepted?
    requires IsRun(compile, loadFile, oracle, before, argv, p, init, tty, input, n, after, Success)
    ensures var w := Settled(compile, loadFile, oracle, before, argv, p, init, n);
            if EntersLoop(argv, p, tty) then
              Leads(oracle, w, after) && Handled(after.calls) == Handled(w.calls) + Program(compile, input)
            else if NothingToDo(argv, p) then
              after.calls == w.calls + (match loadFile("")
                                        case NotLoaded(_, _) => []
                                        case Compiled(c) => [Call(Function(c), [], 0, MessageHandler)])
            else after == w
  {
    ParsedWellFormed(argv, p);
    MaskMeans(p.tokens);
    var w := Settled(compile, loadFile, oracle, before, argv, p, init, n);
    SessionPrints(compile, oracle, w, input);
    SessionRunsProgram(compile, oracle, w, input);
    NotGiven(Mask(p.tokens));
  }

  lemma NotGiven(mask: bv8)
    ensures mask & (HAS_E_LOWER | HAS_V) != 0 <==> mask & HAS_E_LOWER != 0 || mask & HAS_V != 0
  {
  }

  /** A run that fails makes no call after the one that failed: the script is not run after a failed option,
      and the loop is not entered after a failed script. */
  lemma FailureEnds(compile: string -> Loaded, loadFile: string -> Loaded, oracle: Oracle, before: World,
                    argv: seq<string>, p: Parse, init: Init, tty: bool, input: seq<string>, n: nat, after: World, end: End)
    requires IsParse(argv, p) && p.Accepted? && end != Success
    requires IsRun(compile, loadFile, oracle, before, argv, p, init, tty, input, n, after, end)
    ensures var (w, ok) := Opening(compile, loadFile, oracle, before, argv, p, init);
            && (!ok ==> after.calls == w.calls)
            && (ok ==> First(p) < |argv| && |after.calls| <= |w.calls| + 1)
            && (end == Failure && ok ==> |after.messages| == |w.messages| + 1)
  {
  }

  // ---------------------------------------------------------------------------
  // Whole command lines

  lemma OneToken(t: Token)
    ensures Position([t], 1) == 1 + Width(t) && Position([t], 0) == 1
    ensures Actions([t], 1) == ActionOf(t)
    ensures Given([t], t.option) && forall c :: c != t.option ==> !Given([t], c)
  {
    assert Actions([t], 0) == [];
    assert [t][0].option == t.option;
  }

  /** An option with its argument, as one word or as two. */
  predicate Spells(words: seq<string>, option: char, x: string) {
    || (words == [['-', option], x] && ConsoleArgs.At(x, 0) != '-')
    || (words == [['-', option] + x] && x != "")
  }

  lemma OptionParse(prog: string, words: seq<string>, option: char, x: string, p: Parse)
    requires TakesArgument(option) && Spells(words, option, x) && IsParse([prog] + words, p)
    ensures p == Accepted([if |words| == 2 then Separate(option, x) else Attached(option, x)], AtEnd)
    ensures First(p) == |words| + 1
  {
    var argv := [prog] + words;
    var t := if |words| == 2 then Separate(option, x) else Attached(option, x);
    OneToken(t);
    assert argv[1] == words[0] && (|words| == 2 ==> argv[2] == words[1]);
    assert InPlace(argv, [t], 0);
    assert IsParse(argv, Accepted([t], AtEnd));
    ParseUnique(argv, p, Accepted([t], AtEnd));
  }

  lemma PerformOne(compile: string -> Loaded, oracle: Oracle, w: World, a: Action)
    ensures PerformAll(compile, oracle, w, [a]) == Perform(compile, oracle, w, a)
  {
    assert [a][1..] == [];
  }

  /** `prog -e x`, and `prog -ex` as well, compiles x and calls it, once; the run succeeds if and only if that
      does. */
  lemma CommandE(compile: string -> Loaded, loadFile: string -> Loaded, oracle: Oracle, before: World,
                 prog: string, words: seq<string>, x: string, p: Parse, tty: bool, input: seq<string>, n: nat, after: World, end: End)
    requires Spells(words, 'e', x) && IsParse([prog] + words, p)
    requires IsRun(compile, loadFile, oracle, before, [prog] + words, p, NoInit, tty, input, n, after, end)
    ensures match compile(x)
            case NotLoaded(_, message) =>
              end == Failure && after.calls == before.calls && after.messages == before.messages + [message]
            case Compiled(c) =>
              var call := Call(Function(c), [], 0, MessageHandler);
              var o := oracle(|before.calls|, call, before.globals["arg" := ArgTable([prog] + words, |words| + 1)]);
              && after.calls == before.calls + [call] && after.globals == o.globals
              && (end == Success <==> o.Returned?)
              && after.messages == before.messages + if o.Raised? then [Text(o.message)] else []
  {
    OptionParse(prog, words, 'e', x, p);
    OneToken(p.tokens[0]);
    MaskMeans(p.tokens);
    NotGiven(Mask(p.tokens));
    var w := WithArgs(before, [prog] + words, |words| + 1);
    PerformOne(compile, oracle, w, DoString(x));
  }

  /** `prog -l x`, and `prog -lx` as well, requires x and makes its value the global of that name; then, as nothing else was asked for,
      it goes on with standard input. */
  lemma CommandL(compile: string -> Loaded, loadFile: string -> Loaded, oracle: Oracle, before: World,
                 prog: string, words: seq<string>, x: string, p: Parse, tty: bool, input: seq<string>, n: nat, after: World, end: End)
    requires Spells(words, 'l', x) && IsParse([prog] + words, p)
    requires IsRun(compile, loadFile, oracle, before, [prog] + words, p, NoInit, tty, input, n, after, end)
    ensures var call := Call(GlobalOf(before, "require"), [Str(x)], 1, MessageHandler);
            var o := oracle(|before.calls|, call, before.globals["arg" := ArgTable([prog] + words, |words| + 1)]);
            if o.Raised? then
              end == Failure && after == World(before.calls + [call], o.globals, before.messages + [Text(o.message)])
            else
              var value := if o.values == [] then Nil else o.values[0];
              var w := World(before.calls + [call], o.globals[x := value], before.messages);
              && end == Success
              && if tty then Leads(oracle, w, after) && Handled(after.calls) == Handled(w.calls) + Program(compile, input)
                 else after.calls == w.calls + match loadFile("")
                                               case NotLoaded(_, _) => []
                                               case Compiled(c) => [Call(Function(c), [], 0, MessageHandler)]
  {
    OptionParse(prog, words, 'l', x, p);
    OneToken(p.tokens[0]);
    MaskMeans(p.tokens);
    NotGiven(Mask(p.tokens));
    var w := WithArgs(before, [prog] + words, |words| + 1);
    RequireIsNotArg(w, before, [prog] + words, |words| + 1);
    PerformOne(compile, oracle, w, DoLibrary(x));
    if end == Success {
      EndOfRun(compile, loadFile, oracle, before, [prog] + words, p, NoInit, tty, input, n, after);
    }
  }

  lemma RequireIsNotArg(w: World, before: World, argv: seq<string>, script: nat)
    requires w == WithArgs(before, argv, script)
    ensures GlobalOf(w, "require") == GlobalOf(before, "require")
  {
    assert "require"[0] != "arg"[0];
  }

  /** `prog file a b c` loads the file and calls it with exactly the words after it; `-` stands for standard
      input, unless the program is called `--`. */
  lemma CommandScript(compile: string -> Loaded, loadFile: string -> Loaded, oracle: Oracle, before: World,
                      prog: string, file: string, args: seq<string>, p: Parse,
                      tty: bool, input: seq<string>, n: nat, after: World, end: End)
    requires (ConsoleArgs.At(file, 0) != '-' || file == "-") && IsParse([prog, file] + args, p)
    requires IsRun(compile, loadFile, oracle, before, [prog, file] + args, p, NoInit, tty, input, n, after, end)
    ensures match loadFile(if file == "-" && prog != "--" then "" else file)
            case NotLoaded(_, message) =>
              end == Failure && after.calls == before.calls && after.messages == before.messages + [message]
            case Compiled(c) =>
              var call := Call(Function(c), Strings(args), MULTRET, MessageHandler);
              var o := oracle(|before.calls|, call, before.globals["arg" := ArgTable([prog, file] + args, 1)]);
              && after.calls == before.calls + [call] && after.globals == o.globals
              && (end == Success <==> o.Returned?)
              && after.messages == before.messages + if o.Raised? then [Text(o.message)] else []
  {
    var argv := [prog, file] + args;
    ScriptParse(prog, file, args, p);
    var w := WithArgs(before, argv, 1);
    assert Actions(p.tokens, 0) == [];
    assert GlobalOf(w, "arg") == ArgTable(argv, 1);
    assert argv[0] == prog && argv[1] == file;
    var l := loadFile(FileName(argv, 1));
    if l.Compiled? {
      ScriptGetsWords(argv, p, Function(l.chunk), w, n);
      assert argv[2..] == args;
    }
  }

  lemma ScriptParse(prog: string, file: string, args: seq<string>, p: Parse)
    requires (ConsoleArgs.At(file, 0) != '-' || file == "-") && IsParse([prog, file] + args, p)
    ensures p == Accepted([], if file == "-" then AtDash else AtScript) && First(p) == 1
  {
    var argv := [prog, file] + args;
    var q := Accepted([], if file == "-" then AtDash else AtScript);
    assert argv[1] == file;
    assert IsParse(argv, q);
    ParseUnique(argv, p, q);
  }
}
