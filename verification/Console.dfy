/** The console from the command line to its end: the options are parsed, executed one after the other on
    one Lua state, then the script, then the interactive loop. */
module Console {
  import opened LuaStack
  import opened ConsoleArgs
  import opened ConsoleCalls
  import ConsoleReader

  // ---------------------------------------------------------------------------
  // Executing the options

  /** What one `-e` or `-l` does, and whether it succeeds. */
  function Perform(compile: string -> Loaded, oracle: Oracle, w: World, a: Action): (World, bool) {
    var (w', status) := match a
                        case DoString(chunk) => RunChunk(oracle, w, compile(chunk))
                        case DoLibrary(name) => RunLibrary(oracle, w, name);
    (w', status == OK)
  }

  /** The options are executed in order up to the first that fails. */
  function PerformAll(compile: string -> Loaded, oracle: Oracle, w: World, actions: seq<Action>): (World, bool)
    decreases |actions|
  {
    if actions == [] then (w, true) else
      var (w', ok) := Perform(compile, oracle, w, actions[0]);
      if ok then PerformAll(compile, oracle, w', actions[1..]) else (w', false)
  }

  /** Executes at most one option; the stack is as before. */
  method Execute(L: Lua, actions: seq<Action>) returns (ok: bool)
    requires |actions| <= 1
    modifies L`stack, L`world
    ensures L.stack == old(L.stack)
    ensures (L.world, ok) == PerformAll(L.compile, L.oracle, old(L.world), actions)
  {
    var status := OK;
    if actions != [] {
      match actions[0] {
        case DoString(chunk) => status := ConsoleCalls.DoString(L, chunk);
        case DoLibrary(name) => status := ConsoleCalls.DoLibrary(L, name);
      }
      assert actions[1..] == [];
    }
    ok := status == OK;
  }

  lemma {:induction false} PerformConcat(compile: string -> Loaded, oracle: Oracle, w: World, a: seq<Action>, b: seq<Action>)
    ensures PerformAll(compile, oracle, w, a + b) ==
            var (w', ok) := PerformAll(compile, oracle, w, a);
            if ok then PerformAll(compile, oracle, w', b) else (w', false)
    decreases |a|
  {
    if a == [] {
      assert a + b == b;
    } else {
      assert (a + b)[1..] == a[1..] + b;
      PerformConcat(compile, oracle, Perform(compile, oracle, w, a[0]).0, a[1..], b);
    }
  }

  /** Executing `executed` has led from `w0` to `w` without a failure. */
  ghost predicate Going(compile: string -> Loaded, oracle: Oracle, w0: World, w: World, executed: seq<Action>) {
    PerformAll(compile, oracle, w0, executed) == (w, true)
  }

  lemma GoesOn(compile: string -> Loaded, oracle: Oracle, w0: World, w: World, executed: seq<Action>, more: seq<Action>)
    requires Going(compile, oracle, w0, w, executed)
    ensures PerformAll(compile, oracle, w0, executed + more) == PerformAll(compile, oracle, w, more)
  {
    PerformConcat(compile, oracle, w0, executed, more);
  }

  /** A failure ends the execution, whatever would have come next. */
  lemma FailsEarly(compile: string -> Loaded, oracle: Oracle, w0: World, some: seq<Action>, all: seq<Action>)
    requires some <= all && !PerformAll(compile, oracle, w0, some).1
    ensures PerformAll(compile, oracle, w0, all) == PerformAll(compile, oracle, w0, some)
  {
    assert all == some + all[|some|..];
    PerformConcat(compile, oracle, w0, some, all[|some|..]);
  }

  /** One round of the loop: the word at `i`, of which the parser made token `k`. */
  method RunOption(L: Lua, argv: seq<string>, i: nat, ghost p: Parse, ghost k: nat, ghost w0: World,
                   ghost executed: seq<Action>, ghost visited: seq<nat>)
    returns (ok: bool, next: nat)
    requires IsParse(argv, p) && Walked(p, k, i, executed, visited) && i < First(p)
    requires Going(L.compile, L.oracle, w0, L.world, executed)
    modifies L`stack, L`world
    ensures L.stack == old(L.stack)
    ensures var t := TokenAt(p.tokens, k);
            && Walked(p, k + |t|, next, executed + ActionsOf(t), visited + [i])
            && i < next <= First(p)
            && (ok ==> Going(L.compile, L.oracle, w0, L.world, executed + ActionsOf(t)))
    ensures !ok ==> (L.world, false) == PerformAll(L.compile, L.oracle, w0, Actions(p.tokens, |p.tokens|))
  {
    Visit(argv, p, k, i, executed, visited);
    ghost var t := TokenAt(p.tokens, k);
    var actions, last := RunWord(argv, i, t);
    GoesOn(L.compile, L.oracle, w0, L.world, executed, actions);
    ok := Execute(L, actions);
    next := last + 1;
    if !ok {
      FailsEarly(L.compile, L.oracle, w0, executed + actions, Actions(p.tokens, |p.tokens|));
    }
  }

  /** `runargs`: executes the options before `n`, exactly those the parser accepted and in that order. */
  method RunArgs(L: Lua, argv: seq<string>, n: nat, ghost p: Parse) returns (ok: bool, ghost visited: seq<nat>)
    requires IsParse(argv, p) && p.Accepted? && n == First(p)
    modifies L`stack, L`world
    ensures L.stack == old(L.stack)
    ensures (L.world, ok) == PerformAll(L.compile, L.oracle, old(L.world), Actions(p.tokens, |p.tokens|))
    ensures ok ==> visited == Positions(p.tokens, |p.tokens|) + if p.stop.AfterDashes? then [n - 1] else []
  {
    ghost var executed: seq<Action>, k: nat := [], 0;
    visited, ok := [], true;
    var i: nat := 1;
    while i < n
      invariant Walked(p, k, i, executed, visited) && i <= n && ok
      invariant L.stack == old(L.stack) && Going(L.compile, L.oracle, old(L.world), L.world, executed)
      decreases n - i
    {
      ghost var t := TokenAt(p.tokens, k);
      ghost var at := i;
      ok, i := RunOption(L, argv, i, p, k, old(L.world), executed, visited);
      k, executed, visited := k + |t|, executed + ActionsOf(t), visited + [at];
      if !ok {
        return;
      }
    }
    WalkedAll(p, k, i, executed, visited);
  }

  // ---------------------------------------------------------------------------
  // The whole run

  /** The initialisation named by the environment. */
  datatype Init = NoInit | InitFile(name: string) | InitText(text: string)

  function RunInit(compile: string -> Loaded, loadFile: string -> Loaded, oracle: Oracle, w: World, init: Init): (World, bool) {
    match init
    case NoInit => (w, true)
    case InitFile(name) => var (w', status) := RunChunk(oracle, w, loadFile(name)); (w', status == OK)
    case InitText(text) => var (w', status) := RunChunk(oracle, w, compile(text)); (w', status == OK)
  }

  method HandleInit(L: Lua, init: Init) returns (ok: bool)
    modifies L`stack, L`world
    ensures L.stack == old(L.stack)
    ensures (L.world, ok) == RunInit(L.compile, L.loadFile, L.oracle, old(L.world), init)
  {
    var status := OK;
    match init {
      case NoInit =>
      case InitFile(name) => status := ConsoleCalls.DoFile(L, name);
      case InitText(text) => status := ConsoleCalls.DoString(L, text);
    }
    ok := status == OK;
  }

  /** Before the script: `arg`, the initialisation unless `-E` was given, and the options. */
  function Opening(compile: string -> Loaded, loadFile: string -> Loaded, oracle: Oracle, w: World,
                   argv: seq<string>, p: Parse, init: Init): (World, bool)
  {
    var w1 := WithArgs(w, argv, First(p));
    var (w2, ok) := if Mask(p.tokens) & HAS_E_UPPER != 0 then (w1, true) else RunInit(compile, loadFile, oracle, w1, init);
    if ok then PerformAll(compile, oracle, w2, Actions(p.tokens, |p.tokens|)) else (w2, false)
  }

  method Open(L: Lua, argv: seq<string>, mask: bv8, script: nat, init: Init, ghost p: Parse) returns (ok: bool)
    requires IsParse(argv, p) && p.Accepted? && mask == Mask(p.tokens) && script == First(p)
    modifies L`stack, L`world
    ensures L.stack == old(L.stack)
    ensures (L.world, ok) == Opening(L.compile, L.loadFile, L.oracle, old(L.world), argv, p, init)
  {
    CreateArgTable(L, argv, script);
    ok := true;
    if mask & HAS_E_UPPER == 0 {
      ok := HandleInit(L, init);
    }
    if ok {
      ghost var visited;
      ok, visited := RunArgs(L, argv, script, p);
    }
  }

  /** After the script: the loop if `-i` was given; standard input if there was nothing else to do. */
  function Closing(compile: string -> Loaded, loadFile: string -> Loaded, oracle: Oracle, w: World,
                   mask: bv8, script: bool, tty: bool, input: seq<string>): World
  {
    if mask & HAS_I != 0 then ConsoleReader.Session(compile, oracle, w, input)
    else if script || mask & (HAS_E_LOWER | HAS_V) != 0 then w
    else if tty then ConsoleReader.Session(compile, oracle, w, input)
    else RunChunk(oracle, w, loadFile("")).0
  }

  method Close(L: Lua, mask: bv8, script: bool, tty: bool)
    modifies L`stack, L`world, L`input
    ensures L.world == Closing(L.compile, L.loadFile, L.oracle, old(L.world), mask, script, tty, old(L.input))
  {
    if mask & HAS_I != 0 {
      ConsoleReader.DoREPL(L);
    } else if !script && mask & (HAS_E_LOWER | HAS_V) == 0 {
      if tty {
        ConsoleReader.DoREPL(L);
      } else {
        var _ := ConsoleCalls.DoFile(L, "");
      }
    }
  }

  /** What `print_usage` says first. */
  function UsageText(word: string): string {
    if SaysNeedsArgument(word) then "'" + word + "' needs argument" else "unrecognized option '" + word + "'"
  }

  datatype End = Success | Failure | Uncaught

  /** How a run of the console ends and what it leaves behind. `n` is the length of `arg` the script got. */
  ghost predicate IsRun(compile: string -> Loaded, loadFile: string -> Loaded, oracle: Oracle, before: World,
                        argv: seq<string>, p: Parse, init: Init, tty: bool, input: seq<string>,
                        n: nat, after: World, end: End)
    requires IsParse(argv, p)
  {
    if p.Rejected? then
      end == Failure && after == Said(before, UsageText(argv[First(p)]))
    else
      var (w, ok) := Opening(compile, loadFile, oracle, before, argv, p, init);
      var script := First(p) < |argv|;
      if !ok then end == Failure && after == w
      else if !script then
        end == Success && after == Closing(compile, loadFile, oracle, w, Mask(p.tokens), script, tty, input)
      else
        var l := loadFile(FileName(argv, First(p)));
        var (w', status, _) := RunScript(oracle, w, l, n);
        if l.Compiled? && !GlobalOf(w, "arg").Table? then end == Uncaught && after == w
        else
          && (l.Compiled? ==> IsBorder(GlobalOf(w, "arg"), n))
          && if status != OK then end == Failure && after == w'
             else end == Success && after == Closing(compile, loadFile, oracle, w', Mask(p.tokens), script, tty, input)
  }

  /** `pmain`. */
  method RunConsole(L: Lua, argv: seq<string>, init: Init, tty: bool) returns (end: End, ghost n: nat, ghost p: Parse)
    requires |argv| >= 1 && CStrings(argv)
    modifies L`stack, L`world, L`input
    ensures IsParse(argv, p)
    ensures IsRun(L.compile, L.loadFile, L.oracle, old(L.world), argv, p, init, tty, old(L.input), n, L.world, end)
  {
    n := 0;
    ghost var visited;
    var mask, script;
    mask, script, p, visited := CollectArgs(argv);
    assert Summary(p, mask, script);
    if mask == HAS_ERROR {
      L.world := Said(L.world, UsageText(argv[script]));
      return Failure, n, p;
    }
    var ok := Open(L, argv, mask, script, init, p);
    if !ok {
      return Failure, n, p;
    }
    if script < |argv| {
      var status, raised, length := HandleScript(L, argv, script);
      n := length;
      if raised {
        return Uncaught, n, p;
      }
      if status != OK {
        return Failure, n, p;
      }
    }
    Close(L, mask, script < |argv|, tty);
    end := Success;
  }

  /** A script that is run while `arg` still is what the command line made it gets exactly the words after
      it. */
  lemma ScriptGetsWords(argv: seq<string>, p: Parse, f: Value, w: World, n: nat)
    requires IsParse(argv, p) && First(p) < |argv| && GlobalOf(w, "arg") == ArgTable(argv, First(p))
    requires IsBorder(GlobalOf(w, "arg"), n)
    ensures ScriptCall(f, GlobalOf(w, "arg"), n).args == Strings(argv[First(p) + 1..])
  {
    ArgBorder(argv, First(p), n);
  }
}
