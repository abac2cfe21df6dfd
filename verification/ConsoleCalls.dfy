/** The console's calls into Lua: arguments to the script, chunks, libraries. Every method says exactly
    what it leaves on the stack and what it did to the world. */
module ConsoleCalls {
  import opened LuaStack
  import ConsoleArgs

  /** The call `docall` makes, with the message handler in place. */
  function HandledCall(stack: seq<Value>, narg: nat, nresults: int): Call
    requires |stack| >= narg + 1
  {
    var b := |stack| - narg - 1;
    Call(stack[b], stack[b + 1..], nresults, MessageHandler)
  }

  /** Prints the message on the top of the stack, if there is one, and removes it. */
  method Report(L: Lua, status: Status) returns (r: Status)
    requires status != OK ==> |L.stack| >= 1
    modifies L`stack, L`world
    ensures r == status
    ensures L.stack == if status == OK then old(L.stack) else old(L.stack)[..|old(L.stack)| - 1]
    ensures L.world == if status == OK then old(L.world) else Said(old(L.world), Text(old(L.stack)[|old(L.stack)| - 1]))
  {
    if status != OK {
      var msg := Text(L.stack[|L.stack| - 1]);
      L.world := Said(L.world, msg);
      L.Pop(1);
    }
    r := status;
  }

  /** Calls the function below the top `narg` values. The message handler is put under the function for
      the call and taken away again, whatever the call leaves above it. */
  method DoCall(L: Lua, narg: nat, nresults: int) returns (status: Status)
    requires |L.stack| >= narg + 1
    modifies L`stack, L`world
    ensures var call := HandledCall(old(L.stack), narg, nresults);
            var o := OutcomeOf(L.oracle, old(L.world), call);
            && L.world == Called(L.oracle, old(L.world), call)
            && status == StatusOf(o)
            && L.stack == old(L.stack)[..|old(L.stack)| - narg - 1] + Left(o, nresults)
  {
    ghost var s := L.stack;
    var base := |L.stack| - narg;
    PutUnder(L, base, MessageHandler);
    ghost var t := s[..base - 1] + [MessageHandler] + s[base - 1..];
    Shifted(s, base - 1, MessageHandler);
    assert t[base - 1] == MessageHandler && t[base] == s[base - 1] && t[base + 1..] == s[base..];
    status := L.PCall(narg, nresults, base);
    TakeAway(L, s[..base - 1], MessageHandler, L.stack[base..], base);
  }

  /** Pushes a value and moves it to index `base`. */
  method PutUnder(L: Lua, base: nat, v: Value)
    requires 1 <= base <= |L.stack|
    modifies L`stack
    ensures L.stack == old(L.stack)[..base - 1] + [v] + old(L.stack)[base - 1..]
  {
    ghost var s := L.stack;
    L.Push(v);
    assert L.stack[..base - 1] == s[..base - 1] && L.stack[base - 1..|s|] == s[base - 1..];
    L.Insert(base);
  }

  lemma Shifted(s: seq<Value>, i: nat, v: Value)
    requires i < |s|
    ensures var t := s[..i] + [v] + s[i..]; t[..i + 1] == s[..i] + [v] && t[i + 1..] == s[i..]
  {
  }

  /** Removes the element at index `base`. */
  method TakeAway(L: Lua, ghost below: seq<Value>, ghost v: Value, ghost above: seq<Value>, base: nat)
    requires L.stack == below + [v] + above && base == |below| + 1
    modifies L`stack
    ensures L.stack == below + above
  {
    L.Remove(base);
  }

  /** A call with the message handler whose failure is reported. */
  function Finished(oracle: Oracle, w: World, call: Call): World {
    match OutcomeOf(oracle, w, call)
    case Returned(_, _) => Called(oracle, w, call)
    case Raised(_, message, _) => Said(Called(oracle, w, call), Text(message))
  }

  /** Runs the chunk on the top, or reports why there is none; nothing is left on the stack. */
  method DoChunk(L: Lua, loaded: Status) returns (status: Status)
    requires |L.stack| >= 1
    modifies L`stack, L`world
    ensures L.stack == old(L.stack)[..|old(L.stack)| - 1]
    ensures var top := old(L.stack)[|old(L.stack)| - 1];
            var call := Call(top, [], 0, MessageHandler);
            if loaded == OK then
              L.world == Finished(L.oracle, old(L.world), call) && status == StatusOf(OutcomeOf(L.oracle, old(L.world), call))
            else L.world == Said(old(L.world), Text(top)) && status == loaded
  {
    status := loaded;
    if status == OK {
      assert L.stack[|L.stack|..] == [];
      status := DoCall(L, 0, 0);
    }
    status := Report(L, status);
  }

  /** What running a chunk does, and how it ends. */
  function RunChunk(oracle: Oracle, w: World, l: Loaded): (World, Status) {
    match l
    case NotLoaded(e, message) => (Said(w, message), Err(e))
    case Compiled(c) =>
      var call := Call(Function(c), [], 0, MessageHandler);
      (Finished(oracle, w, call), StatusOf(OutcomeOf(oracle, w, call)))
  }

  method DoLoaded(L: Lua, l: Loaded) returns (status: Status)
    modifies L`stack, L`world
    ensures L.stack == old(L.stack)
    ensures (L.world, status) == RunChunk(L.oracle, old(L.world), l)
  {
    status := L.Load(l);
    status := DoChunk(L, status);
    assert L.stack == old(L.stack);
  }

  method DoString(L: Lua, s: string) returns (status: Status)
    modifies L`stack, L`world
    ensures L.stack == old(L.stack)
    ensures (L.world, status) == RunChunk(L.oracle, old(L.world), L.compile(s))
  {
    status := DoLoaded(L, L.compile(s));
  }

  method DoFile(L: Lua, name: string) returns (status: Status)
    modifies L`stack, L`world
    ensures L.stack == old(L.stack)
    ensures (L.world, status) == RunChunk(L.oracle, old(L.world), L.loadFile(name))
  {
    status := DoLoaded(L, L.loadFile(name));
  }

  /** What requiring a library does: its value becomes the global of the same name. */
  function RunLibrary(oracle: Oracle, w: World, name: string): (World, Status) {
    var call := Call(GlobalOf(w, "require"), [Str(name)], 1, MessageHandler);
    var o := OutcomeOf(oracle, w, call);
    match o
    case Raised(_, _, _) => (Finished(oracle, w, call), StatusOf(o))
    case Returned(values, g) =>
      (Called(oracle, w, call).(globals := g[name := if values == [] then Nil else values[0]]), OK)
  }

  method DoLibrary(L: Lua, name: string) returns (status: Status)
    modifies L`stack, L`world
    ensures L.stack == old(L.stack)
    ensures (L.world, status) == RunLibrary(L.oracle, old(L.world), name)
  {
    L.GetGlobal("require");
    L.Push(Str(name));
    ghost var s := L.stack;
    assert s[..|s| - 2] == old(L.stack) && s[|s| - 1..] == [Str(name)];
    status := DoCall(L, 1, 1);
    if status == OK {
      L.SetGlobal(name);
    }
    status := Report(L, status);
    assert L.stack == old(L.stack);
  }

  // ---------------------------------------------------------------------------
  // Arguments to the script

  /** The index that becomes 0 in `arg`: the script, or the program name if there is no script. */
  function Origin(argv: seq<string>, script: nat): nat {
    if script == |argv| then 0 else script
  }

  /** The table `arg`, filled from the first `n` words. */
  function ArgFields(argv: seq<string>, origin: nat, n: nat): (fields: map<int, Value>)
    requires n <= |argv|
    ensures forall k :: k in fields <==> 0 <= k + origin < n
    ensures forall k :: k in fields ==> fields[k] == Str(argv[k + origin])
  {
    if n == 0 then map[] else ArgFields(argv, origin, n - 1)[n - 1 - origin := Str(argv[n - 1])]
  }

  function ArgTable(argv: seq<string>, script: nat): Value {
    Table(ArgFields(argv, Origin(argv, script), |argv|))
  }

  /** The world with `arg` made from the command line. */
  function WithArgs(w: World, argv: seq<string>, script: nat): World {
    w.(globals := w.globals["arg" := ArgTable(argv, script)])
  }

  method CreateArgTable(L: Lua, argv: seq<string>, script: nat)
    requires script <= |argv|
    modifies L`stack, L`world
    ensures L.stack == old(L.stack)
    ensures L.world == WithArgs(old(L.world), argv, script)
  {
    var origin := if script == |argv| then 0 else script;
    L.Push(Table(map[]));
    for i := 0 to |argv|
      invariant L.stack == old(L.stack) + [Table(ArgFields(argv, origin, i))]
      invariant L.world == old(L.world)
    {
      L.Push(Str(argv[i]));
      L.RawSetI(-2, i - origin);
    }
    L.SetGlobal("arg");
  }

  /** Fields 1 .. n of a table. */
  function Fields(t: Value, n: nat): seq<Value> {
    seq(n, i => Field(t, i + 1))
  }

  /** Pushes the fields 1 .. #arg of the global `arg`; `raised` if `arg` is not a table. The table itself
      is addressed by a relative index that moves with every value pushed. */
  method PushArgs(L: Lua) returns (n: nat, raised: bool)
    modifies L`stack
    ensures raised <==> !L.Global("arg").Table?
    ensures !raised ==> IsBorder(L.Global("arg"), n) && L.stack == old(L.stack) + Fields(L.Global("arg"), n)
  {
    var t := L.Global("arg");
    L.GetGlobal("arg");
    if !t.Table? {
      return 0, true;
    }
    n := L.Len(-1);
    var i := 1;
    while i <= n
      invariant 1 <= i <= n + 1
      invariant L.stack == old(L.stack) + [t] + Fields(t, i - 1)
      invariant L.world == old(L.world)
    {
      L.RawGetI(-i, i);
      i := i + 1;
      assert Fields(t, i - 1) == Fields(t, i - 2) + [Field(t, i - 1)];
    }
    assert i == n + 1;
    RemoveUnder(L, old(L.stack), t, Fields(t, n), n);
    raised := false;
  }

  /** Removes the element under the top values, by its index relative to the top. */
  method RemoveUnder(L: Lua, ghost below: seq<Value>, ghost v: Value, ghost above: seq<Value>, n: nat)
    requires L.stack == below + [v] + above && n == |above|
    modifies L`stack
    ensures L.stack == below + above
  {
    L.Remove(-(n + 1));
  }

  /** The arguments of the script as Lua strings. */
  function Strings(words: seq<string>): seq<Value> {
    seq(|words|, i requires 0 <= i < |words| => Str(words[i]))
  }

  /** The table built from the command line has one border only: the number of words after the script. */
  lemma ArgBorder(argv: seq<string>, script: nat, n: nat)
    requires script <= |argv| && 1 <= |argv| && IsBorder(ArgTable(argv, script), n)
    ensures n == |argv| - Origin(argv, script) - 1
    ensures Fields(ArgTable(argv, script), n) == Strings(argv[Origin(argv, script) + 1..])
  {
    AlignedBorder(ArgTable(argv, script), argv, Origin(argv, script), n);
  }

  lemma AlignedBorder(t: Value, argv: seq<string>, origin: nat, n: nat)
    requires t.Table? && origin < |argv| && IsBorder(t, n)
    requires forall k :: k in t.fields <==> 0 <= k + origin < |argv|
    requires forall k :: k in t.fields ==> t.fields[k] == Str(argv[k + origin])
    ensures n == |argv| - origin - 1
    ensures Fields(t, n) == Strings(argv[origin + 1..])
  {
    assert n + 1 in t.fields <==> n + 1 + origin < |argv|;
    assert n in t.fields <==> n + origin < |argv|;
    var words := argv[origin + 1..];
    forall i | 0 <= i < n
      ensures Fields(t, n)[i] == Strings(words)[i]
    {
      var k := i + 1;
      assert k in t.fields;
    }
  }

  /** If nothing changes the global `arg` in between, the script gets exactly the words after it, in
      order, above whatever was on the stack. */
  method PassArguments(L: Lua, argv: seq<string>, script: nat) returns (n: nat)
    requires script <= |argv| && 1 <= |argv|
    modifies L`stack, L`world
    ensures n == |argv| - Origin(argv, script) - 1
    ensures L.stack == old(L.stack) + Strings(argv[Origin(argv, script) + 1..])
  {
    CreateArgTable(L, argv, script);
    var raised;
    n, raised := PushArgs(L);
    ArgBorder(argv, script, n);
  }

  /** What is loaded; "" is standard input. */
  function FileName(argv: seq<string>, script: nat): string
    requires 1 <= script < |argv|
  {
    if ConsoleArgs.ReadsStdin(argv, script) then "" else argv[script]
  }

  /** The call of a script, with the fields 1 .. n of `arg`. */
  function ScriptCall(f: Value, arg: Value, n: nat): Call {
    Call(f, Fields(arg, n), MULTRET, MessageHandler)
  }

  /** Calls the function on the top with the fields of the global `arg`. */
  method CallScript(L: Lua, ghost below: seq<Value>, ghost f: Value) returns (status: Status, raised: bool, n: nat)
    requires L.stack == below + [f]
    modifies L`stack, L`world
    ensures raised <==> !old(L.Global("arg")).Table?
    ensures raised ==> L.world == old(L.world)
    ensures !raised ==>
              var call := ScriptCall(f, old(L.Global("arg")), n);
              var o := OutcomeOf(L.oracle, old(L.world), call);
              && IsBorder(old(L.Global("arg")), n)
              && L.world == Called(L.oracle, old(L.world), call) && status == StatusOf(o)
              && L.stack == below + Left(o, MULTRET)
  {
    status := OK;
    ghost var t := L.Global("arg");
    n, raised := PushArgs(L);
    if !raised {
      ghost var s := L.stack;
      assert s == below + [f] + Fields(t, n);
      assert s[..|below|] == below && s[|below|] == f && s[|below| + 1..] == Fields(t, n);
      status := DoCall(L, n, MULTRET);
    }
  }

  /** What running a script does, how it ends, and the results it leaves on the stack. */
  function RunScript(oracle: Oracle, w: World, l: Loaded, n: nat): (World, Status, seq<Value>) {
    match l
    case NotLoaded(e, message) => (Said(w, message), Err(e), [])
    case Compiled(c) =>
      var call := ScriptCall(Function(c), GlobalOf(w, "arg"), n);
      var o := OutcomeOf(oracle, w, call);
      (Finished(oracle, w, call), StatusOf(o), if o.Returned? then o.values else [])
  }

  /** Loads the script and calls it. On success the script's results stay on the stack, on failure nothing
      does. `raised` if `arg` is no longer a table. */
  method HandleScript(L: Lua, argv: seq<string>, script: nat) returns (status: Status, raised: bool, n: nat)
    requires 1 <= script < |argv|
    modifies L`stack, L`world
    ensures raised <==> L.loadFile(FileName(argv, script)).Compiled? && !old(L.Global("arg")).Table?
    ensures raised ==> L.world == old(L.world)
    ensures !raised && L.loadFile(FileName(argv, script)).Compiled? ==> IsBorder(old(L.Global("arg")), n)
    ensures !raised ==>
              var (w, end, results) := RunScript(L.oracle, old(L.world), L.loadFile(FileName(argv, script)), n);
              L.world == w && status == end && L.stack == old(L.stack) + results
  {
    var fname := argv[script];
    if ConsoleArgs.ReadsStdin(argv, script) {
      fname := "";
    }
    ghost var below := L.stack;
    status := L.Load(L.loadFile(fname));
    raised, n := false, 0;
    if status == OK {
      status, raised, n := CallScript(L, below, Function(L.loadFile(fname).chunk));
      if raised {
        return;
      }
    }
    status := Report(L, status);
  }
}
