/** The interactive loop: reading a statement that may span several lines, running it, printing its
    results. The compiler is an oracle, so nothing here depends on Lua's grammar. */
module ConsoleReader {
  import opened LuaStack
  import opened ConsoleCalls

  const EOF_MARK := "<eof>"

  // ---------------------------------------------------------------------------
  // What a chunk is

  predicate EndsWith(s: string, t: string) {
    |s| >= |t| && s[|s| - |t|..] == t
  }

  /** The compiler says that the text could be continued. */
  predicate Unfinished(l: Loaded) {
    l.NotLoaded? && l.error == ERRSYNTAX && EndsWith(l.message, EOF_MARK)
  }

  function Chomp(b: string): string {
    if b != [] && b[|b| - 1] == '\n' then b[..|b| - 1] else b
  }

  /** A first line may start with '=' instead of "return ". */
  function FirstLine(b: string): string {
    var line := Chomp(b);
    if line != [] && line[0] == '=' then "return " + line[1..] else line
  }

  /** The first `k` lines of the input joined by newlines. */
  function Joined(input: seq<string>, k: nat): string
    requires 1 <= k <= |input|
  {
    if k == 1 then FirstLine(input[0]) else Joined(input, k - 1) + "\n" + Chomp(input[k - 1])
  }

  function AsExpression(line: string): string {
    "return " + line + ";"
  }

  /** How many lines a statement takes, if it takes at least `k`. */
  function Extent(compile: string -> Loaded, input: seq<string>, k: nat): (n: nat)
    requires 1 <= k <= |input|
    ensures k <= n <= |input|
    decreases |input| - k
  {
    if k < |input| && Unfinished(compile(Joined(input, k))) then Extent(compile, input, k + 1) else k
  }

  /** How many lines the next chunk takes: one if it is an expression, else as many as it needs. */
  function Lines(compile: string -> Loaded, input: seq<string>): (n: nat)
    requires input != []
    ensures 1 <= n <= |input|
  {
    if compile(AsExpression(FirstLine(input[0]))).Compiled? then 1 else Extent(compile, input, 1)
  }

  /** What the next chunk compiles to. */
  function Chunk(compile: string -> Loaded, input: seq<string>): Loaded
    requires input != []
  {
    var expression := compile(AsExpression(FirstLine(input[0])));
    if expression.Compiled? then expression else compile(Joined(input, Extent(compile, input, 1)))
  }

  /** A syntax error whose message ends in `<eof>`, and no other error. */
  ghost predicate AsksForMore(l: Loaded) {
    exists start :: l == NotLoaded(ERRSYNTAX, start + "<eof>")
  }

  lemma AsksIff(l: Loaded)
    ensures Unfinished(l) <==> AsksForMore(l)
  {
    if Unfinished(l) {
      var n := |l.message| - 5;
      assert l.message == l.message[..n] + "<eof>";
    }
    if AsksForMore(l) {
      var start :| l == NotLoaded(ERRSYNTAX, start + "<eof>");
      assert l.message[|start|..] == "<eof>";
    }
  }

  /** A statement is the shortest sequence of lines that is not unfinished, or all there is. */
  lemma {:induction false} ExtentIsShortest(compile: string -> Loaded, input: seq<string>, k: nat)
    requires 1 <= k <= |input|
    ensures var n := Extent(compile, input, k);
            && (forall j :: k <= j < n ==> Unfinished(compile(Joined(input, j))))
            && (Unfinished(compile(Joined(input, n))) ==> n == |input|)
    ensures forall j :: k <= j < Extent(compile, input, k) ==> AsksForMore(compile(Joined(input, j)))
    ensures Extent(compile, input, k) < |input| ==> !AsksForMore(compile(Joined(input, Extent(compile, input, k))))
    decreases |input| - k
  {
    AsksIff(compile(Joined(input, k)));
    if k < |input| && Unfinished(compile(Joined(input, k))) {
      ExtentIsShortest(compile, input, k + 1);
    }
  }

  // ---------------------------------------------------------------------------
  // Reading

  function PromptName(first: bool): string {
    if first then "_PROMPT" else "_PROMPT2"
  }

  /** Reads a line and pushes it; without input the prompt stays on the stack instead. */
  method PushLine(L: Lua, first: bool) returns (read: bool)
    modifies L`stack, L`input
    ensures read <==> old(L.input) != []
    ensures read ==> L.input == old(L.input)[1..]
    ensures read ==> L.stack == old(L.stack) + [Str(if first then FirstLine(old(L.input)[0]) else Chomp(old(L.input)[0]))]
    ensures !read ==> L.input == [] && L.stack == old(L.stack) + [L.Global(PromptName(first))]
  {
    L.GetGlobal(PromptName(first));
    if L.input == [] {
      return false;
    }
    var b := L.input[0];
    L.input := L.input[1..];
    L.Pop(1);
    if b != [] && b[|b| - 1] == '\n' {
      b := b[..|b| - 1];
    }
    if first && b != [] && b[0] == '=' {
      L.Push(Str("return " + b[1..]));
    } else {
      L.Push(Str(b));
    }
    read := true;
  }

  /** Tries the line on the top as an expression; the compiled chunk comes above it, or nothing does. */
  method AddReturn(L: Lua) returns (status: Status)
    requires |L.stack| >= 1 && L.stack[|L.stack| - 1].Str?
    modifies L`stack
    ensures var l := L.compile(AsExpression(old(L.stack)[|old(L.stack)| - 1].text));
            && status == (if l.Compiled? then OK else Err(l.error))
            && L.stack == old(L.stack) + if l.Compiled? then [Function(l.chunk)] else []
  {
    var line := L.stack[|L.stack| - 1].text;
    var retline := "return " + line + ";";
    L.Push(Str(retline));
    status := L.Load(L.compile(retline));
    if status == OK {
      L.Remove(-2);
    } else {
      L.Pop(2);
    }
  }

  /** Whether the message on the top says that the text is unfinished; if so it is removed. */
  method Incomplete(L: Lua, l: Loaded) returns (r: bool)
    requires |L.stack| >= 1 && (l.NotLoaded? ==> L.stack[|L.stack| - 1] == Str(l.message))
    modifies L`stack
    ensures r <==> Unfinished(l)
    ensures L.stack == if r then old(L.stack)[..|old(L.stack)| - 1] else old(L.stack)
  {
    r := false;
    if l.NotLoaded? && l.error == ERRSYNTAX {
      var msg := L.stack[|L.stack| - 1].text;
      if |msg| >= |EOF_MARK| && msg[|msg| - |EOF_MARK|..] == EOF_MARK {
        L.Pop(1);
        r := true;
      }
    }
  }

  function Pushed(l: Loaded): Value {
    match l
    case Compiled(c) => Function(c)
    case NotLoaded(_, m) => Str(m)
  }

  function LoadStatus(l: Loaded): Status {
    match l
    case Compiled(_) => OK
    case NotLoaded(e, _) => Err(e)
  }

  /** Joins the text and the line above it by a newline. */
  method JoinLine(L: Lua, ghost text: string, ghost line: string)
    requires L.stack == [Str(text), Str(line)]
    modifies L`stack
    ensures L.stack == [Str(text + "\n" + line)]
  {
    L.Push(Str("\n"));
    L.Insert(-2);
    assert L.stack == [Str(text), Str("\n"), Str(line)];
    L.Concat3();
  }

  /** Tries the text as a statement and, if it is unfinished, reads another line. */
  method TryStatement(L: Lua, text: string) returns (status: Status, joined: bool)
    requires L.stack == [Str(text)]
    modifies L`stack, L`input
    ensures var l := L.compile(text);
            && status == LoadStatus(l)
            && (joined <==> Unfinished(l) && old(L.input) != [])
            && (joined ==> L.stack == [Str(text + "\n" + Chomp(old(L.input)[0]))] && L.input == old(L.input)[1..])
            && (!joined ==> L.stack == [Str(text), if Unfinished(l) then L.Global("_PROMPT2") else Pushed(l)]
                            && L.input == old(L.input))
  {
    var l := L.compile(text);
    status := L.Load(l);
    joined := Incomplete(L, l);
    if !joined {
      return;
    }
    joined := PushLine(L, false);
    if joined {
      JoinLine(L, text, Chomp(old(L.input)[0]));
    }
  }

  /** Reads further lines until the text on the stack is a finished statement or the input ends. `all`
      is the input from the statement's first line on, `k` the number of its lines read so far. At the
      end of the input the prompt takes the place of the compiler's message. */
  method Multiline(L: Lua, ghost all: seq<string>, ghost k: nat) returns (status: Status)
    requires 1 <= k <= |all| && L.input == all[k..] && L.stack == [Str(Joined(all, k))]
    modifies L`stack, L`input
    ensures var n := Extent(L.compile, all, k);
            var l := L.compile(Joined(all, n));
            && L.input == all[n..]
            && status == LoadStatus(l)
            && L.stack == [Str(Joined(all, n)), if Unfinished(l) then L.Global("_PROMPT2") else Pushed(l)]
  {
    ghost var j := k;
    status := OK;
    var joined := true;
    while joined
      invariant k <= j <= |all| && Extent(L.compile, all, k) == Extent(L.compile, all, j)
      invariant L.input == all[j..]
      invariant joined ==> L.stack == [Str(Joined(all, j))]
      invariant !joined ==> Tried(L, all, j, status)
      decreases joined, |L.input|
    {
      status, joined := TryStatement(L, L.stack[0].text);
      if joined {
        JoinedNext(L.compile, all, j);
        j := j + 1;
      }
    }
  }

  /** The first `j` lines have been tried as a statement and no further line was read. */
  ghost predicate Tried(L: Lua, all: seq<string>, j: nat, status: Status)
    requires 1 <= j <= |all|
    reads L
  {
    var l := L.compile(Joined(all, j));
    && (Unfinished(l) ==> j == |all|)
    && status == LoadStatus(l)
    && L.stack == [Str(Joined(all, j)), if Unfinished(l) then L.Global("_PROMPT2") else Pushed(l)]
  }

  lemma JoinedNext(compile: string -> Loaded, all: seq<string>, j: nat)
    requires 1 <= j < |all| && Unfinished(compile(Joined(all, j)))
    ensures Extent(compile, all, j) == Extent(compile, all, j + 1)
    ensures Joined(all, j + 1) == Joined(all, j) + "\n" + Chomp(all[j..][0])
    ensures all[j..][1..] == all[j + 1..]
  {
  }

  /** Reads one chunk. Whatever the input and the compiler, exactly one value is left on the stack. */
  method LoadLine(L: Lua) returns (noInput: bool, status: Status)
    modifies L`stack, L`input
    ensures noInput <==> old(L.input) == []
    ensures |L.stack| == 1
    ensures noInput ==> L.input == [] && L.stack == [L.Global("_PROMPT")]
    ensures !noInput ==>
              var l := Chunk(L.compile, old(L.input));
              && L.input == old(L.input)[Lines(L.compile, old(L.input))..]
              && status == LoadStatus(l)
              && L.stack == [if Unfinished(l) then L.Global("_PROMPT2") else Pushed(l)]
  {
    L.stack := [];
    status := OK;
    var read := PushLine(L, true);
    if !read {
      return true, status;
    }
    noInput := false;
    status := AddReturn(L);
    if status != OK {
      status := Multiline(L, old(L.input), 1);
    }
    L.Remove(1);
  }

  // ---------------------------------------------------------------------------
  // Running

  /** What printing the results does: one call of the global `print`, without the message handler. */
  function Printed(oracle: Oracle, w: World, values: seq<Value>): World {
    if values == [] then w else
      var call := Call(GlobalOf(w, "print"), values, 0, Nil);
      match OutcomeOf(oracle, w, call)
      case Returned(_, _) => Called(oracle, w, call)
      case Raised(_, message, _) => Said(Called(oracle, w, call), PrintFailed(message))
  }

  function PrintFailed(message: Value): string {
    "error calling 'print' (" + Text(message) + ")"
  }

  /** Calls `print` on everything on the stack. If that fails, its message and the console's own stay there. */
  method PrintResults(L: Lua)
    modifies L`stack, L`world
    ensures L.world == Printed(L.oracle, old(L.world), old(L.stack))
    ensures old(L.stack) == [] ==> L.stack == []
    ensures old(L.stack) != [] ==>
              var o := OutcomeOf(L.oracle, old(L.world), Call(old(L.Global("print")), old(L.stack), 0, Nil));
              L.stack == if o.Raised? then [o.message, Str(PrintFailed(o.message))] else []
  {
    var n := |L.stack|;
    if n > 0 {
      ghost var s := L.stack;
      L.GetGlobal("print");
      ghost var printer := L.stack[n];
      L.Insert(1);
      assert L.stack == [printer] + s;
      var status := L.PCall(n, 0, 0);
      if status != OK {
        var message := PrintFailed(L.stack[|L.stack| - 1]);
        L.Push(Str(message));
        L.world := Said(L.world, message);
      }
    }
  }

  /** What one round of the loop does with the chunk it has read: run it and print exactly what it returned,
      or say why not. At the end of an unfinished input the prompt is what is said. */
  function Evaluated(oracle: Oracle, w: World, l: Loaded): World {
    match l
    case NotLoaded(_, message) => Said(w, if Unfinished(l) then Text(GlobalOf(w, "_PROMPT2")) else message)
    case Compiled(c) =>
      var call := Call(Function(c), [], MULTRET, MessageHandler);
      match OutcomeOf(oracle, w, call)
      case Raised(_, message, _) => Said(Called(oracle, w, call), Text(message))
      case Returned(values, _) => Printed(oracle, Called(oracle, w, call), values)
  }

  /** The input after its first chunk. */
  function Rest(compile: string -> Loaded, input: seq<string>): (rest: seq<string>)
    requires input != []
    ensures |rest| < |input|
  {
    input[Lines(compile, input)..]
  }

  /** What the loop does with a whole input. */
  function Session(compile: string -> Loaded, oracle: Oracle, w: World, input: seq<string>): World
    decreases |input|
  {
    if input == [] then w
    else Session(compile, oracle, Evaluated(oracle, w, Chunk(compile, input)), Rest(compile, input))
  }

  /** `LoadLine` has read chunk `l`. */
  ghost predicate Ready(L: Lua, l: Loaded, status: Status)
    reads L
  {
    && status == LoadStatus(l)
    && L.stack == [if Unfinished(l) then L.Global("_PROMPT2") else Pushed(l)]
  }

  /** One round of the loop after a chunk has been loaded. */
  method RunLoaded(L: Lua, loaded: Status, ghost l: Loaded)
    requires Ready(L, l, loaded)
    modifies L`stack, L`world
    ensures L.world == Evaluated(L.oracle, old(L.world), l)
    ensures l.NotLoaded? && !Unfinished(l) ==> L.world == old(L.world).(messages := old(L.world.messages) + [l.message])
    ensures Unfinished(l) ==> L.world == old(L.world).(messages := old(L.world.messages) + [Text(old(L.Global("_PROMPT2")))])
    ensures l.Compiled? ==>
              var o := L.oracle(|old(L.world.calls)|, Call(Function(l.chunk), [], -1, MessageHandler), old(L.world.globals));
              && (o.Raised? ==> L.world.messages == old(L.world.messages) + [Text(o.message)] && |L.world.calls| == |old(L.world.calls)| + 1)
              && (o.Returned? && o.values == [] ==> L.world.messages == old(L.world.messages) && |L.world.calls| == |old(L.world.calls)| + 1)
              && (ReturnsValues(o) ==> L.world.calls[|old(L.world.calls)| + 1..] == [PrintCall(o)])
  {
    var status := loaded;
    if status == OK {
      assert L.stack[1..] == [];
      status := DoCall(L, 0, MULTRET);
      assert L.stack == Left(OutcomeOf(L.oracle, old(L.world), Call(old(L.stack)[0], [], MULTRET, MessageHandler)), MULTRET);
    }
    if status == OK {
      PrintResults(L);
    } else {
      status := Report(L, status);
    }
  }

  /** The read-eval-print loop: for every input and every compiler it ends, with an empty stack and the
      input used up, and it has made exactly the calls of the session. */
  method DoREPL(L: Lua)
    modifies L`stack, L`world, L`input
    ensures L.stack == [] && L.input == []
    ensures L.world == Session(L.compile, L.oracle, old(L.world), old(L.input))
  {
    ghost var input := L.input;
    var noInput, status := LoadLine(L);
    while !noInput
      invariant noInput <==> input == []
      invariant noInput ==> L.input == []
      invariant !noInput ==> L.input == Rest(L.compile, input) && Ready(L, Chunk(L.compile, input), status)
      invariant Session(L.compile, L.oracle, L.world, input) == Session(L.compile, L.oracle, old(L.world), old(L.input))
      decreases |input|
    {
      RunLoaded(L, status, Chunk(L.compile, input));
      input := Rest(L.compile, input);
      noInput, status := LoadLine(L);
    }
    L.stack := [];
  }

  // ---------------------------------------------------------------------------
  // Every chunk runs once

  /** The functions that were called with the message handler in place, in order. */
  function Handled(calls: seq<Call>): seq<Value> {
    if calls == [] then [] else
      Handled(calls[..|calls| - 1]) +
      if calls[|calls| - 1].handler == MessageHandler then [calls[|calls| - 1].callee] else []
  }

  lemma HandledSnoc(calls: seq<Call>, c: Call)
    ensures Handled(calls + [c]) == Handled(calls) + if c.handler == MessageHandler then [c.callee] else []
  {
    assert (calls + [c])[..|calls|] == calls;
  }

  /** The function a chunk compiles to, if it compiles. */
  function Functions(l: Loaded): seq<Value> {
    if l.Compiled? then [Function(l.chunk)] else []
  }

  /** The chunks of an input that compile, in order. */
  function Program(compile: string -> Loaded, input: seq<string>): seq<Value>
    decreases |input|
  {
    if input == [] then [] else Functions(Chunk(compile, input)) + Program(compile, Rest(compile, input))
  }

  lemma PrintedHandles(oracle: Oracle, w: World, values: seq<Value>)
    ensures Handled(Printed(oracle, w, values).calls) == Handled(w.calls)
  {
    HandledSnoc(w.calls, Call(GlobalOf(w, "print"), values, 0, Nil));
  }

  lemma EvaluatedHandles(oracle: Oracle, w: World, l: Loaded)
    ensures Handled(Evaluated(oracle, w, l).calls) == Handled(w.calls) + Functions(l)
  {
    if l.Compiled? {
      var call := Call(Function(l.chunk), [], MULTRET, MessageHandler);
      HandledSnoc(w.calls, call);
      var o := OutcomeOf(oracle, w, call);
      if o.Returned? {
        PrintedHandles(oracle, Called(oracle, w, call), o.values);
      }
    }
  }

  lemma Associative(a: seq<Value>, b: seq<Value>, c: seq<Value>)
    ensures (a + b) + c == a + (b + c)
  {
  }

  /** Each chunk that compiles is called exactly once and in order, whatever the chunks do and however they
      end. */
  lemma {:induction false} SessionRunsProgram(compile: string -> Loaded, oracle: Oracle, w: World, input: seq<string>)
    ensures Handled(Session(compile, oracle, w, input).calls) == Handled(w.calls) + Program(compile, input)
    decreases |input|
  {
    if input != [] {
      var l := Chunk(compile, input);
      EvaluatedHandles(oracle, w, l);
      SessionRunsProgram(compile, oracle, Evaluated(oracle, w, l), Rest(compile, input));
      Associative(Handled(w.calls), Functions(l), Program(compile, Rest(compile, input)));
    }
  }

  // ---------------------------------------------------------------------------
  // Every result is printed

  /** The globals before call `j`, if before call `k` they were `g` and only calls change them. */
  function GlobalsAt(oracle: Oracle, calls: seq<Call>, k: nat, g: Globals, j: nat): Globals
    requires k <= j <= |calls|
  {
    if j == k then g else oracle(j - 1, calls[j - 1], GlobalsAt(oracle, calls, k, g, j - 1)).globals
  }

  function OutcomeAt(oracle: Oracle, calls: seq<Call>, k: nat, g: Globals, j: nat): Outcome
    requires k <= j < |calls|
  {
    oracle(j, calls[j], GlobalsAt(oracle, calls, k, g, j))
  }

  predicate ReturnsValues(o: Outcome) { o.Returned? && o.values != [] }

  /** The call that prints what a chunk returned, with the `print` the chunk left behind. */
  function PrintCall(o: Outcome): Call
    requires o.Returned?
  {
    Call(if "print" in o.globals then o.globals["print"] else Nil, o.values, 0, Nil)
  }

  predicate IsChunkCall(c: Call) {
    c.handler == MessageHandler && c.callee.Function? && c.args == [] && c.nresults == MULTRET
  }

  predicate EndsOrNextChunk(calls: seq<Call>, j: nat) {
    j == |calls| || (j < |calls| && IsChunkCall(calls[j]))
  }

  /** Call `j` of a session that began with call `k`: it calls a chunk, and the very next call prints what
      the chunk returned if it returned anything; or it is that next call. */
  ghost predicate InSession(oracle: Oracle, calls: seq<Call>, k: nat, g: Globals, j: nat)
    requires k <= j < |calls|
  {
    if IsChunkCall(calls[j]) then
      var o := OutcomeAt(oracle, calls, k, g, j);
      if ReturnsValues(o) then j + 1 < |calls| && calls[j + 1] == PrintCall(o) else EndsOrNextChunk(calls, j + 1)
    else
      && k < j && IsChunkCall(calls[j - 1])
      && ReturnsValues(OutcomeAt(oracle, calls, k, g, j - 1))
      && calls[j] == PrintCall(OutcomeAt(oracle, calls, k, g, j - 1))
      && EndsOrNextChunk(calls, j + 1)
  }

  ghost predicate IsSession(oracle: Oracle, calls: seq<Call>, k: nat, g: Globals) {
    forall j :: k <= j < |calls| ==> InSession(oracle, calls, k, g, j)
  }

  lemma {:induction false} GlobalsPrefix(oracle: Oracle, calls: seq<Call>, more: seq<Call>, k: nat, g: Globals, j: nat)
    requires k <= j <= |calls| && calls <= more
    ensures GlobalsAt(oracle, more, k, g, j) == GlobalsAt(oracle, calls, k, g, j)
  {
    if k < j {
      GlobalsPrefix(oracle, calls, more, k, g, j - 1);
      assert calls[j - 1] == more[j - 1];
    }
  }

  lemma {:induction false} GlobalsFrom(oracle: Oracle, calls: seq<Call>, k: nat, g: Globals, m: nat, j: nat)
    requires k <= m <= j <= |calls|
    ensures GlobalsAt(oracle, calls, k, g, j) == GlobalsAt(oracle, calls, m, GlobalsAt(oracle, calls, k, g, m), j)
  {
    if m < j {
      GlobalsFrom(oracle, calls, k, g, m, j - 1);
    }
  }

  /** The calls from `k` on and the globals after them are those of a session. */
  ghost predicate Leads(oracle: Oracle, w: World, after: World) {
    && w.calls <= after.calls
    && IsSession(oracle, after.calls, |w.calls|, w.globals)
    && after.globals == GlobalsAt(oracle, after.calls, |w.calls|, w.globals, |after.calls|)
  }

  lemma EarlierCall(oracle: Oracle, w: World, mid: World, after: World, j: nat)
    requires Leads(oracle, w, mid) && Leads(oracle, mid, after) && |w.calls| <= j < |mid.calls|
    ensures InSession(oracle, after.calls, |w.calls|, w.globals, j)
  {
    var k := |w.calls|;
    assert InSession(oracle, mid.calls, k, w.globals, j);
    assert mid.calls[j] == after.calls[j];
    GlobalsPrefix(oracle, mid.calls, after.calls, k, w.globals, j);
    if k < j {
      GlobalsPrefix(oracle, mid.calls, after.calls, k, w.globals, j - 1);
      assert mid.calls[j - 1] == after.calls[j - 1];
    }
    if j + 1 < |mid.calls| {
      assert mid.calls[j + 1] == after.calls[j + 1];
    } else if j + 1 < |after.calls| {
      assert InSession(oracle, after.calls, |mid.calls|, mid.globals, j + 1);
    }
  }

  lemma LaterCall(oracle: Oracle, w: World, mid: World, after: World, j: nat)
    requires Leads(oracle, w, mid) && Leads(oracle, mid, after) && |mid.calls| <= j < |after.calls|
    ensures InSession(oracle, after.calls, |w.calls|, w.globals, j)
  {
    var k, m := |w.calls|, |mid.calls|;
    assert InSession(oracle, after.calls, m, mid.globals, j);
    GlobalsPrefix(oracle, mid.calls, after.calls, k, w.globals, m);
    GlobalsFrom(oracle, after.calls, k, w.globals, m, j);
    if m < j {
      GlobalsFrom(oracle, after.calls, k, w.globals, m, j - 1);
    }
  }

  lemma LeadsOn(oracle: Oracle, w: World, mid: World, after: World)
    requires Leads(oracle, w, mid) && Leads(oracle, mid, after)
    ensures Leads(oracle, w, after)
  {
    forall j | |w.calls| <= j < |after.calls|
      ensures InSession(oracle, after.calls, |w.calls|, w.globals, j)
    {
      if j < |mid.calls| {
        EarlierCall(oracle, w, mid, after, j);
      } else {
        LaterCall(oracle, w, mid, after, j);
      }
    }
    GlobalsPrefix(oracle, mid.calls, after.calls, |w.calls|, w.globals, |mid.calls|);
    GlobalsFrom(oracle, after.calls, |w.calls|, w.globals, |mid.calls|, |after.calls|);
  }

  lemma NoCallLeads(oracle: Oracle, w: World, after: World)
    requires after.calls == w.calls && after.globals == w.globals
    ensures Leads(oracle, w, after)
  {
  }

  lemma OneCallLeads(oracle: Oracle, w: World, call: Call, after: World)
    requires IsChunkCall(call) && !ReturnsValues(OutcomeOf(oracle, w, call))
    requires after.calls == w.calls + [call] && after.globals == OutcomeOf(oracle, w, call).globals
    ensures Leads(oracle, w, after)
  {
    var k := |w.calls|;
    assert GlobalsAt(oracle, after.calls, k, w.globals, k) == w.globals;
    assert after.calls[k] == call;
    assert GlobalsAt(oracle, after.calls, k, w.globals, k + 1) == after.globals;
  }

  lemma TwoCallsLead(oracle: Oracle, w: World, call: Call, after: World)
    requires IsChunkCall(call) && ReturnsValues(OutcomeOf(oracle, w, call))
    requires var o := OutcomeOf(oracle, w, call);
             && after.calls == w.calls + [call] + [PrintCall(o)]
             && after.globals == oracle(|w.calls| + 1, PrintCall(o), o.globals).globals
    ensures Leads(oracle, w, after)
  {
    var k := |w.calls|;
    var o := OutcomeOf(oracle, w, call);
    assert after.calls[k] == call && after.calls[k + 1] == PrintCall(o) && !IsChunkCall(PrintCall(o));
    assert GlobalsAt(oracle, after.calls, k, w.globals, k) == w.globals;
    assert GlobalsAt(oracle, after.calls, k, w.globals, k + 1) == o.globals;
    assert GlobalsAt(oracle, after.calls, k, w.globals, k + 2) == after.globals;
    assert InSession(oracle, after.calls, k, w.globals, k);
    assert InSession(oracle, after.calls, k, w.globals, k + 1);
  }

  lemma EvaluatedLeads(oracle: Oracle, w: World, l: Loaded)
    ensures Leads(oracle, w, Evaluated(oracle, w, l))
  {
    var after := Evaluated(oracle, w, l);
    match l
    case NotLoaded(_, _) => NoCallLeads(oracle, w, after);
    case Compiled(c) =>
      var call := Call(Function(c), [], MULTRET, MessageHandler);
      if ReturnsValues(OutcomeOf(oracle, w, call)) {
        TwoCallsLead(oracle, w, call, after);
      } else {
        OneCallLeads(oracle, w, call, after);
      }
  }

  /** The calls of a session, from the call list alone: chunks are called without arguments, each one that
      returns values is followed at once by `print` on exactly those values, and there are no other calls. */
  lemma {:induction false} SessionPrints(compile: string -> Loaded, oracle: Oracle, w: World, input: seq<string>)
    ensures Leads(oracle, w, Session(compile, oracle, w, input))
    decreases |input|
  {
    if input == [] {
      NoCallLeads(oracle, w, w);
    } else {
      var mid := Evaluated(oracle, w, Chunk(compile, input));
      EvaluatedLeads(oracle, w, Chunk(compile, input));
      SessionPrints(compile, oracle, mid, Rest(compile, input));
      LeadsOn(oracle, w, mid, Session(compile, oracle, w, input));
    }
  }

  // ---------------------------------------------------------------------------
  // Lines at the prompt

  function Concat(buffers: seq<string>): string {
    if buffers == [] then [] else Concat(buffers[..|buffers| - 1]) + buffers[|buffers| - 1]
  }

  /** If every buffer is a line with its newline, the joined text is what was typed, without the last one. */
  lemma {:induction false} JoinedIsTyped(input: seq<string>, k: nat)
    requires 1 <= k <= |input| && (forall i :: 0 <= i < |input| ==> EndsWith(input[i], "\n")) && !("=" <= input[0])
    ensures Joined(input, k) + "\n" == Concat(input[..k])
  {
    var b := input[k - 1];
    assert b == Chomp(b) + "\n";
    assert input[..k][..k - 1] == input[..k - 1];
    if k == 1 {
      assert Concat(input[..0]) == [];
      assert Concat(input[..1]) == [] + b;
    } else {
      JoinedIsTyped(input, k - 1);
      assert Joined(input, k - 1) + "\n" + Chomp(b) + "\n" == Joined(input, k - 1) + "\n" + b;
    }
  }

  /** A line that starts with '=' is a line that starts with `return`. */
  lemma EqualsMeansReturn(x: string, rest: seq<string>)
    ensures Joined(["=" + x + "\n"] + rest, 1) == "return " + x
  {
    var b := "=" + x + "\n";
    assert ([b] + rest)[0] == b;
    assert Chomp(b) == "=" + x;
    assert ("=" + x)[1..] == x;
  }

  /** One expression at the prompt: it is called, and what it returns is printed. */
  lemma ExpressionAtPrompt(compile: string -> Loaded, oracle: Oracle, w: World, x: string)
    requires x != [] && x[0] != '=' && compile("return " + x + ";").Compiled?
    ensures var call := Call(Function(compile("return " + x + ";").chunk), [], MULTRET, MessageHandler);
            var o := oracle(|w.calls|, call, w.globals);
            Session(compile, oracle, w, [x + "\n"]).calls ==
              w.calls + [call] + if ReturnsValues(o) then [PrintCall(o)] else []
  {
    var input := [x + "\n"];
    assert FirstLine(input[0]) == x by {
      assert (x + "\n")[..|x|] == x;
    }
    assert Rest(compile, input) == [];
    var call := Call(Function(compile("return " + x + ";").chunk), [], MULTRET, MessageHandler);
    assert Chunk(compile, input) == compile("return " + x + ";");
    assert OutcomeOf(oracle, w, call) == oracle(|w.calls|, call, w.globals);
    assert w.calls + [call] + [] == w.calls + [call];
  }
}
