/** The part of the Lua C API the console uses, after sections 4.1, 4.3 and 4.8 of the Lua 5.3
    Reference Manual: a stack of values with 1-based and relative indices, global variables,
    compilation, and protected calls. What a chunk compiles to and what a call does are given by
    oracles. */
module LuaStack {
  datatype Value =
    | Nil
    | Str(text: string)
    | Function(chunk: int)
    | MessageHandler
    | Table(fields: map<int, Value>)
    | Opaque(tag: int)

  datatype Error = ERRRUN | ERRSYNTAX | ERRMEM | ERRERR | ERRFILE

  datatype Status = OK | Err(error: Error)

  /** What loading a chunk yields: a function, or an error and its message. */
  datatype Loaded = Compiled(chunk: int) | NotLoaded(error: Error, message: string)

  /** A protected call: what is called with what, how many results are wanted (-1 for all), and the
      value at the index given for the message handler. */
  datatype Call = Call(callee: Value, args: seq<Value>, nresults: int, handler: Value)

  type Globals = map<string, Value>

  /** How a call ends. It may change any global variable. */
  datatype Outcome =
    | Returned(values: seq<Value>, globals: Globals)
    | Raised(error: Error, message: Value, globals: Globals)

  const MULTRET := -1

  /** Results adjusted to the number wanted. */
  function Adjust(values: seq<Value>, n: int): (r: seq<Value>)
    ensures n >= 0 ==> |r| == n
  {
    if n < 0 then values
    else if n <= |values| then values[..n]
    else values + seq(n - |values|, i => Nil)
  }

  function StatusOf(o: Outcome): Status {
    match o
    case Returned(_, _) => OK
    case Raised(e, _, _) => Err(e)
  }

  /** What a call leaves in place of the function and its arguments. */
  function Left(o: Outcome, nresults: int): seq<Value> {
    match o
    case Returned(values, _) => Adjust(values, nresults)
    case Raised(_, message, _) => [message]
  }

  function Field(t: Value, key: int): Value {
    if t.Table? && key in t.fields then t.fields[key] else Nil
  }

  /** A border of a table, in the sense of section 3.4.7. */
  predicate IsBorder(t: Value, n: nat) {
    (n == 0 || Field(t, n) != Nil) && Field(t, n + 1) == Nil
  }

  /** `call` number `n` with the given globals. */
  type Oracle = (nat, Call, Globals) -> Outcome

  /** What remains of the calls made so far: the calls themselves, the global variables, and the messages
      printed to standard error. */
  datatype World = World(calls: seq<Call>, globals: Globals, messages: seq<string>)

  function GlobalOf(w: World, name: string): Value {
    if name in w.globals then w.globals[name] else Nil
  }

  function OutcomeOf(oracle: Oracle, w: World, call: Call): Outcome {
    oracle(|w.calls|, call, w.globals)
  }

  function Called(oracle: Oracle, w: World, call: Call): World {
    w.(calls := w.calls + [call], globals := OutcomeOf(oracle, w, call).globals)
  }

  function Said(w: World, message: string): World {
    w.(messages := w.messages + [message])
  }

  /** `lua_tostring` as it is printed; values that are not strings have no text. */
  function Text(v: Value): string {
    if v.Str? then v.text else "(null)"
  }

  class Lua {
    var stack: seq<Value>
    var world: World
    var input: seq<string>               // what is left of standard input, one buffer per read
    const compile: string -> Loaded
    const loadFile: string -> Loaded     // "" stands for standard input
    const oracle: Oracle

    constructor (input: seq<string>, compile: string -> Loaded, loadFile: string -> Loaded, oracle: Oracle)
      ensures stack == [] && world == World([], map[], []) && this.input == input
      ensures this.compile == compile && this.loadFile == loadFile && this.oracle == oracle
    {
      stack, world, this.input := [], World([], map[], []), input;
      this.compile, this.loadFile, this.oracle := compile, loadFile, oracle;
    }

    predicate ValidIndex(i: int)
      reads this
    {
      1 <= i <= |stack| || -|stack| <= i <= -1
    }

    /** The 0-based position an index stands for. */
    function Slot(i: int): (p: nat)
      requires ValidIndex(i)
      reads this
      ensures p < |stack|
    {
      if i > 0 then i - 1 else |stack| + i
    }

    function Global(name: string): Value
      reads this
    {
      GlobalOf(world, name)
    }

    method Push(v: Value)
      modifies this`stack
      ensures stack == old(stack) + [v]
    {
      stack := stack + [v];
    }

    method Pop(n: nat)
      requires n <= |stack|
      modifies this`stack
      ensures stack == old(stack)[..|old(stack)| - n]
    {
      stack := stack[..|stack| - n];
    }

    /** `lua_insert`: moves the top element to index `i`, shifting up the elements above it. */
    method Insert(i: int)
      requires ValidIndex(i)
      modifies this`stack
      ensures |stack| == |old(stack)|
      ensures stack == old(stack[..Slot(i)]) + [old(stack)[|old(stack)| - 1]] + old(stack)[old(Slot(i))..|old(stack)| - 1]
    {
      var p := Slot(i);
      stack := stack[..p] + [stack[|stack| - 1]] + stack[p..|stack| - 1];
    }

    /** `lua_remove`: removes the element at index `i`, shifting down the elements above it. */
    method Remove(i: int)
      requires ValidIndex(i)
      modifies this`stack
      ensures stack == old(stack[..Slot(i)]) + old(stack)[old(Slot(i)) + 1..]
    {
      var p := Slot(i);
      stack := stack[..p] + stack[p + 1..];
    }

    method GetGlobal(name: string)
      modifies this`stack
      ensures stack == old(stack) + [Global(name)]
    {
      stack := stack + [Global(name)];
    }

    method SetGlobal(name: string)
      requires |stack| >= 1
      modifies this`stack, this`world
      ensures stack == old(stack)[..|old(stack)| - 1]
      ensures world == old(world).(globals := old(world.globals)[name := old(stack)[|old(stack)| - 1]])
    {
      world := world.(globals := world.globals[name := stack[|stack| - 1]]);
      stack := stack[..|stack| - 1];
    }

    /** `lua_rawgeti`: pushes field `key` of the table at index `i`. */
    method RawGetI(i: int, key: int)
      requires ValidIndex(i) && stack[Slot(i)].Table?
      modifies this`stack
      ensures stack == old(stack) + [Field(old(stack[Slot(i)]), key)]
    {
      stack := stack + [Field(stack[Slot(i)], key)];
    }

    /** `lua_rawseti`: pops a value and stores it as field `key` of the table at index `i`. */
    method RawSetI(i: int, key: int)
      requires ValidIndex(i) && stack[Slot(i)].Table? && Slot(i) < |stack| - 1
      modifies this`stack
      ensures |stack| == |old(stack)| - 1
      ensures stack == old(stack)[..|old(stack)| - 1][old(Slot(i)) :=
                         Table(old(stack[Slot(i)]).fields[key := old(stack)[|old(stack)| - 1]])]
    {
      var p := Slot(i);
      var v := stack[|stack| - 1];
      stack := stack[..|stack| - 1][p := Table(stack[p].fields[key := v])];
    }

    /** `luaL_len` without metamethods: some border of the table. */
    method Len(i: int) returns (n: nat)
      requires ValidIndex(i) && stack[Slot(i)].Table?
      ensures IsBorder(stack[Slot(i)], n)
    {
      var t := stack[Slot(i)];
      n := 0;
      ghost var seen: set<int> := {};
      while Field(t, n + 1) != Nil
        invariant n == 0 || Field(t, n) != Nil
        invariant seen <= t.fields.Keys && forall k :: k in seen ==> k <= n
        decreases t.fields.Keys - seen
      {
        n := n + 1;
        seen := seen + {n};
      }
    }

    /** Pushes the compiled chunk or the message. */
    method Load(l: Loaded) returns (status: Status)
      modifies this`stack
      ensures stack == old(stack) + [if l.Compiled? then Function(l.chunk) else Str(l.message)]
      ensures status == if l.Compiled? then OK else Err(l.error)
    {
      match l
      case Compiled(chunk) => stack, status := stack + [Function(chunk)], OK;
      case NotLoaded(error, message) => stack, status := stack + [Str(message)], Err(error);
    }

    /** `lua_pcall`: calls the function below the top `narg` values. `msgh` is the index of the message
        handler, 0 for none. */
    method PCall(narg: nat, nresults: int, msgh: nat) returns (status: Status)
      requires |stack| >= narg + 1 && msgh <= |stack|
      modifies this`stack, this`world
      ensures var b := |old(stack)| - narg - 1;
              var call := Call(old(stack)[b], old(stack)[b + 1..], nresults,
                               if msgh == 0 then Nil else old(stack)[msgh - 1]);
              var o := OutcomeOf(oracle, old(world), call);
              && world == Called(oracle, old(world), call)
              && status == StatusOf(o)
              && stack == old(stack)[..b] + Left(o, nresults)
    {
      var b := |stack| - narg - 1;
      var call := Call(stack[b], stack[b + 1..], nresults, if msgh == 0 then Nil else stack[msgh - 1]);
      var o := OutcomeOf(oracle, world, call);
      world := Called(oracle, world, call);
      stack := stack[..b] + Left(o, nresults);
      status := StatusOf(o);
    }

    /** `lua_concat` of strings. */
    method Concat3()
      requires |stack| >= 3 && forall i :: |stack| - 3 <= i < |stack| ==> stack[i].Str?
      modifies this`stack
      ensures var n := |old(stack)| - 3;
              stack == old(stack)[..n] +
                [Str(old(stack)[n].text + old(stack)[n + 1].text + old(stack)[n + 2].text)]
    {
      var n := |stack| - 3;
      stack := stack[..n] + [Str(stack[n].text + stack[n + 1].text + stack[n + 2].text)];
    }
  }
}
