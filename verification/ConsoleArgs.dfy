/** The console's command line. `collectargs` walks `argv` once to find out what was asked for and
    where the script is; `runargs` walks it again to execute `-e` and `-l`; `handle_script` and
    `print_usage` look at single words later. This module gives the command line a grammar and shows
    that all four agree with it. */
module ConsoleArgs {
  const HAS_ERROR: bv8 := 1
  const HAS_I: bv8 := 2
  const HAS_V: bv8 := 4
  const HAS_E_LOWER: bv8 := 8
  const HAS_E_UPPER: bv8 := 16

  /** Character `k` of a C string; the terminator when `k` is its length. */
  function At(s: string, k: nat): char {
    if k < |s| then s[k] else '\0'
  }

  /** C strings hold no NUL. */
  predicate CStrings(argv: seq<string>) {
    forall i :: 0 <= i < |argv| ==> '\0' !in argv[i]
  }

  // ---------------------------------------------------------------------------
  // The grammar

  /** An option as the user may write it: `-v`, `-eX`, or `-e` and `X` as two words. */
  datatype Token =
    | Flag(option: char)
    | Attached(option: char, arg: string)
    | Separate(option: char, arg: string)

  datatype Stop = AtEnd | AtScript | AtDash | AfterDashes

  datatype Reason = BadOption | MissingArgument

  datatype Parse =
    | Accepted(tokens: seq<Token>, stop: Stop)
    | Rejected(tokens: seq<Token>, reason: Reason)

  predicate IsFlag(c: char) { c == 'E' || c == 'i' || c == 'v' }

  predicate TakesArgument(c: char) { c == 'e' || c == 'l' }

  predicate WellFormed(t: Token) {
    match t
    case Flag(c) => IsFlag(c)
    case Attached(c, arg) => TakesArgument(c) && arg != ""
    case Separate(c, arg) => TakesArgument(c) && At(arg, 0) != '-'
  }

  /** Number of words. */
  function Width(t: Token): nat { if t.Separate? then 2 else 1 }

  /** The token's words stand in `argv` from position `n` on. */
  predicate Stands(argv: seq<string>, n: nat, t: Token) {
    && n + Width(t) <= |argv|
    && match t
       case Flag(c) => argv[n] == ['-', c]
       case Attached(c, arg) => argv[n] == ['-', c] + arg
       case Separate(c, arg) => argv[n] == ['-', c] && argv[n + 1] == arg
  }

  /** Position of token `k`; the tokens follow one another after the program name. */
  function Position(ts: seq<Token>, k: nat): nat
    requires k <= |ts|
  {
    if k == 0 then 1 else Position(ts, k - 1) + Width(ts[k - 1])
  }

  predicate InPlace(argv: seq<string>, ts: seq<Token>, k: nat)
    requires k < |ts|
  {
    WellFormed(ts[k]) && Stands(argv, Position(ts, k), ts[k])
  }

  predicate Options(argv: seq<string>, ts: seq<Token>) {
    forall k :: 0 <= k < |ts| ==> InPlace(argv, ts, k)
  }

  /** A word that starts like an option and is none. */
  predicate Bad(w: string) {
    && At(w, 0) == '-'
    && At(w, 1) != '\0'
    && if At(w, 1) == '-' || IsFlag(At(w, 1)) then |w| > 2 else !TakesArgument(At(w, 1))
  }

  /** What stands at `n`, right after the options. */
  predicate Ends(argv: seq<string>, n: nat, p: Parse) {
    && n <= |argv|
    && match p
       case Accepted(_, AtEnd) => n == |argv|
       case Accepted(_, AtScript) => n < |argv| && At(argv[n], 0) != '-'
       case Accepted(_, AtDash) => n < |argv| && argv[n] == "-"
       case Accepted(_, AfterDashes) => n < |argv| && argv[n] == "--"
       case Rejected(_, BadOption) => n < |argv| && Bad(argv[n])
       case Rejected(_, MissingArgument) =>
         && n < |argv|
         && |argv[n]| == 2 && argv[n][0] == '-' && TakesArgument(argv[n][1])
         && (n + 1 == |argv| || At(argv[n + 1], 0) == '-')
  }

  /** `p` describes the words after the program name. */
  predicate IsParse(argv: seq<string>, p: Parse) {
    Options(argv, p.tokens) && Ends(argv, Position(p.tokens, |p.tokens|), p)
  }

  /** The index `collectargs` stores in `*first`. */
  function First(p: Parse): nat {
    Position(p.tokens, |p.tokens|) + if p.Accepted? && p.stop.AfterDashes? then 1 else 0
  }

  function Bits(t: Token): bv8 {
    match t.option
    case 'E' => HAS_E_UPPER
    case 'i' => HAS_I | HAS_V
    case 'v' => HAS_V
    case 'e' => HAS_E_LOWER
    case _ => 0
  }

  function Mask(ts: seq<Token>): bv8 {
    if ts == [] then 0 else Mask(ts[..|ts| - 1]) | Bits(ts[|ts| - 1])
  }

  datatype Action = DoString(chunk: string) | DoLibrary(name: string)

  function ActionOf(t: Token): seq<Action> {
    if t.Flag? then [] else [if t.option == 'e' then DoString(t.arg) else DoLibrary(t.arg)]
  }

  /** The `-e` and `-l` options among the first `k` tokens, in order, with their arguments. */
  function Actions(ts: seq<Token>, k: nat): seq<Action>
    requires k <= |ts|
  {
    if k == 0 then [] else Actions(ts, k - 1) + ActionOf(ts[k - 1])
  }

  /** The positions of the first `k` option words. */
  function Positions(ts: seq<Token>, k: nat): seq<nat>
    requires k <= |ts|
  {
    if k == 0 then [] else Positions(ts, k - 1) + [Position(ts, k - 1)]
  }

  // ---------------------------------------------------------------------------
  // The grammar is unambiguous

  lemma TokenDetermined(argv: seq<string>, n: nat, t: Token, u: Token)
    requires WellFormed(t) && WellFormed(u) && Stands(argv, n, t) && Stands(argv, n, u)
    ensures t == u
  {
    var w := argv[n];
    assert w[1] == t.option == u.option;
    if t.Attached? {
      assert w[2..] == t.arg;
    }
    if u.Attached? {
      assert w[2..] == u.arg;
    }
  }

  /** Where an option stands nothing ends. */
  lemma TokenDoesNotEnd(argv: seq<string>, n: nat, t: Token, p: Parse)
    requires WellFormed(t) && Stands(argv, n, t)
    ensures !Ends(argv, n, p)
  {
    assert argv[n][0] == '-' && argv[n][1] == t.option;
  }

  lemma {:induction false} TokensAgree(argv: seq<string>, ts: seq<Token>, us: seq<Token>, k: nat)
    requires Options(argv, ts) && Options(argv, us) && k <= |ts| && k <= |us|
    ensures Position(ts, k) == Position(us, k)
    ensures forall j :: 0 <= j < k ==> ts[j] == us[j]
  {
    if k > 0 {
      TokensAgree(argv, ts, us, k - 1);
      assert InPlace(argv, ts, k - 1) && InPlace(argv, us, k - 1);
      TokenDetermined(argv, Position(ts, k - 1), ts[k - 1], us[k - 1]);
    }
  }

  lemma NotLonger(argv: seq<string>, p: Parse, us: seq<Token>)
    requires IsParse(argv, p) && Options(argv, us)
    ensures |us| <= |p.tokens|
  {
    var k := |p.tokens|;
    if k < |us| {
      TokensAgree(argv, p.tokens, us, k);
      assert InPlace(argv, us, k);
      TokenDoesNotEnd(argv, Position(us, k), us[k], p);
    }
  }

  lemma StopDetermined(argv: seq<string>, n: nat, p: Parse, q: Parse)
    requires Ends(argv, n, p) && Ends(argv, n, q) && p.tokens == q.tokens
    ensures p == q
  {
  }

  /** A command line has at most one parse, accepting or rejecting. */
  lemma ParseUnique(argv: seq<string>, p: Parse, q: Parse)
    requires IsParse(argv, p) && IsParse(argv, q)
    ensures p == q
  {
    NotLonger(argv, p, q.tokens);
    NotLonger(argv, q, p.tokens);
    TokensAgree(argv, p.tokens, q.tokens, |p.tokens|);
    StopDetermined(argv, Position(p.tokens, |p.tokens|), p, q);
  }

  // ---------------------------------------------------------------------------
  // The first walk

  lemma {:induction false} PositionStable(ts: seq<Token>, t: Token, k: nat)
    requires k <= |ts|
    ensures Position(ts + [t], k) == Position(ts, k)
    ensures Positions(ts + [t], k) == Positions(ts, k)
  {
    if k > 0 {
      PositionStable(ts, t, k - 1);
    }
  }

  /** The words before `i` are exactly the well-formed options `ts`. */
  ghost predicate Scanned(argv: seq<string>, ts: seq<Token>, i: nat, args: bv8, visited: seq<nat>) {
    && Options(argv, ts)
    && i == Position(ts, |ts|) <= |argv|
    && args == Mask(ts)
    && visited == Positions(ts, |ts|)
  }

  lemma Advance(argv: seq<string>, ts: seq<Token>, i: nat, args: bv8, visited: seq<nat>, t: Token)
    requires Scanned(argv, ts, i, args, visited) && WellFormed(t) && Stands(argv, i, t)
    ensures Scanned(argv, ts + [t], i + Width(t), args | Bits(t), visited + [i])
  {
    var us := ts + [t];
    assert us[..|us| - 1] == ts;
    forall k | 0 <= k < |us|
      ensures InPlace(argv, us, k)
    {
      PositionStable(ts, t, k);
      assert k < |ts| ==> InPlace(argv, ts, k);
    }
    PositionStable(ts, t, |ts|);
  }

  lemma CollectedBits(args: bv8)
    ensures (args | HAS_I) | HAS_V == args | (HAS_I | HAS_V)
    ensures args | 0 == args
  {
  }

  /** What one word of `argv` means to `collectargs`. */
  datatype Scan = Stopped(stop: Stop) | Failed(reason: Reason) | Consumed(last: nat)

  /** One round of the loop: the `switch` over the option letter. */
  method ScanWord(argv: seq<string>, i: nat, mask: bv8) returns (scan: Scan, args: bv8, ghost t: Token)
    requires i < |argv| && CStrings(argv)
    ensures scan.Stopped? ==> scan.stop != AtEnd && Ends(argv, i, Accepted([], scan.stop)) && args == mask
    ensures scan.Failed? ==> Ends(argv, i, Rejected([], scan.reason))
    ensures scan.Consumed? ==>
              WellFormed(t) && Stands(argv, i, t) && scan.last == i + Width(t) - 1 && args == mask | Bits(t)
  {
    args := mask;
    t := Flag('v');
    CollectedBits(mask);
    if At(argv[i], 0) != '-' {
      return Stopped(AtScript), args, t;
    }
    var c := At(argv[i], 1);
    match c {
      case '-' =>
        if At(argv[i], 2) != '\0' {
          return Failed(BadOption), args, t;
        }
        assert argv[i] == "--";
        return Stopped(AfterDashes), args, t;
      case '\0' =>
        assert argv[i] == "-";
        return Stopped(AtDash), args, t;
      case 'E' =>
        if At(argv[i], 2) != '\0' {
          return Failed(BadOption), args, t;
        }
        assert argv[i] == ['-', c];
        return Consumed(i), args | HAS_E_UPPER, Flag(c);
      case 'i' =>
        args := args | HAS_I;
        if At(argv[i], 2) != '\0' {
          return Failed(BadOption), args, t;
        }
        assert argv[i] == ['-', c];
        return Consumed(i), args | HAS_V, Flag(c);
      case 'v' =>
        if At(argv[i], 2) != '\0' {
          return Failed(BadOption), args, t;
        }
        assert argv[i] == ['-', c];
        return Consumed(i), args | HAS_V, Flag(c);
      case 'e' =>
        scan, t := ScanArgument(argv, i);
        args := args | HAS_E_LOWER;
      case 'l' =>
        scan, t := ScanArgument(argv, i);
      case _ =>
        return Failed(BadOption), args, t;
    }
  }

  /** The part `-e` and `-l` share: the argument is the rest of the word or else the next word. */
  method ScanArgument(argv: seq<string>, i: nat) returns (scan: Scan, ghost t: Token)
    requires i < |argv| && CStrings(argv) && At(argv[i], 0) == '-' && TakesArgument(At(argv[i], 1))
    ensures !scan.Stopped?
    ensures scan.Failed? ==> Ends(argv, i, Rejected([], scan.reason))
    ensures scan.Consumed? ==>
              && WellFormed(t) && Stands(argv, i, t) && scan.last == i + Width(t) - 1
              && t.option == At(argv[i], 1)
  {
    var c := At(argv[i], 1);
    if At(argv[i], 2) == '\0' {
      assert argv[i] == ['-', c];
      if i + 1 == |argv| || At(argv[i + 1], 0) == '-' {
        return Failed(MissingArgument), Flag(c);
      }
      return Consumed(i + 1), Separate(c, argv[i + 1]);
    }
    assert argv[i] == ['-', c] + argv[i][2..];
    return Consumed(i), Attached(c, argv[i][2..]);
  }

  /** What `collectargs` is to say of a command line with parse `p`. */
  predicate Summary(p: Parse, mask: bv8, first: nat) {
    && first == First(p)
    && mask == (if p.Accepted? then Mask(p.tokens) else HAS_ERROR)
    && (mask == HAS_ERROR <==> p.Rejected?)
  }

  lemma OnlyParse(argv: seq<string>, p: Parse)
    requires IsParse(argv, p)
    ensures forall q :: IsParse(argv, q) ==> q == p
    ensures Mask(p.tokens) != HAS_ERROR
  {
    MaskIsEven(p.tokens);
    forall q | IsParse(argv, q)
      ensures q == p
    {
      ParseUnique(argv, p, q);
    }
  }

  /** `collectargs`: the mask and the index of the first word it did not handle. */
  method CollectArgs(argv: seq<string>) returns (mask: bv8, first: nat, ghost p: Parse, ghost visited: seq<nat>)
    requires |argv| >= 1 && CStrings(argv)
    ensures IsParse(argv, p)
    ensures forall q :: IsParse(argv, q) ==> Summary(q, mask, first)
    ensures visited == Positions(p.tokens, |p.tokens|)
  {
    mask := 0;
    var i := 1;
    ghost var ts: seq<Token> := [];
    visited := [];
    while i < |argv|
      invariant Scanned(argv, ts, i, mask, visited)
      decreases |argv| - i
    {
      first := i;
      ghost var before := mask;
      var scan;
      ghost var t;
      scan, mask, t := ScanWord(argv, i, mask);
      match scan {
        case Stopped(stop) =>
          p := Accepted(ts, stop);
          if stop.AfterDashes? {
            first := i + 1;
          }
          OnlyParse(argv, p);
          return;
        case Failed(reason) =>
          p := Rejected(ts, reason);
          mask := HAS_ERROR;
          OnlyParse(argv, p);
          return;
        case Consumed(last) =>
          Advance(argv, ts, i, before, visited, t);
          ts := ts + [t];
          visited := visited + [first];
          i := last + 1;
      }
    }
    first := i;
    p := Accepted(ts, AtEnd);
    OnlyParse(argv, p);
  }

  /** The mask tells acceptance from rejection, and `-i` implies `-v`. */
  lemma {:induction false} MaskIsEven(ts: seq<Token>)
    ensures Mask(ts) & HAS_ERROR == 0 && Mask(ts) != HAS_ERROR
    ensures Mask(ts) & HAS_I != 0 ==> Mask(ts) & HAS_V != 0
  {
    if ts != [] {
      MaskIsEven(ts[..|ts| - 1]);
    }
  }

  // ---------------------------------------------------------------------------
  // The second walk

  lemma {:induction false} PositionsGrow(ts: seq<Token>, k: nat, m: nat)
    requires k <= m <= |ts|
    ensures Position(ts, k) <= Position(ts, m) && (k < m ==> Position(ts, k) < Position(ts, m))
    ensures Actions(ts, k) <= Actions(ts, m)
    decreases m - k
  {
    if k < m {
      PositionsGrow(ts, k, m - 1);
    }
  }

  /** How far `runargs` has come: `k` tokens done, and perhaps the `--` after them. */
  ghost predicate Walked(p: Parse, k: nat, i: nat, executed: seq<Action>, visited: seq<nat>) {
    && p.Accepted?
    && k <= |p.tokens|
    && executed == Actions(p.tokens, k)
    && ( || (i == Position(p.tokens, k) && visited == Positions(p.tokens, k))
         || (k == |p.tokens| && p.stop.AfterDashes? && i == First(p) && visited == Positions(p.tokens, k) + [i - 1]))
  }

  /** Before the end `runargs` stands at the next token, or at the `--` that ended the options. */
  lemma Here(p: Parse, k: nat, i: nat, executed: seq<Action>, visited: seq<nat>)
    requires Walked(p, k, i, executed, visited) && i < First(p)
    ensures i == Position(p.tokens, k) && visited == Positions(p.tokens, k)
    ensures k == |p.tokens| ==> p.stop.AfterDashes? && i + 1 == First(p)
  {
  }

  lemma VisitToken(argv: seq<string>, p: Parse, k: nat, i: nat, executed: seq<Action>, visited: seq<nat>)
    requires IsParse(argv, p) && Walked(p, k, i, executed, visited) && i < First(p) && k < |p.tokens|
    ensures WellFormed(p.tokens[k]) && Stands(argv, i, p.tokens[k])
    ensures Walked(p, k + 1, i + Width(p.tokens[k]), executed + ActionOf(p.tokens[k]), visited + [i])
    ensures executed + ActionOf(p.tokens[k]) <= Actions(p.tokens, |p.tokens|)
    ensures i + Width(p.tokens[k]) <= First(p)
  {
    Here(p, k, i, executed, visited);
    assert InPlace(argv, p.tokens, k);
    PositionsGrow(p.tokens, k + 1, |p.tokens|);
    assert Actions(p.tokens, k + 1) == executed + ActionOf(p.tokens[k]);
    assert Positions(p.tokens, k + 1) == visited + [i];
  }

  lemma VisitDashes(argv: seq<string>, p: Parse, i: nat, executed: seq<Action>, visited: seq<nat>)
    requires IsParse(argv, p) && Walked(p, |p.tokens|, i, executed, visited) && i < First(p)
    ensures i < |argv| && argv[i] == "--" && i + 1 == First(p)
    ensures Walked(p, |p.tokens|, i + 1, executed, visited + [i])
  {
    Here(p, |p.tokens|, i, executed, visited);
  }

  /** The token a word starts; none for the `--` that ended the options. */
  function TokenAt(ts: seq<Token>, k: nat): seq<Token> { if k < |ts| then [ts[k]] else [] }

  function ActionsOf(t: seq<Token>): seq<Action> { if t == [] then [] else ActionOf(t[0]) }

  function WidthOf(t: seq<Token>): nat { if t == [] then 1 else Width(t[0]) }

  predicate WordOf(argv: seq<string>, i: nat, t: seq<Token>) {
    && |t| <= 1 && i < |argv|
    && if t == [] then argv[i] == "--" else WellFormed(t[0]) && Stands(argv, i, t[0])
  }

  /** What stands at `i` when `k` tokens are done: token `k`, or the `--` after the last one. */
  lemma Visit(argv: seq<string>, p: Parse, k: nat, i: nat, executed: seq<Action>, visited: seq<nat>)
    requires IsParse(argv, p) && Walked(p, k, i, executed, visited) && i < First(p)
    ensures WordOf(argv, i, TokenAt(p.tokens, k))
    ensures var t := TokenAt(p.tokens, k);
            && Walked(p, k + |t|, i + WidthOf(t), executed + ActionsOf(t), visited + [i])
            && executed + ActionsOf(t) <= Actions(p.tokens, |p.tokens|) && i + WidthOf(t) <= First(p)
  {
    if k < |p.tokens| {
      VisitToken(argv, p, k, i, executed, visited);
    } else {
      VisitDashes(argv, p, i, executed, visited);
      assert executed + [] == executed;
    }
  }

  /** One round of `runargs`: what the word at `i` makes it execute, and the last word it takes. */
  method RunWord(argv: seq<string>, i: nat, ghost t: seq<Token>) returns (actions: seq<Action>, last: nat)
    requires WordOf(argv, i, t)
    ensures actions == ActionsOf(t) && |actions| <= 1 && last + 1 == i + WidthOf(t)
  {
    actions, last := [], i;
    var option := argv[i][1];
    assert argv[i][0] == '-';
    if option == 'e' || option == 'l' {
      var extra := argv[i][2..];
      if extra == [] {
        last := i + 1;
        extra := argv[last];
      }
      actions := [if option == 'e' then DoString(extra) else DoLibrary(extra)];
    }
  }

  lemma WalkedAll(p: Parse, k: nat, i: nat, executed: seq<Action>, visited: seq<nat>)
    requires Walked(p, k, i, executed, visited) && i == First(p)
    ensures executed == Actions(p.tokens, |p.tokens|)
    ensures visited == Positions(p.tokens, |p.tokens|) + if p.stop.AfterDashes? then [i - 1] else []
  {
    PositionsGrow(p.tokens, k, |p.tokens|);
  }

  // ---------------------------------------------------------------------------
  // Later looks at single words

  /** `handle_script`: whether standard input is run instead of a file. */
  predicate ReadsStdin(argv: seq<string>, script: nat)
    requires 1 <= script < |argv|
  {
    argv[script] == "-" && argv[script - 1] != "--"
  }

  /** `print_usage`: whether the message says that the option needs an argument. */
  predicate SaysNeedsArgument(badoption: string) {
    At(badoption, 1) == 'e' || At(badoption, 1) == 'l'
  }

  /** Looking back one word recovers how the options ended, unless the program itself is called "--"
      and the script is the first word; then `-` is taken for a file name. */
  lemma LookBack(argv: seq<string>, p: Parse)
    requires IsParse(argv, p) && p.Accepted? && First(p) < |argv|
    ensures argv[First(p) - 1] == "--" <==> p.stop.AfterDashes? || (First(p) == 1 && argv[0] == "--")
    ensures ReadsStdin(argv, First(p)) <==> p.stop.AtDash? && !(First(p) == 1 && argv[0] == "--")
  {
    var k := |p.tokens|;
    if k > 0 {
      var t := p.tokens[k - 1];
      PositionsGrow(p.tokens, 0, k);
      assert InPlace(argv, p.tokens, k - 1);
      assert argv[Position(p.tokens, k) - 1] != "--";
    }
  }

  /** The exception is real: called as "--" with the single argument "-", the console looks for a file. */
  lemma ProgramCalledDashes()
    ensures IsParse(["--", "-"], Accepted([], AtDash)) && !ReadsStdin(["--", "-"], 1)
  {
  }

  /** The word the usage message shows is the one at fault, and the message names the fault. */
  lemma UsageMessage(argv: seq<string>, p: Parse)
    requires IsParse(argv, p) && p.Rejected?
    ensures First(p) < |argv|
    ensures SaysNeedsArgument(argv[First(p)]) <==> p.reason.MissingArgument?
    ensures p.reason.BadOption? <==> Bad(argv[First(p)])
  {
  }
}
