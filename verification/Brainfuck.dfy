// The Brainfuck interpreter: the jumping loop with its return-address stack, as a step machine and
// as the imperative `run_program`, against a structured semantics in which brackets are loops.
module Brainfuck {
  import opened Wrappers

  const CELLS: nat := 65536
  const STACK: nat := 512
  const INT_MAX: int := 0x7fff_ffff

  const RIGHT: int := 62
  const LEFT: int := 60
  const PLUS: int := 43
  const MINUS: int := 45
  const OPEN: int := 91
  const CLOSE: int := 93
  const WRITE: int := 46
  const READ: int := 44

  // ----- what both semantics share: the effect of one character that is not a bracket -----

  datatype World = World(tape: seq<int>, head: int, inHead: nat, output: seq<int>)

  ghost predicate OnTape(w: World) {
    0 <= w.head < |w.tape|
  }

  function Cell(w: World): int {
    if 0 <= w.head < |w.tape| then w.tape[w.head] else 0
  }

  predicate IsInt(x: int) {
    -INT_MAX - 1 <= x <= INT_MAX
  }

  // None: an access outside the tape or the output, or a sum no int holds; the program guards neither.
  function Exec(code: int, w: World, input: seq<int>): Option<World> {
    if code == RIGHT then Move(w, w.head + 1)
    else if code == LEFT then Move(w, w.head - 1)
    else if code == PLUS then if IsInt(Cell(w) + 1) then Put(w, Cell(w) + 1) else None
    else if code == MINUS then if IsInt(Cell(w) - 1) then Put(w, Cell(w) - 1) else None
    else if code == WRITE then
      if 0 <= w.head < |w.tape| && |w.output| < CELLS then Some(w.(output := w.output + [Cell(w)])) else None
    else if code == READ then
      if w.inHead >= |input| then Put(w, 0) else Put(w.(inHead := w.inHead + 1), input[w.inHead])
    else Some(w)
  }

  function Move(w: World, head: int): Option<World> {
    if IsInt(head) then Some(w.(head := head)) else None
  }

  function Put(w: World, x: int): Option<World> {
    if 0 <= w.head < |w.tape| then Some(w.(tape := w.tape[w.head := x])) else None
  }

  // ----- structured semantics -----

  datatype Code = Nil | Op(code: int, next: Code) | Loop(body: Code, rest: Code)

  function Text(p: Code): seq<int> {
    match p
    case Nil => []
    case Op(c, next) => [c] + Text(next)
    case Loop(body, rest) => [OPEN] + Text(body) + [CLOSE] + Text(rest)
  }

  predicate Plain(p: Code) {
    match p
    case Nil => true
    case Op(c, next) => c != OPEN && c != CLOSE && Plain(next)
    case Loop(body, rest) => Plain(body) && Plain(rest)
  }

  function Nesting(p: Code): nat {
    match p
    case Nil => 0
    case Op(_, next) => Nesting(next)
    case Loop(body, rest) => var a, b := Nesting(body) + 1, Nesting(rest); if a >= b then a else b
  }

  datatype Outcome = Done(w: World) | Fault | OutOfFuel

  // `[body]` repeats the body while the cell under the head is not zero.
  function Run(p: Code, w: World, input: seq<int>, fuel: nat): Outcome
    decreases fuel, p
  {
    match p
    case Nil => Done(w)
    case Op(c, next) =>
      (match Exec(c, w, input)
       case None => Fault
       case Some(w') => Run(next, w', input, fuel))
    case Loop(body, rest) =>
      if !(0 <= w.head < |w.tape|) then Fault
      else if Cell(w) == 0 then Run(rest, w, input, fuel)
      else if fuel == 0 then OutOfFuel
      else
        match Run(body, w, input, fuel - 1)
        case Done(w') => Run(p, w', input, fuel - 1)
        case other => other
  }

  // ----- bracket balance, and the tree it determines -----

  // Brackets opened and not closed; negative when one is closed too early.
  function Excess(s: seq<int>): int {
    if s == [] then 0
    else Excess(s[..|s| - 1]) + Weight(s[|s| - 1])
  }

  function Weight(code: int): int {
    if code == OPEN then 1 else if code == CLOSE then -1 else 0
  }

  ghost predicate Balanced(s: seq<int>) {
    Excess(s) == 0 && forall k | 0 <= k <= |s| :: Excess(s[..k]) >= 0
  }

  ghost predicate NestedWithin(s: seq<int>, n: nat) {
    forall k | 0 <= k <= |s| :: Excess(s[..k]) <= n
  }

  // The longest prefix of s made of characters and closed loops, and what follows it.
  function Parse(s: seq<int>): (r: (Code, seq<int>))
    ensures |r.1| <= |s|
    decreases |s|
  {
    if s == [] || s[0] == CLOSE then (Nil, s)
    else if s[0] == OPEN then
      var (body, after) := Parse(s[1..]);
      if after == [] || after[0] != CLOSE then (Nil, s)
      else
        var (rest, end) := Parse(after[1..]);
        (Loop(body, rest), end)
    else
      var (next, end) := Parse(s[1..]);
      (Op(s[0], next), end)
  }

  lemma {:induction false} ParseText(s: seq<int>)
    ensures s == Text(Parse(s).0) + Parse(s).1 && Plain(Parse(s).0)
    decreases |s|
  {
    hide Text;
    if s == [] || s[0] == CLOSE {
      assert Text(Nil) + s == s by {
        NilText();
      }
    } else {
      ParseText(s[1..]);
      var (p, after) := Parse(s[1..]);
      assert s == [s[0]] + s[1..];
      if s[0] == OPEN {
        if after != [] && after[0] == CLOSE {
          ParseText(after[1..]);
          var (rest, end) := Parse(after[1..]);
          LoopText(s, p, after, rest, end);
        } else {
          NilText();
        }
      } else {
        OpText(s[0], p, after);
      }
    }
  }

  lemma NilText()
    ensures Text(Nil) == []
  {
  }

  lemma OpText(c: int, next: Code, after: seq<int>)
    ensures [c] + (Text(next) + after) == Text(Op(c, next)) + after
  {
    assert [c] + (Text(next) + after) == ([c] + Text(next)) + after;
  }

  lemma LoopText(s: seq<int>, body: Code, after: seq<int>, rest: Code, end: seq<int>)
    requires s == [OPEN] + (Text(body) + after) && after != [] && after[0] == CLOSE
    requires after[1..] == Text(rest) + end
    ensures s == Text(Loop(body, rest)) + end
  {
    assert after == [CLOSE] + (Text(rest) + end);
  }

  lemma {:induction false} ExcessAppend(a: seq<int>, b: seq<int>)
    ensures Excess(a + b) == Excess(a) + Excess(b)
    decreases |b|
  {
    if b == [] {
      assert a + b == a;
    } else {
      var b' := b[..|b| - 1];
      assert (a + b)[..|a + b| - 1] == a + b';
      ExcessAppend(a, b');
    }
  }

  lemma ExcessOne(c: int)
    ensures Excess([c]) == Weight(c)
  {
    assert [c][..0] == [];
  }

  // The brackets of a loop cancel.
  lemma ExcessLoop(a: seq<int>, b: seq<int>)
    ensures Excess([OPEN] + a + [CLOSE] + b) == Excess(a) + Excess(b)
    ensures Excess([OPEN] + a) == Excess(a) + 1
  {
    ExcessOne(OPEN);
    ExcessOne(CLOSE);
    ExcessAppend([OPEN] + a + [CLOSE], b);
    ExcessAppend([OPEN] + a, [CLOSE]);
    ExcessAppend([OPEN], a);
  }

  lemma {:induction false} ExcessText(p: Code)
    requires Plain(p)
    ensures Excess(Text(p)) == 0
  {
    match p
    case Nil =>
    case Op(c, next) =>
      ExcessText(next);
      ExcessOne(c);
      ExcessAppend([c], Text(next));
    case Loop(body, rest) =>
      ExcessText(body);
      ExcessText(rest);
      ExcessLoop(Text(body), Text(rest));
  }

  // Every prefix of the text of p leaves at least 0 and at most its nesting open.
  lemma {:induction false} ExcessPrefix(p: Code, k: nat)
    requires Plain(p) && k <= |Text(p)|
    ensures 0 <= Excess(Text(p)[..k]) <= Nesting(p)
  {
    hide Excess;
    var t := Text(p)[..k];
    if k == 0 {
      ExcessNone();
    } else {
      match p
      case Op(c, next) =>
        ExcessPrefix(next, k - 1);
        ExcessOne(c);
        assert t == [c] + Text(next)[..k - 1];
        ExcessAppend([c], Text(next)[..k - 1]);
      case Loop(body, rest) =>
        var b := Text(body);
        if k <= |b| + 1 {
          ExcessPrefix(body, k - 1);
          assert t == [OPEN] + b[..k - 1];
          ExcessLoop(b[..k - 1], []);
        } else {
          ExcessPrefix(rest, k - |b| - 2);
          ExcessText(body);
          assert t == [OPEN] + b + [CLOSE] + Text(rest)[..k - |b| - 2];
          ExcessLoop(b, Text(rest)[..k - |b| - 2]);
        }
    }
  }

  // Somewhere the nesting is reached.
  lemma {:induction false} Deepest(p: Code) returns (k: nat)
    requires Plain(p)
    ensures k <= |Text(p)| && Excess(Text(p)[..k]) == Nesting(p)
  {
    match p {
      case Nil => k := 0;
      case Op(c, next) =>
        var j := Deepest(next);
        k := j + 1;
        ExcessOne(c);
        assert Text(p)[..k] == [c] + Text(next)[..j];
        ExcessAppend([c], Text(next)[..j]);
      case Loop(body, rest) =>
        var b := Text(body);
        if Nesting(body) + 1 >= Nesting(rest) {
          var j := Deepest(body);
          k := j + 1;
          assert Text(p)[..k] == [OPEN] + b[..j];
          ExcessLoop(b[..j], []);
        } else {
          var j := Deepest(rest);
          k := |b| + 2 + j;
          ExcessText(body);
          assert Text(p)[..k] == [OPEN] + b + [CLOSE] + Text(rest)[..j];
          ExcessLoop(b, Text(rest)[..j]);
        }
    }
  }

  // A `[` that is never closed leaves an excess.
  lemma {:induction false} Unclosed(s: seq<int>)
    requires Parse(s).1 != [] && Parse(s).1[0] != CLOSE
    ensures Excess(s) > 0
    decreases |s|
  {
    hide Text, Excess, Plain;
    var (p, after) := Parse(s[1..]);
    ExcessHead(s);
    if s[0] != OPEN {
      Unclosed(s[1..]);
    } else {
      ParseText(s[1..]);
      ExcessText(p);
      ExcessAppend(Text(p), after);
      if after == [] {
        ExcessNone();
      } else if after[0] != CLOSE {
        Unclosed(s[1..]);
      } else {
        Unclosed(after[1..]);
        ExcessHead(after);
      }
    }
  }

  lemma ExcessHead(s: seq<int>)
    requires s != []
    ensures Excess(s) == Weight(s[0]) + Excess(s[1..])
  {
    ExcessOne(s[0]);
    ExcessAppend([s[0]], s[1..]);
    assert s == [s[0]] + s[1..];
  }

  lemma ExcessNone()
    ensures Excess([]) == 0
  {
  }

  // The trees are exactly the balanced texts.
  lemma BalancedIsTree(s: seq<int>)
    ensures Balanced(s) <==> Parse(s).1 == []
    ensures Balanced(s) ==> s == Text(Parse(s).0) && Plain(Parse(s).0)
    ensures Balanced(s) ==> forall n: nat :: NestedWithin(s, n) <==> Nesting(Parse(s).0) <= n
  {
    ParseText(s);
    var (p, rest) := Parse(s);
    ExcessText(p);
    if rest == [] {
      assert s == Text(p);
      forall k | 0 <= k <= |s|
        ensures 0 <= Excess(s[..k]) <= Nesting(p)
      {
        ExcessPrefix(p, k);
      }
      var d := Deepest(p);
    } else if rest[0] == CLOSE {
      var k := |Text(p)| + 1;
      assert s[..k] == Text(p) + [CLOSE];
      ExcessOne(CLOSE);
      ExcessAppend(Text(p), [CLOSE]);
      assert Excess(s[..k]) < 0;
    } else {
      Unclosed(s);
    }
  }

  // ----- the jumping loop, one iteration at a time -----

  // `stack` is return_address[..return_address_top].
  datatype State = State(ip: nat, stack: seq<nat>, w: World)

  // The scan for the matching `]`: None when the program ends first.
  function Skip(s: seq<int>, ip: nat, loop: nat): (r: Option<nat>)
    ensures r.Some? ==> ip <= r.value && (loop > 0 ==> ip < r.value < |s|)
    decreases |s| - ip
  {
    if loop == 0 then Some(ip)
    else if ip + 1 >= |s| then None
    else Skip(s, ip + 1, loop + Weight(s[ip + 1]))
  }

  // None: an access outside an array, or a `]` with nothing on the stack.
  function Step(s: seq<int>, st: State, input: seq<int>): Option<State>
    requires st.ip < |s|
  {
    var code := s[st.ip];
    if code == OPEN then
      if !(0 <= st.w.head < |st.w.tape|) then None
      else if Cell(st.w) != 0 then
        if |st.stack| < STACK then Some(State(st.ip + 1, st.stack + [st.ip], st.w)) else None
      else
        var m :- Skip(s, st.ip, 1);
        Some(State(m + 1, st.stack, st.w))
    else if code == CLOSE then
      if !(0 <= st.w.head < |st.w.tape|) || st.stack == [] then None
      else if Cell(st.w) == 0 then Some(State(st.ip + 1, st.stack[..|st.stack| - 1], st.w))
      else Some(State(st.stack[|st.stack| - 1] + 1, st.stack, st.w))
    else
      var w' :- Exec(code, st.w, input);
      Some(State(st.ip + 1, st.stack, w'))
  }

  // The state after n iterations, if the loop makes that many.
  function After(s: seq<int>, st: State, input: seq<int>, n: nat): Option<State>
    decreases n
  {
    if n == 0 then Some(st)
    else if st.ip >= |s| then None
    else
      var st' :- Step(s, st, input);
      After(s, st', input, n - 1)
  }

  lemma {:induction false} AfterTrans(s: seq<int>, st: State, input: seq<int>, n: nat, m: nat)
    requires After(s, st, input, n).Some?
    ensures After(s, st, input, n + m) == After(s, After(s, st, input, n).value, input, m)
    decreases n
  {
    if n == 0 {
    } else {
      AfterTrans(s, Step(s, st, input).value, input, n - 1, m);
    }
  }

  // The next iteration faults.
  predicate Stuck(s: seq<int>, st: State, input: seq<int>) {
    st.ip < |s| && Step(s, st, input).None?
  }

  // ----- the jumping loop follows the structured semantics -----

  ghost predicate At(s: seq<int>, i: nat, t: seq<int>) {
    i + |t| <= |s| && s[i..i + |t|] == t
  }

  lemma AtOp(s: seq<int>, i: nat, c: int, next: Code)
    requires At(s, i, Text(Op(c, next)))
    ensures s[i] == c && At(s, i + 1, Text(next))
  {
    var t := Text(Op(c, next));
    assert s[i..i + |t|][0] == c && s[i..i + |t|][1..] == s[i + 1..i + |t|];
    assert t[1..] == Text(next);
  }

  lemma AtSplit(s: seq<int>, i: nat, a: seq<int>, b: seq<int>)
    requires At(s, i, a + b)
    ensures At(s, i, a) && At(s, i + |a|, b)
  {
    var t := a + b;
    assert s[i..i + |t|][..|a|] == s[i..i + |a|] && t[..|a|] == a;
    assert s[i..i + |t|][|a|..] == s[i + |a|..i + |t|] && t[|a|..] == b;
  }

  lemma AtOne(s: seq<int>, i: nat, c: int)
    requires At(s, i, [c])
    ensures i < |s| && s[i] == c
  {
    assert s[i..i + 1][0] == s[i];
  }

  lemma AtLoop(s: seq<int>, i: nat, body: Code, rest: Code)
    requires At(s, i, Text(Loop(body, rest)))
    ensures At(s, i + 1, Text(body)) && At(s, i + 2 + |Text(body)|, Text(rest))
    ensures i + 1 + |Text(body)| < |s| && s[i] == OPEN && s[i + 1 + |Text(body)|] == CLOSE
    ensures |Text(Loop(body, rest))| == |Text(body)| + 2 + |Text(rest)|
  {
    var b, r := Text(body), Text(rest);
    assert Text(Loop(body, rest)) == [OPEN] + b + [CLOSE] + r;
    hide At, Text;
    AtSplit(s, i, [OPEN] + b + [CLOSE], r);
    AtSplit(s, i, [OPEN] + b, [CLOSE]);
    AtSplit(s, i, [OPEN], b);
    AtOne(s, i, OPEN);
    AtOne(s, i + 1 + |b|, CLOSE);
  }

  // ----- what one iteration does on each kind of bracket -----

  lemma StepEnter(s: seq<int>, i: nat, stack: seq<nat>, w: World, input: seq<int>)
    requires i < |s| && s[i] == OPEN && OnTape(w) && Cell(w) != 0 && |stack| < STACK
    ensures Step(s, State(i, stack, w), input) == Some(State(i + 1, stack + [i], w))
  {
  }

  lemma StepPass(s: seq<int>, i: nat, body: Code, stack: seq<nat>, w: World, input: seq<int>)
    requires Plain(body) && At(s, i + 1, Text(body)) && i + 1 + |Text(body)| < |s|
    requires s[i] == OPEN && s[i + 1 + |Text(body)|] == CLOSE
    requires OnTape(w) && Cell(w) == 0
    ensures Step(s, State(i, stack, w), input) == Some(State(i + 2 + |Text(body)|, stack, w))
  {
    hide At, Text;
    SkipText(s, i, body, 1);
    assert Skip(s, i + |Text(body)|, 1) == Skip(s, i + |Text(body)| + 1, 0);
  }

  lemma StepLeave(s: seq<int>, i: nat, e: nat, stack: seq<nat>, w: World, input: seq<int>)
    requires e < |s| && s[e] == CLOSE && OnTape(w)
    ensures Step(s, State(e, stack + [i], w), input)
         == Some(if Cell(w) == 0 then State(e + 1, stack, w) else State(i + 1, stack + [i], w))
  {
    assert (stack + [i])[..|stack|] == stack;
  }

  lemma StepOff(s: seq<int>, i: nat, stack: seq<nat>, w: World, input: seq<int>)
    requires i < |s| && (s[i] == OPEN || s[i] == CLOSE) && !OnTape(w)
    ensures Stuck(s, State(i, stack, w), input)
  {
  }

  // Scanning passes over every closed piece of text.
  lemma {:induction false} SkipText(s: seq<int>, i: nat, p: Code, loop: nat)
    requires Plain(p) && At(s, i + 1, Text(p)) && loop >= 1
    ensures Skip(s, i, loop) == Skip(s, i + |Text(p)|, loop)
    decreases p
  {
    hide At, Skip;
    match p
    case Nil =>
    case Op(c, next) =>
      AtOp(s, i + 1, c, next);
      SkipOne(s, i, loop);
      SkipText(s, i + 1, next, loop);
    case Loop(body, rest) =>
      AtLoop(s, i + 1, body, rest);
      SkipOne(s, i, loop);
      SkipText(s, i + 1, body, loop + 1);
      SkipOne(s, i + 1 + |Text(body)|, loop + 1);
      SkipText(s, i + 2 + |Text(body)|, rest, loop);
  }

  lemma SkipOne(s: seq<int>, i: nat, loop: nat)
    requires loop >= 1 && i + 1 < |s|
    ensures Skip(s, i, loop) == Skip(s, i + 1, loop + Weight(s[i + 1]))
  {
  }

  // What n iterations from `st` show when the structured run ends in `o`.
  ghost predicate Follows(s: seq<int>, st: State, input: seq<int>, n: nat, o: Outcome, end: nat, stack: seq<nat>,
                          fuel: nat)
  {
    var r := After(s, st, input, n);
    match o
    case Done(w') => r == Some(State(end, stack, w'))
    case Fault => r.Some? && Stuck(s, r.value, input)
    case OutOfFuel => r.Some? && n >= fuel
  }

  lemma FollowsAfter(s: seq<int>, st: State, input: seq<int>, n: nat, m: nat, o: Outcome, end: nat,
          stack: seq<nat>, fuel: nat)
    requires After(s, st, input, n).Some?
    requires Follows(s, After(s, st, input, n).value, input, m, o, end, stack, fuel)
    ensures Follows(s, st, input, n + m, o, end, stack, n + fuel)
  {
    AfterTrans(s, st, input, n, m);
  }

  // One iteration more in front.
  lemma FollowsStep(s: seq<int>, st: State, input: seq<int>, m: nat, o: Outcome, end: nat, stack: seq<nat>, fuel: nat)
    requires st.ip < |s| && Step(s, st, input).Some?
    requires Follows(s, Step(s, st, input).value, input, m, o, end, stack, fuel)
    ensures Follows(s, st, input, m + 1, o, end, stack, fuel + 1)
  {
  }

  lemma {:induction false} SimRun(s: seq<int>, i: nat, p: Code, stack: seq<nat>, w: World, input: seq<int>,
          fuel: nat) returns (n: nat)
    requires Plain(p) && At(s, i, Text(p)) && |stack| + Nesting(p) <= STACK
    ensures Follows(s, State(i, stack, w), input, n, Run(p, w, input, fuel), i + |Text(p)|, stack, fuel)
    decreases fuel, p, 1
  {
    hide At, Exec, OnTape, Cell;
    var st := State(i, stack, w);
    match p {
      case Nil =>
        n := 0;
      case Op(c, next) =>
        AtOp(s, i, c, next);
        if Exec(c, w, input).None? {
          n := 0;
        } else {
          var w' := Exec(c, w, input).value;
          var m := SimRun(s, i + 1, next, stack, w', input, fuel);
          FollowsStep(s, st, input, m, Run(next, w', input, fuel), i + |Text(p)|, stack, fuel);
          n := m + 1;
        }
      case Loop(body, rest) =>
        n := SimLoop(s, i, body, rest, stack, w, input, fuel);
    }
  }

  // From the `[` of a loop.
  lemma {:induction false} SimLoop(s: seq<int>, i: nat, body: Code, rest: Code, stack: seq<nat>, w: World,
          input: seq<int>, fuel: nat)
    returns (n: nat)
    requires LoopAt(s, i, body, rest, stack)
    ensures SimulatesLoop(s, State(i, stack, w), n, i, body, rest, stack, w, input, fuel, fuel)
    decreases fuel, Loop(body, rest), 0, 2
  {
    hide At, Exec, Step, After, Text, OnTape;
    AtLoop(s, i, body, rest);
    RunLoop(body, rest, w, input, fuel);
    hide Run;
    var p := Loop(body, rest);
    var st := State(i, stack, w);
    if !OnTape(w) {
      StepOff(s, i, stack, w, input);
      n := 0;
      AfterNone(s, st, input);
    } else if Cell(w) == 0 {
      StepPass(s, i, body, stack, w, input);
      var m := SimRun(s, i + 2 + |Text(body)|, rest, stack, w, input, fuel);
      FollowsStep(s, st, input, m, Run(rest, w, input, fuel), i + |Text(p)|, stack, fuel);
      n := m + 1;
    } else {
      StepEnter(s, i, stack, w, input);
      var m := SimInside(s, i, body, rest, stack, w, input, fuel);
      FollowsStep(s, st, input, m, Run(p, w, input, fuel), i + |Text(p)|, stack, Less(fuel));
      n := m + 1;
    }
  }

  // From just after a `[` that has been entered.
  lemma {:induction false} SimInside(s: seq<int>, i: nat, body: Code, rest: Code, stack: seq<nat>, w: World,
          input: seq<int>, fuel: nat)
    returns (n: nat)
    requires LoopAt(s, i, body, rest, stack) && OnTape(w) && Cell(w) != 0
    ensures SimulatesLoop(s, State(i + 1, stack + [i], w), n, i, body, rest, stack, w, input, fuel, Less(fuel))
    decreases fuel, Loop(body, rest), 0, 0
  {
    hide At, Exec, Step, Text, OnTape;
    AtLoop(s, i, body, rest);
    RunLoop(body, rest, w, input, fuel);
    hide Run;
    var p := Loop(body, rest);
    var st := State(i + 1, stack + [i], w);
    if fuel == 0 {
      n := 0;
    } else {
      var m := SimRun(s, i + 1, body, stack + [i], w, input, fuel - 1);
      n := m;
      var o := Run(body, w, input, fuel - 1);
      if o.Done? {
        var k := SimClose(s, i, body, rest, stack, o.w, input, fuel - 1);
        FollowsAfter(s, st, input, m, k, Run(p, o.w, input, fuel - 1), i + |Text(p)|, stack, fuel - 1);
        n := m + k;
      }
    }
  }

  // From the `]` of an entered loop.
  lemma {:induction false} SimClose(s: seq<int>, i: nat, body: Code, rest: Code, stack: seq<nat>, w: World,
          input: seq<int>, fuel: nat)
    returns (n: nat)
    requires LoopAt(s, i, body, rest, stack)
    ensures SimulatesLoop(s, State(i + 1 + |Text(body)|, stack + [i], w), n, i, body, rest, stack, w, input, fuel, fuel)
    decreases fuel, Loop(body, rest), 0, 1
  {
    hide At, Exec, Step, After, Text, OnTape;
    AtLoop(s, i, body, rest);
    RunLoop(body, rest, w, input, fuel);
    hide Run;
    var p := Loop(body, rest);
    var e := i + 1 + |Text(body)|;
    var st := State(e, stack + [i], w);
    if !OnTape(w) {
      StepOff(s, e, stack + [i], w, input);
      n := 0;
      AfterNone(s, st, input);
    } else {
      StepLeave(s, i, e, stack, w, input);
      if Cell(w) == 0 {
        var m := SimRun(s, e + 1, rest, stack, w, input, fuel);
        FollowsStep(s, st, input, m, Run(rest, w, input, fuel), i + |Text(p)|, stack, fuel);
        n := m + 1;
      } else {
        var m := SimInside(s, i, body, rest, stack, w, input, fuel);
        FollowsStep(s, st, input, m, Run(p, w, input, fuel), i + |Text(p)|, stack, Less(fuel));
        n := m + 1;
      }
    }
  }

  function Less(fuel: nat): nat {
    if fuel == 0 then 0 else fuel - 1
  }

  ghost predicate LoopAt(s: seq<int>, i: nat, body: Code, rest: Code, stack: seq<nat>) {
    var p := Loop(body, rest);
    && Plain(body) && Plain(rest) && At(s, i, Text(p))
    && |stack| + 1 + Nesting(body) <= STACK && |stack| + Nesting(rest) <= STACK
  }

  ghost predicate SimulatesLoop(s: seq<int>, st: State, n: nat, i: nat, body: Code, rest: Code, stack: seq<nat>,
          w: World,
                                input: seq<int>, fuel: nat, least: nat)
  {
    var p := Loop(body, rest);
    Follows(s, st, input, n, Run(p, w, input, fuel), i + |Text(p)|, stack, least)
  }

  lemma RunLoop(body: Code, rest: Code, w: World, input: seq<int>, fuel: nat)
    ensures var p := Loop(body, rest);
      Run(p, w, input, fuel) ==
      if !OnTape(w) then Fault
      else if Cell(w) == 0 then Run(rest, w, input, fuel)
      else if fuel == 0 then OutOfFuel
      else
        var o := Run(body, w, input, fuel - 1);
        if o.Done? then Run(p, o.w, input, fuel - 1) else o
  {
  }

  lemma AfterNone(s: seq<int>, st: State, input: seq<int>)
    ensures After(s, st, input, 0) == Some(st)
  {
  }

  // ----- whole programs -----

  function Start(w: World): State {
    State(0, [], w)
  }

  ghost predicate Accepted(s: seq<int>) {
    Balanced(s) && NestedWithin(s, STACK)
  }

  // The structured reading of a program text.
  function Meaning(s: seq<int>, w: World, input: seq<int>, fuel: nat): Outcome {
    Run(Parse(s).0, w, input, fuel)
  }

  // The jumping loop ends, faults or goes on exactly as the structured semantics does.
  lemma Simulates(s: seq<int>, w: World, input: seq<int>, fuel: nat) returns (n: nat)
    requires Accepted(s)
    ensures Follows(s, Start(w), input, n, Meaning(s, w, input, fuel), |s|, [], fuel)
  {
    hide Run, Text, Excess, Parse, Step, After;
    BalancedIsTree(s);
    WholeText(s);
    n := SimRun(s, 0, Parse(s).0, [], w, input, fuel);
  }

  lemma WholeText(s: seq<int>)
    ensures At(s, 0, s)
  {
  }

  // Whatever the jumping loop halts with, the structured semantics ends with too.
  lemma HaltsAsMeant(s: seq<int>, w: World, input: seq<int>, n: nat) returns (fuel: nat)
    requires Accepted(s)
    requires After(s, Start(w), input, n).Some? && After(s, Start(w), input, n).value.ip >= |s|
    ensures Meaning(s, w, input, fuel) == Done(After(s, Start(w), input, n).value.w)
    ensures After(s, Start(w), input, n).value == State(|s|, [], After(s, Start(w), input, n).value.w)
  {
    fuel := n + 1;
    var k := Simulates(s, w, input, fuel);
    hide Step, Run, Parse;
    EndsOnce(s, Start(w), input, n, k);
  }

  // No iteration after the loop has ended, nor after a fault.
  lemma EndsOnce(s: seq<int>, st: State, input: seq<int>, n: nat, k: nat)
    requires After(s, st, input, n).Some? && After(s, st, input, k).Some?
    requires After(s, st, input, n).value.ip >= |s|
    ensures k <= n
    ensures k == n || (After(s, st, input, k).value.ip < |s| && !Stuck(s, After(s, st, input, k).value, input))
  {
    hide Step;
    if k < n {
      AfterTrans(s, st, input, k, n - k);
    } else if n < k {
      AfterTrans(s, st, input, n, k - n);
    }
  }

  // Wherever the jumping loop faults, the structured semantics does too.
  lemma FaultsAsMeant(s: seq<int>, w: World, input: seq<int>, n: nat) returns (fuel: nat)
    requires Accepted(s)
    requires After(s, Start(w), input, n).Some? && Stuck(s, After(s, Start(w), input, n).value, input)
    ensures Meaning(s, w, input, fuel).Fault?
  {
    fuel := n + 1;
    var k := Simulates(s, w, input, fuel);
    StopsOnce(s, Start(w), input, n, k);
  }

  // No iteration after a fault.
  lemma StopsOnce(s: seq<int>, st: State, input: seq<int>, n: nat, k: nat)
    requires After(s, st, input, n).Some? && Stuck(s, After(s, st, input, n).value, input)
    requires After(s, st, input, k).Some?
    ensures k <= n && (k < n ==> After(s, st, input, k).value.ip < |s|)
  {
    hide Step;
    if k < n {
      AfterTrans(s, st, input, k, n - k);
    } else if n < k {
      AfterTrans(s, st, input, n, k - n);
    }
  }

  ghost predicate LoopsForever(s: seq<int>, w: World, input: seq<int>) {
    forall n: nat :: After(s, Start(w), input, n).Some?
  }

  ghost predicate NeverEnds(s: seq<int>, w: World, input: seq<int>) {
    forall fuel: nat :: Meaning(s, w, input, fuel).OutOfFuel?
  }

  // The jumping loop runs forever exactly when no fuel is enough.
  lemma RunsForever(s: seq<int>, w: World, input: seq<int>)
    requires Accepted(s)
    ensures LoopsForever(s, w, input) <==> NeverEnds(s, w, input)
  {
    hide Step, Meaning;
    if LoopsForever(s, w, input) {
      forall fuel: nat
        ensures Meaning(s, w, input, fuel).OutOfFuel?
      {
        var k := Simulates(s, w, input, fuel);
        AfterTrans(s, Start(w), input, k, 1);
        assert After(s, Start(w), input, k + 1).Some?;
      }
    }
    if NeverEnds(s, w, input) {
      forall n: nat
        ensures After(s, Start(w), input, n).Some?
      {
        assert Meaning(s, w, input, n).OutOfFuel?;
        var k := Simulates(s, w, input, n);
        AfterTo(s, Start(w), input, n, k);
      }
    }
  }

  lemma {:induction false} AfterTo(s: seq<int>, st: State, input: seq<int>, n: nat, k: nat)
    requires n <= k && After(s, st, input, k).Some?
    ensures After(s, st, input, n).Some?
    decreases n
  {
    hide Step;
    if n == 0 {
    } else {
      AfterTo(s, Step(s, st, input).value, input, n - 1, k - 1);
    }
  }

  // ----- the return addresses -----

  // The positions of the `[` that are open before position i, outermost first.
  function Opens(s: seq<int>, i: nat): seq<nat>
    requires i <= |s|
  {
    if i == 0 then []
    else
      var o := Opens(s, i - 1);
      if s[i - 1] == OPEN then o + [i - 1]
      else if s[i - 1] == CLOSE && o != [] then o[..|o| - 1]
      else o
  }

  // The innermost open bracket, and what was open around it.
  lemma {:induction false} Innermost(s: seq<int>, i: nat)
    requires i <= |s| && Opens(s, i) != []
    ensures var o := Opens(s, i); var b := o[|o| - 1];
      b < i && s[b] == OPEN && o == Opens(s, b) + [b]
  {
    var o := Opens(s, i - 1);
    if s[i - 1] == CLOSE && o != [] {
      Innermost(s, i - 1);
      Innermost(s, o[|o| - 1]);
    } else if s[i - 1] != OPEN {
      Innermost(s, i - 1);
    }
  }

  // While the scan from the `[` at b is under way, what was open before b stays open.
  lemma {:induction false} Scanned(s: seq<int>, b: nat, i: nat, loop: nat)
    requires b <= i < |s| && s[b] == OPEN && loop > 0
    requires |Opens(s, i + 1)| == |Opens(s, b)| + loop && Opens(s, b) <= Opens(s, i + 1)
    requires Skip(s, i, loop).Some?
    ensures Opens(s, Skip(s, i, loop).value + 1) == Opens(s, b)
    decreases |s| - i
  {
    var l := loop + Weight(s[i + 1]);
    if l == 0 {
      assert Opens(s, i + 2) == Opens(s, b);
    } else {
      Scanned(s, b, i + 1, l);
    }
  }

  // At every head of the loop the stack holds exactly the brackets open at ip.
  lemma StepKeepsOpens(s: seq<int>, st: State, input: seq<int>)
    requires st.ip < |s| && st.stack == Opens(s, st.ip) && Step(s, st, input).Some?
    ensures var st' := Step(s, st, input).value; st'.ip <= |s| && st'.stack == Opens(s, st'.ip)
  {
    hide Exec, Skip, Opens, Cell;
    var i := st.ip;
    OpensNext(s, i);
    if s[i] == OPEN && Cell(st.w) == 0 {
      AfterScan(s, i);
    } else if s[i] == CLOSE {
      Innermost(s, i);
      OpensNext(s, st.stack[|st.stack| - 1]);
    }
  }

  lemma OpensNext(s: seq<int>, i: nat)
    requires i < |s|
    ensures var o := Opens(s, i);
      Opens(s, i + 1) == if s[i] == OPEN then o + [i] else if s[i] == CLOSE && o != [] then o[..|o| - 1] else o
  {
  }

  lemma AfterScan(s: seq<int>, i: nat)
    requires i < |s| && s[i] == OPEN && Skip(s, i, 1).Some?
    ensures Skip(s, i, 1).value < |s| && Opens(s, Skip(s, i, 1).value + 1) == Opens(s, i)
  {
    hide Skip, Opens;
    OpensNext(s, i);
    Scanned(s, i, i, 1);
  }

  lemma {:induction false} AlwaysOpens(s: seq<int>, st: State, input: seq<int>, n: nat)
    requires st.ip <= |s| && st.stack == Opens(s, st.ip) && After(s, st, input, n).Some?
    ensures var st' := After(s, st, input, n).value; st'.ip <= |s| && st'.stack == Opens(s, st'.ip)
    decreases n
  {
    hide Step;
    if n == 0 {
    } else {
      StepKeepsOpens(s, st, input);
      AlwaysOpens(s, Step(s, st, input).value, input, n - 1);
    }
  }

  // A `]` closes the bracket from which the scan would have found it.
  lemma Partner(s: seq<int>, i: nat)
    requires i < |s| && s[i] == CLOSE && Opens(s, i) != []
    ensures var o := Opens(s, i); Skip(s, o[|o| - 1], 1) == Some(i)
  {
    var o := Opens(s, i);
    Innermost(s, i);
    ScanReaches(s, o[|o| - 1], i);
    assert Skip(s, i, 0) == Some(i);
  }

  // The scan from a bracket that is still open at i gets to i, with the number of brackets open since as its count.
  lemma {:induction false} ScanReaches(s: seq<int>, b: nat, i: nat)
    requires b < i < |s| && s[b] == OPEN
    requires Opens(s, b) + [b] <= Opens(s, i)
    ensures Skip(s, b, 1) == Skip(s, i - 1, |Opens(s, i)| - |Opens(s, b)|)
    decreases i
  {
    if i - 1 == b {
    } else {
      StillOpen(s, b, i);
      ScanReaches(s, b, i - 1);
    }
  }

  // What is open at i and was opened before i - 1 is open at i - 1.
  lemma StillOpen(s: seq<int>, b: nat, i: nat)
    requires b + 1 < i <= |s| && Opens(s, b) + [b] <= Opens(s, i)
    ensures Opens(s, b) + [b] <= Opens(s, i - 1)
  {
    var p := Opens(s, b) + [b];
    assert p[|p| - 1] == b;
  }

  // In a balanced text the scan from a `[` ends inside the program, at the first `]` that brings the
  // number of open brackets back to what it was.
  lemma ScanFindsClose(s: seq<int>, b: nat)
    requires Balanced(s) && b < |s| && s[b] == OPEN
    ensures Skip(s, b, 1).Some? && Closes(s, b, Skip(s, b, 1).value)
  {
    hide Excess, Skip;
    ExcessNext(s, b);
    ScanEnds(s, b, b, 1);
  }

  ghost predicate Closes(s: seq<int>, b: nat, m: nat)
    requires b < |s|
  {
    && b < m < |s| && s[m] == CLOSE && Excess(s[..m + 1]) == Excess(s[..b])
    && forall j | b < j <= m :: Excess(s[..j]) > Excess(s[..b])
  }

  lemma ExcessNext(s: seq<int>, i: nat)
    requires i < |s|
    ensures Excess(s[..i + 1]) == Excess(s[..i]) + Weight(s[i])
  {
    assert s[..i + 1][..i] == s[..i];
  }

  lemma {:induction false} ScanEnds(s: seq<int>, b: nat, i: nat, loop: nat)
    requires Balanced(s) && b <= i < |s| && loop > 0
    requires Excess(s[..i + 1]) == Excess(s[..b]) + loop
    requires forall j | b < j <= i + 1 :: Excess(s[..j]) > Excess(s[..b])
    ensures Skip(s, i, loop).Some? && Closes(s, b, Skip(s, i, loop).value)
    decreases |s| - i
  {
    hide Excess;
    assert s[..|s|] == s && Excess(s[..b]) >= 0;
    if i + 1 < |s| {
      ExcessNext(s, i + 1);
      var l := loop + Weight(s[i + 1]);
      if l > 0 {
        ScanEnds(s, b, i + 1, l);
      }
    }
  }
}
