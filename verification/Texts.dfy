// What small Brainfuck texts do on the jumping loop, character by character: the facts about cells,
// input and output that fix the meaning of every character.
module Texts {
  import opened Wrappers
  import opened Brainfuck

  // The codes of a text's characters.
  function Codes(t: string): (s: seq<int>)
    ensures |s| == |t|
  {
    seq(|t|, i requires 0 <= i < |t| => t[i] as int)
  }

  // Started at the front of the text in `w`, the loop comes to its end in `w'`.
  ghost predicate Leaves(t: string, w: World, input: seq<int>, w': World) {
    exists n: nat :: After(Codes(t), Start(w), input, n) == Some(State(|t|, [], w'))
  }

  // ----- texts and trees -----

  // Parsing gives back the tree a text was written from, up to the end or the next bracket closed.
  lemma {:induction false} ParseShown(p: Code, end: seq<int>)
    requires Plain(p) && (end == [] || end[0] == CLOSE)
    ensures Parse(Text(p) + end) == (p, end)
    decreases p
  {
    var s := Text(p) + end;
    match p
    case Nil => assert s == end;
    case Op(c, next) =>
      assert s[0] == c && s[1..] == Text(next) + end;
      ParseShown(next, end);
    case Loop(body, rest) =>
      var after := [CLOSE] + (Text(rest) + end);
      assert s[0] == OPEN && s[1..] == Text(body) + after;
      assert after[1..] == Text(rest) + end;
      ParseShown(body, after);
      ParseShown(rest, end);
  }

  // A structured run of the tree of a text is a run of the loop on the text.
  lemma RunsAs(p: Code, t: string, w: World, input: seq<int>, fuel: nat, w': World)
    requires Plain(p) && Nesting(p) <= STACK && Text(p) == Codes(t)
    requires Run(p, w, input, fuel) == Done(w')
    ensures Accepted(Codes(t)) && Meaning(Codes(t), w, input, fuel) == Done(w')
    ensures Leaves(t, w, input, w')
  {
    hide Run, Text, After, Step, Parse, Excess, Codes;
    var s := Codes(t);
    ParseShown(p, []);
    assert Text(p) + [] == s;
    BalancedIsTree(s);
    var n := Simulates(s, w, input, fuel);
  }

  // ----- one character again and again -----

  // `n` times the character c.
  function Times(c: char, n: nat): (t: string)
    ensures |t| == n
  {
    seq(n, _ => c)
  }

  function Chain(code: int, n: nat, next: Code): Code {
    if n == 0 then next else Op(code, Chain(code, n - 1, next))
  }

  lemma {:induction false} ChainText(c: char, n: nat, d: char)
    requires c as int != OPEN && c as int != CLOSE && d as int != OPEN && d as int != CLOSE
    ensures var p := Chain(c as int, n, Op(d as int, Nil));
      Plain(p) && Nesting(p) == 0 && Text(p) == Codes(Times(c, n) + [d])
    decreases n
  {
    if n == 0 {
      assert Times(c, 0) + [d] == [d];
    } else {
      ChainText(c, n - 1, d);
      var t := Times(c, n - 1) + [d];
      assert Times(c, n) + [d] == [c] + t;
      assert Codes([c] + t) == [c as int] + Codes(t);
    }
  }

  function Bumped(w: World, x: int): World
    requires 0 <= w.head < |w.tape|
  {
    w.(tape := w.tape[w.head := w.tape[w.head] + x])
  }

  lemma {:induction false} ChainAdds(n: nat, next: Code, w: World, input: seq<int>, fuel: nat)
    requires OnTape(w) && IsInt(w.tape[w.head]) && IsInt(w.tape[w.head] + n)
    ensures Run(Chain('+' as int, n, next), w, input, fuel) == Run(next, Bumped(w, n), input, fuel)
    decreases n
  {
    if n == 0 {
      assert Bumped(w, 0) == w;
    } else {
      ChainAdds(n - 1, next, Bumped(w, 1), input, fuel);
      assert Bumped(Bumped(w, 1), n - 1) == Bumped(w, n);
    }
  }

  lemma {:induction false} ChainSubtracts(n: nat, next: Code, w: World, input: seq<int>, fuel: nat)
    requires OnTape(w) && IsInt(w.tape[w.head]) && IsInt(w.tape[w.head] - n)
    ensures Run(Chain('-' as int, n, next), w, input, fuel) == Run(next, Bumped(w, -(n as int)), input, fuel)
    decreases n
  {
    if n == 0 {
      assert Bumped(w, 0) == w;
    } else {
      ChainSubtracts(n - 1, next, Bumped(w, -1), input, fuel);
      assert Bumped(Bumped(w, -1), 1 - (n as int)) == Bumped(w, -(n as int));
    }
  }

  // n `+` and a `.`: the cell grows by n and the sum is written.
  lemma Adds(n: nat, w: World, input: seq<int>)
    requires OnTape(w) && IsInt(w.tape[w.head]) && IsInt(w.tape[w.head] + n) && |w.output| < CELLS
    ensures var sum := w.tape[w.head] + n;
      Leaves(Times('+', n) + ".", w, input, w.(tape := w.tape[w.head := sum], output := w.output + [sum]))
  {
    var sum, p := w.tape[w.head] + n, Chain('+' as int, n, Op('.' as int, Nil));
    ChainText('+', n, '.');
    ChainAdds(n, Op('.' as int, Nil), w, input, 0);
    RunsAs(p, Times('+', n) + ".", w, input, 0, w.(tape := w.tape[w.head := sum], output := w.output + [sum]));
  }

  // n `-` and a `.`: the cell shrinks by n and the difference is written.
  lemma Subtracts(n: nat, w: World, input: seq<int>)
    requires OnTape(w) && IsInt(w.tape[w.head]) && IsInt(w.tape[w.head] - n) && |w.output| < CELLS
    ensures var rest := w.tape[w.head] - n;
      Leaves(Times('-', n) + ".", w, input, w.(tape := w.tape[w.head := rest], output := w.output + [rest]))
  {
    var rest, p := w.tape[w.head] - n, Chain('-' as int, n, Op('.' as int, Nil));
    ChainText('-', n, '.');
    ChainSubtracts(n, Op('.' as int, Nil), w, input, 0);
    RunsAs(p, Times('-', n) + ".", w, input, 0, w.(tape := w.tape[w.head := rest], output := w.output + [rest]));
  }

  // A character that is none of the eight.
  predicate Comment(c: char) {
    c !in "><+-.,[]"
  }

  lemma {:induction false} ChainIgnored(c: char, n: nat, next: Code, w: World, input: seq<int>, fuel: nat)
    requires Comment(c)
    ensures Run(Chain(c as int, n, next), w, input, fuel) == Run(next, w, input, fuel)
    decreases n
  {
    if n == 0 {
    } else {
      ChainIgnored(c, n - 1, next, w, input, fuel);
    }
  }

  // Any other character does nothing.
  lemma Ignores(c: char, n: nat, w: World, input: seq<int>)
    requires Comment(c) && OnTape(w) && |w.output| < CELLS
    ensures Leaves(Times(c, n) + ".", w, input, w.(output := w.output + [w.tape[w.head]]))
  {
    ChainText(c, n, '.');
    ChainIgnored(c, n, Op('.' as int, Nil), w, input, 0);
    RunsAs(Chain(c as int, n, Op('.' as int, Nil)), Times(c, n) + ".", w, input, 0,
           w.(output := w.output + [w.tape[w.head]]));
  }

  lemma {:induction false} ChainRight(n: nat, next: Code, w: World, input: seq<int>, fuel: nat)
    requires IsInt(w.head) && IsInt(w.head + n)
    ensures Run(Chain('>' as int, n, next), w, input, fuel) == Run(next, w.(head := w.head + n), input, fuel)
    decreases n
  {
    if n == 0 {
    } else {
      ChainRight(n - 1, next, w.(head := w.head + 1), input, fuel);
    }
  }

  lemma {:induction false} ChainLeft(n: nat, next: Code, w: World, input: seq<int>, fuel: nat)
    requires IsInt(w.head) && IsInt(w.head - n)
    ensures Run(Chain('<' as int, n, next), w, input, fuel) == Run(next, w.(head := w.head - n), input, fuel)
    decreases n
  {
    if n == 0 {
    } else {
      ChainLeft(n - 1, next, w.(head := w.head - 1), input, fuel);
    }
  }

  // n `>` and a `.`: the cell n to the right is written; the head may start anywhere.
  lemma WalksRight(n: nat, w: World, input: seq<int>)
    requires IsInt(w.head) && 0 <= w.head + n < |w.tape| <= CELLS && |w.output| < CELLS
    ensures Leaves(Times('>', n) + ".", w, input, w.(head := w.head + n, output := w.output + [w.tape[w.head + n]]))
  {
    ChainText('>', n, '.');
    ChainRight(n, Op('.' as int, Nil), w, input, 0);
    RunsAs(Chain('>' as int, n, Op('.' as int, Nil)), Times('>', n) + ".", w, input, 0,
           w.(head := w.head + n, output := w.output + [w.tape[w.head + n]]));
  }

  // n `<` and a `.`: the cell n to the left is written; the head may start anywhere.
  lemma WalksLeft(n: nat, w: World, input: seq<int>)
    requires IsInt(w.head) && 0 <= w.head - n < |w.tape| <= CELLS && |w.output| < CELLS
    ensures Leaves(Times('<', n) + ".", w, input, w.(head := w.head - n, output := w.output + [w.tape[w.head - n]]))
  {
    ChainText('<', n, '.');
    ChainLeft(n, Op('.' as int, Nil), w, input, 0);
    RunsAs(Chain('<' as int, n, Op('.' as int, Nil)), Times('<', n) + ".", w, input, 0,
           w.(head := w.head - n, output := w.output + [w.tape[w.head - n]]));
  }

  // ----- loops -----

  const CLEAR: Code := Loop(Op('-' as int, Nil), Nil)

  lemma {:induction false} ClearRuns(w: World, input: seq<int>, fuel: nat)
    requires OnTape(w) && 0 <= w.tape[w.head] <= fuel && IsInt(w.tape[w.head])
    ensures Run(CLEAR, w, input, fuel) == Done(w.(tape := w.tape[w.head := 0]))
    decreases fuel
  {
    if w.tape[w.head] == 0 {
      assert w.tape[w.head := 0] == w.tape;
    } else {
      assert Run(Op('-' as int, Nil), w, input, fuel - 1) == Done(Bumped(w, -1));
      ClearRuns(Bumped(w, -1), input, fuel - 1);
    }
  }

  // `[-]` clears a cell that is not negative.
  lemma Clears(w: World, input: seq<int>)
    requires OnTape(w) && 0 <= w.tape[w.head] && IsInt(w.tape[w.head])
    ensures Leaves("[-]", w, input, w.(tape := w.tape[w.head := 0]))
  {
    ClearRuns(w, input, w.tape[w.head]);
    assert Text(CLEAR) == Codes("[-]");
    RunsAs(CLEAR, "[-]", w, input, w.tape[w.head], w.(tape := w.tape[w.head := 0]));
  }

  const CARRY: Code := Op('-' as int, Op('>' as int, Op('+' as int, Op('<' as int, Nil))))

  // One unit from the cell under the head to the next.
  function Carried(w: World, x: int): World
    requires 0 <= w.head && w.head + 1 < |w.tape|
  {
    var h := w.head;
    w.(tape := w.tape[h := w.tape[h] - x][h + 1 := w.tape[h + 1] + x])
  }

  // A character that does not fault, and what comes after it.
  lemma OneOp(c: int, next: Code, w: World, w': World, input: seq<int>, fuel: nat)
    requires Exec(c, w, input) == Some(w')
    ensures Run(Op(c, next), w, input, fuel) == Run(next, w', input, fuel)
  {
    hide Exec;
  }

  lemma CarryOne(w: World, input: seq<int>, fuel: nat)
    requires 0 <= w.head && w.head + 1 < |w.tape| <= CELLS
    requires IsInt(w.tape[w.head] - 1) && IsInt(w.tape[w.head + 1] + 1)
    ensures Run(CARRY, w, input, fuel) == Done(Carried(w, 1))
  {
    var w1 := Bumped(w, -1);
    var w2 := w1.(head := w.head + 1);
    var w3 := Bumped(w2, 1);
    var w4 := w3.(head := w.head);
    assert w4 == Carried(w, 1);
    OneOp('-' as int, CARRY.next, w, w1, input, fuel);
    OneOp('>' as int, CARRY.next.next, w1, w2, input, fuel);
    OneOp('+' as int, CARRY.next.next.next, w2, w3, input, fuel);
    OneOp('<' as int, Nil, w3, w4, input, fuel);
  }

  lemma {:induction false} CarryRuns(w: World, input: seq<int>, fuel: nat)
    requires 0 <= w.head && w.head + 1 < |w.tape| <= CELLS
    requires 0 <= w.tape[w.head] <= fuel && IsInt(w.tape[w.head])
    requires IsInt(w.tape[w.head + 1]) && IsInt(w.tape[w.head] + w.tape[w.head + 1])
    ensures Run(Loop(CARRY, Nil), w, input, fuel) == Done(Carried(w, w.tape[w.head]))
    decreases fuel
  {
    var x := w.tape[w.head];
    if x == 0 {
      assert Carried(w, 0) == w;
    } else {
      CarryOne(w, input, fuel - 1);
      CarryRuns(Carried(w, 1), input, fuel - 1);
      assert Carried(Carried(w, 1), x - 1) == Carried(w, x);
    }
  }

  lemma CarryText()
    ensures Text(Loop(CARRY, Nil)) == Codes("[->+<]")
    ensures Plain(Loop(CARRY, Nil)) && Nesting(Loop(CARRY, Nil)) <= STACK
  {
    var last := Op('<' as int, Nil);
    assert Text(last) == ['<' as int] && Plain(last) && Nesting(last) == 0;
    var add := Op('+' as int, last);
    assert Text(add) == ['+' as int, '<' as int] && Plain(add) && Nesting(add) == 0;
    var right := Op('>' as int, add);
    assert Text(right) == ['>' as int] + Text(add) && Plain(right) && Nesting(right) == 0;
    assert Text(CARRY) == ['-' as int] + Text(right) && Plain(CARRY) && Nesting(CARRY) == 0;
  }

  // `[->+<]` adds a cell that is not negative to the next one and clears it.
  lemma Transfers(w: World, input: seq<int>)
    requires 0 <= w.head && w.head + 1 < |w.tape| <= CELLS
    requires 0 <= w.tape[w.head] && IsInt(w.tape[w.head])
    requires IsInt(w.tape[w.head + 1]) && IsInt(w.tape[w.head] + w.tape[w.head + 1])
    ensures var h := w.head;
      Leaves("[->+<]", w, input, w.(tape := w.tape[h := 0][h + 1 := w.tape[h] + w.tape[h + 1]]))
  {
    hide Run, Text, Codes, Exec;
    var x := w.tape[w.head];
    CarryRuns(w, input, x);
    CarryText();
    RunsAs(Loop(CARRY, Nil), "[->+<]", w, input, x, Carried(w, x));
  }

  // ----- input and output -----

  const ECHO: Code := Op('.' as int, Op(',' as int, Nil))

  // The input from i up to its first 0, or all the rest of it.
  function UpToZero(input: seq<int>, i: nat): (r: seq<int>)
    ensures |r| <= if i < |input| then |input| - i else 0
    ensures 0 !in r
    ensures i <= |input| ==> input[i..i + |r|] == r
    ensures i + |r| < |input| ==> input[i + |r|] == 0
    decreases |input| - i
  {
    if i >= |input| || input[i] == 0 then [] else [input[i]] + UpToZero(input, i + 1)
  }

  // Having read input[i], if there is one, the head of the input is one further.
  function Past(input: seq<int>, i: nat): nat {
    if i < |input| then i + 1 else i
  }

  // What the loop `[.,]` leaves once the character at i has been read.
  function Echoed(w: World, input: seq<int>, i: nat): World
    requires 0 <= w.head < |w.tape|
  {
    var r := UpToZero(input, i);
    World(w.tape[w.head := 0], w.head, Past(input, i + |r|), w.output + r)
  }

  // The world in which the character at i has just been read.
  predicate HasRead(w: World, input: seq<int>, i: nat) {
    && 0 <= w.head < |w.tape|
    && w.inHead == Past(input, i)
    && w.tape[w.head] == if i < |input| then input[i] else 0
  }

  lemma EchoOne(w: World, input: seq<int>, i: nat, fuel: nat) returns (w': World)
    requires i < |input| && HasRead(w, input, i) && |w.output| < CELLS
    ensures HasRead(w', input, i + 1) && w'.head == w.head && |w'.tape| == |w.tape|
    ensures w'.tape[w.head := 0] == w.tape[w.head := 0] && w'.output == w.output + [input[i]]
    ensures Run(ECHO, w, input, fuel) == Done(w')
  {
    var w1 := w.(output := w.output + [input[i]]);
    w' := w1.(tape := w.tape[w.head := if i + 1 < |input| then input[i + 1] else 0], inHead := Past(input, i + 1));
    OneOp('.' as int, ECHO.next, w, w1, input, fuel);
    OneOp(',' as int, Nil, w1, w', input, fuel);
  }

  lemma {:induction false} EchoRuns(w: World, input: seq<int>, i: nat, fuel: nat)
    requires i <= |input| && HasRead(w, input, i) && |input| - i <= fuel
    requires |w.output| + |UpToZero(input, i)| <= CELLS
    ensures Run(Loop(ECHO, Nil), w, input, fuel) == Done(Echoed(w, input, i))
    decreases fuel
  {
    hide Exec;
    if w.tape[w.head] == 0 {
      assert UpToZero(input, i) == [];
      assert w.tape[w.head := 0] == w.tape;
    } else {
      var w2 := EchoOne(w, input, i, fuel - 1);
      EchoRuns(w2, input, i + 1, fuel - 1);
      assert w.output + [input[i]] + UpToZero(input, i + 1) == w.output + UpToZero(input, i);
    }
  }

  // `,[.,]` writes the input up to its first 0, which it reads too, and leaves a 0 in the cell.
  lemma Copies(w: World, input: seq<int>)
    requires OnTape(w) && w.inHead <= |input| && |w.output| + |UpToZero(input, w.inHead)| <= CELLS
    ensures Leaves(",[.,]", w, input, Echoed(w, input, w.inHead))
  {
    var p := Op(',' as int, Loop(ECHO, Nil));
    var i, n := w.inHead, |input| - w.inHead;
    var w1 := w.(tape := w.tape[w.head := if i < |input| then input[i] else 0], inHead := Past(input, i));
    assert Exec(',' as int, w, input) == Some(w1);
    EchoRuns(w1, input, i, n);
    assert Echoed(w1, input, i) == Echoed(w, input, i);
    assert Text(p) == Codes(",[.,]");
    RunsAs(p, ",[.,]", w, input, n, Echoed(w, input, i));
  }
}
