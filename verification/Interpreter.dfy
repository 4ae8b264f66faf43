// `run_program`: the arrays and counters of the interpreter, and its loop, which computes what the
// structured semantics of the program text says.
module Interpreter {
  import opened Wrappers
  import opened Brainfuck

  class Interpreter {
    const program: array<int>
    var programLength: nat
    const tape: array<int>
    const input: array<int>
    var inputLength: int
    const output: array<int>
    var outputLength: nat

    constructor ()
      ensures Valid() && fresh(program) && fresh(tape) && fresh(input) && fresh(output)
      ensures programLength == 0 && inputLength == 0 && outputLength == 0
      ensures forall i | 0 <= i < CELLS :: program[i] == tape[i] == input[i] == output[i] == 0
    {
      program, programLength := new int[CELLS](_ => 0), 0;
      tape := new int[CELLS](_ => 0);
      input, inputLength := new int[CELLS](_ => 0), 0;
      output, outputLength := new int[CELLS](_ => 0), 0;
    }

    ghost predicate Valid()
      reads this
    {
      && program.Length == tape.Length == input.Length == output.Length == CELLS
      && program != tape && program != output && input != tape && input != output && tape != output
      && programLength <= CELLS && inputLength <= CELLS && outputLength <= CELLS
    }

    ghost function Source(): seq<int>
      requires Valid()
      reads this, program
    {
      program[..programLength]
    }

    // A negative length reads as an empty input.
    ghost function Given(): seq<int>
      requires Valid()
      reads this, input
    {
      input[..if inputLength < 0 then 0 else inputLength]
    }

    // The scan for the matching `]`, from the `[` at ip.
    method FindClose(ip: nat) returns (r: nat)
      requires Valid() && ip < programLength && Skip(Source(), ip, 1).Some?
      ensures Some(r) == Skip(Source(), ip, 1)
    {
      r := ip;
      var loop := 1;
      while loop > 0
        invariant 0 <= loop && r < programLength
        invariant Skip(Source(), r, loop) == Skip(Source(), ip, 1)
        decreases programLength - r
      {
        r := r + 1;
        if program[r] == CLOSE {
          loop := loop - 1;
        }
        if program[r] == OPEN {
          loop := loop + 1;
        }
      }
    }

    // One character that is not a bracket.
    method Execute(code: int, readHead: int, inputHead: nat) returns (head: int, inHead: nat)
      requires Valid() && code != OPEN && code != CLOSE && inputHead <= |Given()|
      requires Exec(code, World(tape[..], readHead, inputHead, output[..outputLength]), Given()).Some?
      modifies this`outputLength, tape, output
      ensures Valid() && inHead <= |Given()|
      ensures head == readHead + (if code == '>' as int then 1 else if code == '<' as int then -1 else 0)
      ensures inHead == if code == ',' as int && inputHead < inputLength then inputHead + 1 else inputHead
      ensures forall i | 0 <= i < CELLS && i != readHead :: tape[i] == old(tape[i])
      ensures 0 <= readHead < CELLS && code == '+' as int ==> tape[readHead] == old(tape[readHead]) + 1
      ensures 0 <= readHead < CELLS && code == '-' as int ==> tape[readHead] == old(tape[readHead]) - 1
      ensures 0 <= readHead < CELLS && code == ',' as int ==>
        tape[readHead] == if inputHead < inputLength then input[inputHead] else 0
      ensures 0 <= readHead < CELLS && (code < '+' as int || code == '.' as int || '/' as int < code) ==>
        tape[readHead] == old(tape[readHead])
      ensures code == '.' as int ==>
        && 0 <= readHead < CELLS
        && output[..outputLength] == old(output[..outputLength]) + [tape[readHead]]
      ensures code != '.' as int ==> output[..outputLength] == old(output[..outputLength])
      ensures Some(World(tape[..], head, inHead, output[..outputLength]))
           == Exec(code, World(old(tape[..]), readHead, inputHead, old(output[..outputLength])), Given())
    {
      head, inHead := readHead, inputHead;
      if code == RIGHT {
        head := head + 1;
      } else if code == LEFT {
        head := head - 1;
      } else if code == PLUS {
        tape[head] := tape[head] + 1;
      } else if code == MINUS {
        tape[head] := tape[head] - 1;
      } else if code == WRITE {
        output[outputLength] := tape[head];
        outputLength := outputLength + 1;
        assert output[..outputLength] == old(output[..outputLength]) + [tape[head]];
      } else if code == READ {
        if inputHead >= inputLength {
          tape[head] := 0;
        } else {
          tape[head] := input[inputHead];
          inHead := inputHead + 1;
        }
      }
    }

    // One iteration, for a state in which it does not fault.
    method Iterate(ip: nat, returnAddress: array<nat>, returnAddressTop: nat, readHead: int, inputHead: nat)
      returns (nextIp: nat, top: nat, head: int, inHead: nat)
      requires Valid() && ip < programLength && inputHead <= |Given()|
      requires returnAddress.Length == STACK && returnAddressTop <= STACK
      requires var w := World(tape[..], readHead, inputHead, output[..outputLength]);
        Step(Source(), State(ip, returnAddress[..returnAddressTop], w), Given()).Some?
      modifies this`outputLength, tape, output, returnAddress
      ensures Valid() && inHead <= |Given()| && top <= STACK
      ensures var w := World(old(tape[..]), readHead, inputHead, old(output[..outputLength]));
        Some(State(nextIp, returnAddress[..top], World(tape[..], head, inHead, output[..outputLength])))
        == Step(Source(), State(ip, old(returnAddress[..returnAddressTop]), w), Given())
    {
      hide Step, Exec, Skip;
      ghost var stack := returnAddress[..returnAddressTop];
      ghost var st := State(ip, stack, World(tape[..], readHead, inputHead, output[..outputLength]));
      var code := program[ip];
      nextIp, top, head, inHead := ip, returnAddressTop, readHead, inputHead;
      if code == OPEN {
        OpenStep(Source(), st, Given());
        var val := tape[readHead];
        if val != 0 {
          returnAddress[returnAddressTop] := ip;
          top := returnAddressTop + 1;
          assert returnAddress[..top] == stack + [ip];
        } else {
          nextIp := FindClose(ip);
        }
      } else if code == CLOSE {
        CloseStep(Source(), st, Given());
        var val := tape[readHead];
        if val == 0 {
          top := returnAddressTop - 1;
          assert returnAddress[..top] == stack[..|stack| - 1];
        } else {
          nextIp := returnAddress[returnAddressTop - 1];
        }
      } else {
        OtherStep(Source(), st, Given());
        head, inHead := Execute(code, readHead, inputHead);
      }
      nextIp := nextIp + 1;
    }

    // The loop, for an accepted text whose structured run ends within `fuel`; the heads, which the
    // source keeps in locals, are handed out.
    method RunProgram(ghost fuel: nat) returns (readHead: int, inputHead: nat)
      requires Valid() && Accepted(Source())
      requires Meaning(Source(), World(tape[..], 0, 0, []), Given(), fuel).Done?
      modifies this`outputLength, tape, output
      ensures Valid()
      ensures Done(World(tape[..], readHead, inputHead, output[..outputLength]))
           == Meaning(Source(), World(old(tape[..]), 0, 0, []), Given(), fuel)
    {
      hide Accepted, Meaning, Step, Exec, Skip, Run, Parse, Balanced, Stuck, Opens;
      ghost var s, given := Source(), Given();
      ghost var w := World(tape[..], 0, 0, []);
      ghost var left := Simulates(s, w, given, fuel);
      ghost var last := After(s, Start(w), given, left);
      var ip := 0;
      readHead, inputHead := 0, 0;
      var returnAddress := new nat[STACK](_ => 0);
      var returnAddressTop := 0;
      outputLength := 0;
      ghost var st := Start(w);
      NoneOpen(s);
      while ip < programLength
        invariant Valid() && s == Source() && given == Given() && inputHead <= |given|
        invariant 0 <= returnAddressTop <= STACK && 0 <= ip <= programLength
        invariant st == State(ip, returnAddress[..returnAddressTop],
                              World(tape[..], readHead, inputHead, output[..outputLength]))
        invariant After(s, st, given, left) == last
        invariant st.stack == Opens(s, ip)
        decreases left
      {
        StepKeepsOpens(s, st, given);
        st := Step(s, st, given).value;
        left := left - 1;
        ip, returnAddressTop, readHead, inputHead := Iterate(ip, returnAddress, returnAddressTop, readHead, inputHead);
      }
    }
  }

  lemma OpenStep(s: seq<int>, st: State, input: seq<int>)
    requires st.ip < |s| && s[st.ip] == OPEN && Step(s, st, input).Some?
    ensures OnTape(st.w)
    ensures Cell(st.w) != 0 ==>
      |st.stack| < STACK && Step(s, st, input) == Some(State(st.ip + 1, st.stack + [st.ip], st.w))
    ensures Cell(st.w) == 0 ==>
      Skip(s, st.ip, 1).Some? && Step(s, st, input) == Some(State(Skip(s, st.ip, 1).value + 1, st.stack, st.w))
  {
  }

  lemma CloseStep(s: seq<int>, st: State, input: seq<int>)
    requires st.ip < |s| && s[st.ip] == CLOSE && Step(s, st, input).Some?
    ensures OnTape(st.w) && st.stack != []
    ensures Cell(st.w) == 0 ==> Step(s, st, input) == Some(State(st.ip + 1, st.stack[..|st.stack| - 1], st.w))
    ensures Cell(st.w) != 0 ==> Step(s, st, input) == Some(State(st.stack[|st.stack| - 1] + 1, st.stack, st.w))
  {
  }

  lemma OtherStep(s: seq<int>, st: State, input: seq<int>)
    requires st.ip < |s| && s[st.ip] != OPEN && s[st.ip] != CLOSE && Step(s, st, input).Some?
    ensures Exec(s[st.ip], st.w, input).Some?
    ensures Step(s, st, input) == Some(State(st.ip + 1, st.stack, Exec(s[st.ip], st.w, input).value))
  {
  }

  lemma NoneOpen(s: seq<int>)
    ensures Opens(s, 0) == []
  {
  }
}
