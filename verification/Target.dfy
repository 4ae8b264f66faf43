// The part of LLVM IR the compiler emits, and a machine that runs it one instruction at a
// time. A function's allocas always stand at the front of its entry block and so run before
// anything else; they are kept apart, as the table `slots`. A block runs up to its first
// terminator: whatever was emitted after it is dead.
module Target {
  import opened Wrappers
  import opened Int64

  datatype Operand =
    | CInt(i: int)
    | CBool(b: bool)
    | Reg(r: nat)
    | Arg(a: nat)
    | Slot(s: nat)
    | Glob(x: string)

  datatype AluOp = AAdd | ASub | AMul | ASDiv | ASRem

  datatype Cond = CEq | CNe | CSlt | CSgt | CSle | CSge

  // What a value-producing instruction that touches no memory computes.
  datatype Rhs =
    | Alu(aop: AluOp, a: Operand, b: Operand)
    | ICmp(cond: Cond, a: Operand, b: Operand)
    | ZExt(a: Operand)
    | Select(c: Operand, a: Operand, b: Operand)
    | Gep(base: Operand, idx: Operand)

  datatype Instr =
    | Set(dst: nat, rhs: Rhs)
    | Load(dst: nat, ptr: Operand)
    | Store(val: Operand, ptr: Operand)
    | Call(dst: nat, f: string, args: seq<Operand>)
    | Br(b: nat)
    | CondBr(c: Operand, t: nat, e: nat)
    | Ret(v: Operand)
    | RetVoid

  type Code = seq<Instr>

  datatype Kind = KScalar | KArray(n: nat) | KPtr

  function Cells(k: Kind): nat {
    if k.KArray? then k.n else 1
  }

  datatype Fn = Fn(arity: nat, slots: seq<Kind>, blocks: seq<Code>)

  type Module = map<string, Fn>

  // ----- run-time state -----

  // A pointer names the call depth of the frame, the slot in it and the cell in the slot.
  datatype TVal =
    | TInt(i: int)
    | TBool(b: bool)
    | TPtr(depth: int, slot: nat, off: int)
    | TGlob(x: string)
    | TUndef

  type Frame = seq<seq<TVal>>

  datatype Act = Act(fname: string, depth: int, args: seq<TVal>, regs: map<nat, TVal>, code: Code)

  datatype Saved = Saved(act: Act, dst: nat)

  datatype Config =
    | Running(cur: Act, stack: seq<Saved>, frames: seq<Frame>, globals: map<string, int>)
    | Halted(v: TVal, final: map<string, int>)

  function Operate(op: AluOp, a: int, b: int): Option<int> {
    match op
    case AAdd => Some(Wrap(a + b))
    case ASub => Some(Wrap(a - b))
    case AMul => Some(Wrap(a * b))
    case ASDiv => if Divides(a, b) then Some(Quotient(a, b)) else None
    case ASRem => if Divides(a, b) then Some(Remainder(a, b)) else None
  }

  predicate Compare(c: Cond, a: int, b: int) {
    match c
    case CEq => a == b
    case CNe => a != b
    case CSlt => a < b
    case CSgt => a > b
    case CSle => a <= b
    case CSge => a >= b
  }

  function OpVal(a: Act, o: Operand): TVal {
    match o
    case CInt(i) => TInt(i)
    case CBool(b) => TBool(b)
    case Reg(r) => if r in a.regs then a.regs[r] else TUndef
    case Arg(i) => if i < |a.args| then a.args[i] else TUndef
    case Slot(s) => TPtr(a.depth, s, 0)
    case Glob(x) => TGlob(x)
  }

  function OpVals(a: Act, os: seq<Operand>): (vs: seq<TVal>)
    ensures |vs| == |os|
  {
    seq(|os|, i requires 0 <= i < |os| => OpVal(a, os[i]))
  }

  function RhsVal(a: Act, rhs: Rhs): Option<TVal> {
    match rhs
    case Alu(op, x, y) =>
      (match (OpVal(a, x), OpVal(a, y))
       case (TInt(i), TInt(j)) => if Operate(op, i, j).Some? then Some(TInt(Operate(op, i, j).value)) else None
       case _ => None)
    case ICmp(c, x, y) =>
      (match (OpVal(a, x), OpVal(a, y))
       case (TInt(i), TInt(j)) => Some(TBool(Compare(c, i, j)))
       case _ => None)
    case ZExt(x) =>
      (match OpVal(a, x)
       case TBool(b) => Some(TInt(if b then 1 else 0))
       case _ => None)
    case Select(c, x, y) =>
      (match OpVal(a, c)
       case TBool(b) => Some(if b then OpVal(a, x) else OpVal(a, y))
       case _ => None)
    case Gep(p, x) =>
      match (OpVal(a, p), OpVal(a, x))
      case (TPtr(d, s, o), TInt(i)) => Some(TPtr(d, s, o + i))
      case _ => None
  }

  predicate InFrames(frames: seq<Frame>, d: int, s: nat, o: int) {
    0 <= d < |frames| && s < |frames[d]| && 0 <= o < |frames[d][s]|
  }

  function ReadMem(c: Config, p: TVal): Option<TVal>
    requires c.Running?
  {
    match p
    case TPtr(d, s, o) => if InFrames(c.frames, d, s, o) then Some(c.frames[d][s][o]) else None
    case TGlob(x) => if x in c.globals then Some(TInt(c.globals[x])) else None
    case _ => None
  }

  function SetCell(frames: seq<Frame>, d: int, s: nat, o: int, v: TVal): seq<Frame>
    requires InFrames(frames, d, s, o)
  {
    frames[d := frames[d][s := frames[d][s][o := v]]]
  }

  function WriteMem(c: Config, p: TVal, v: TVal): Option<Config>
    requires c.Running?
  {
    match (p, v)
    case (TPtr(d, s, o), _) =>
      if InFrames(c.frames, d, s, o) then Some(c.(frames := SetCell(c.frames, d, s, o, v))) else None
    case (TGlob(x), TInt(i)) => if x in c.globals then Some(c.(globals := c.globals[x := i])) else None
    case _ => None
  }

  // Every alloca of the function has run and nothing has been stored yet.
  function NewFrame(slots: seq<Kind>): (f: Frame)
    ensures |f| == |slots| && forall s | 0 <= s < |f| :: |f[s]| == Cells(slots[s])
  {
    seq(|slots|, s requires 0 <= s < |slots| => seq(Cells(slots[s]), _ => TUndef))
  }

  function SetReg(a: Act, dst: nat, v: TVal): Act {
    a.(regs := a.regs[dst := v])
  }

  function Jump(m: Module, c: Config, b: nat): Option<Config>
    requires c.Running?
  {
    if c.cur.fname in m && b < |m[c.cur.fname].blocks|
    then Some(c.(cur := c.cur.(code := m[c.cur.fname].blocks[b])))
    else None
  }

  function Enter(m: Module, c: Config, f: string, args: seq<TVal>, next: Act, dst: nat): Option<Config>
    requires c.Running?
  {
    if f in m && m[f].arity == |args| && m[f].blocks != []
    then Some(Running(Act(f, |c.frames|, args, map[], m[f].blocks[0]),
                      c.stack + [Saved(next, dst)],
                      c.frames + [NewFrame(m[f].slots)],
                      c.globals))
    else None
  }

  function Leave(c: Config, v: TVal): Option<Config>
    requires c.Running?
  {
    if c.stack == [] then Some(Halted(v, c.globals))
    else if c.frames == [] then None
    else
      var top := c.stack[|c.stack| - 1];
      Some(Running(SetReg(top.act, top.dst, v), c.stack[..|c.stack| - 1], c.frames[..|c.frames| - 1], c.globals))
  }

  // One instruction; None when the machine has halted or is stuck.
  function Step(m: Module, c: Config): Option<Config> {
    if c.Halted? || c.cur.code == [] then None
    else
      var next := c.cur.(code := c.cur.code[1..]);
      match c.cur.code[0]
      case Set(dst, rhs) =>
        var v :- RhsVal(c.cur, rhs);
        Some(c.(cur := SetReg(next, dst, v)))
      case Load(dst, p) =>
        var v :- ReadMem(c, OpVal(c.cur, p));
        Some(c.(cur := SetReg(next, dst, v)))
      case Store(v, p) =>
        WriteMem(c.(cur := next), OpVal(c.cur, p), OpVal(c.cur, v))
      case Call(dst, f, args) =>
        Enter(m, c, f, OpVals(c.cur, args), next, dst)
      case Br(b) => Jump(m, c, b)
      case CondBr(x, t, e) =>
        (match OpVal(c.cur, x)
         case TBool(b) => Jump(m, c, if b then t else e)
         case _ => None)
      case Ret(v) => Leave(c, OpVal(c.cur, v))
      case RetVoid => Leave(c, TUndef)
  }

  // The machine is stuck: it has not halted and has no next configuration.
  ghost predicate Stuck(m: Module, d: Config) {
    d.Running? && Step(m, d).None?
  }

  // `d` is where `n` steps from `c` lead.
  ghost predicate Reaches(m: Module, c: Config, n: nat, d: Config)
    decreases n
  {
    if n == 0 then c == d else Step(m, c).Some? && Reaches(m, Step(m, c).value, n - 1, d)
  }

  // The machine can make `n` steps from `c`.
  ghost predicate Endures(m: Module, c: Config, n: nat)
    decreases n
  {
    n != 0 ==> Step(m, c).Some? && Endures(m, Step(m, c).value, n - 1)
  }

  lemma {:induction false} ReachesTrans(m: Module, c: Config, a: nat, d: Config, b: nat, e: Config)
    requires Reaches(m, c, a, d) && Reaches(m, d, b, e)
    ensures Reaches(m, c, a + b, e)
    decreases a
  {
    hide Step;
    if a == 0 {
    } else {
      ReachesTrans(m, Step(m, c).value, a - 1, d, b, e);
    }
  }

  lemma EnduresNone(m: Module, c: Config)
    ensures Endures(m, c, 0)
  {
  }

  lemma {:induction false} EnduresAfter(m: Module, c: Config, a: nat, d: Config, b: nat)
    requires Reaches(m, c, a, d) && Endures(m, d, b)
    ensures Endures(m, c, a + b)
    decreases a
  {
    hide Step;
    if a == 0 {
    } else {
      EnduresAfter(m, Step(m, c).value, a - 1, d, b);
    }
  }

  lemma {:induction false} EnduresLess(m: Module, c: Config, a: nat, b: nat)
    requires a <= b && Endures(m, c, b)
    ensures Endures(m, c, a)
    decreases a
  {
    hide Step;
    if a == 0 {
    } else {
      EnduresLess(m, Step(m, c).value, a - 1, b - 1);
    }
  }

  // A step is a function, so a machine that halts or is stuck gets there in exactly one way and
  // cannot run on.
  lemma {:induction false} EndsOnce(m: Module, c: Config, a: nat, d: Config, b: nat, e: Config)
    requires Reaches(m, c, a, d) && Step(m, d).None?
    ensures Endures(m, c, b) ==> b <= a
    ensures Reaches(m, c, b, e) && Step(m, e).None? ==> a == b && d == e
    decreases a
  {
    if a == 0 || b == 0 {
    } else {
      EndsOnce(m, Step(m, c).value, a - 1, d, b - 1, e);
    }
  }
}
