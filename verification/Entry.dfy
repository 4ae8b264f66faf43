// From the syntax tree of a program through the builder's records and the mutating generator to a
// module that runs as the program does.
module Entry {
  import opened Wrappers
  import opened Source
  import opened Lowering
  import opened Compile
  import opened AstBuilder
  import opened CodeGen
  import opened Acceptance
  import Ast

  // What the source does at fuel k, some number of machine steps of u shows.
  ghost predicate Matched(p: Ast.Program, u: Unit, k: nat)
    requires Bootable(u)
  {
    exists n: nat :: Mirrors(u, k, RunMain(p, k), n)
  }

  ghost predicate Faithful(p: Ast.Program, u: Unit)
    requires Bootable(u)
  {
    forall k: nat :: Matched(p, u, k)
  }

  lemma AcceptedFaithful(p: Ast.Program)
    requires Accepted(p)
    ensures Faithful(p, UnitOf(p))
  {
    hide Mirrors, RunMain;
    var u := UnitOf(p);
    forall k: nat
      ensures Matched(p, u, k)
    {
      var n := SimMain(p, k);
    }
  }

  // The parser derives at least one declaration or function, and no empty name.
  method CodeGenEntry(p: Ast.Program) returns (g: Generator, ok: bool)
    requires p != [] && ProgNamed(p)
    ensures fresh(g)
    ensures ok <==> GenProgram(p).Some?
    ensures ok <==> CheckProgram(p).Some?
    ensures ok ==> GenProgram(p) == Some(Unit(g.env.globals, g.fns))
    ensures ok && Bootable(Unit(g.env.globals, g.fns)) ==> Faithful(p, Unit(g.env.globals, g.fns))
  {
    hide ProgReadable, ProgNamed, DecodeProg, GenProgram, CheckProgram, RunMain;
    DecodeBuiltProg(p);
    ChecksProgram(p);
    g := new Generator();
    var r := g.CodeGenProgram(ProgOf(p));
    ok := r.Some?;
    if ok && Bootable(Unit(g.env.globals, g.fns)) {
      AcceptedFaithful(p);
    }
  }
}
