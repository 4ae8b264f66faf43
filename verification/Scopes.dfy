// Stacks of name layers, innermost last. The compiler's `_nested_named_values` and the
// run-time environments of the source semantics are both such stacks.
module Scopes {
  import opened Wrappers

  // The innermost layer that binds `x`: the top layer is searched first.
  function Find<T>(layers: seq<map<string, T>>, x: string): (r: Option<nat>)
    ensures r.Some? ==> r.value < |layers| && x in layers[r.value]
    ensures forall l | (if r.Some? then r.value + 1 else 0) <= l < |layers| :: x !in layers[l]
  {
    if |layers| == 0 then None
    else if x in layers[|layers| - 1] then Some(|layers| - 1)
    else Find(layers[..|layers| - 1], x)
  }

  // Two stacks with the same names resolve every name to the same layer.
  lemma {:induction false} FindSameNames<S, T>(a: seq<map<string, S>>, b: seq<map<string, T>>, x: string)
    requires |a| == |b|
    requires forall l | 0 <= l < |a| :: a[l].Keys == b[l].Keys
    ensures Find(a, x) == Find(b, x)
  {
    if a == [] {
    } else {
      var n := |a| - 1;
      assert a[n].Keys == b[n].Keys;
      forall l | 0 <= l < n
        ensures a[..n][l].Keys == b[..n][l].Keys
      {
        assert a[l].Keys == b[l].Keys;
      }
      FindSameNames(a[..n], b[..n], x);
    }
  }
}
