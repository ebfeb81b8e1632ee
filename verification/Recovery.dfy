/** Which header slot open_paths takes over. */
module Recovery {
  import opened Wrappers

  /** The selection loop over the generations of the slots that check; None is
      a slot whose data failed its checksum. */
  function Choose(sb: Option<nat>, gens: seq<Option<nat>>): (r: Option<nat>)
    ensures r.Some? ==> r.value < |gens| && gens[r.value].Some?
  {
    if gens == [] then None
    else
      var n := |gens| - 1;
      var best := Choose(sb, gens[..n]);
      if gens[n].None? then best
      else if best.None? then Some(n)
      else if gens[n] == sb && gens[best.value] != sb then Some(n)
      else if gens[best.value] == sb then best
      else if gens[n].value > gens[best.value].value then Some(n)
      else best
  }

  /** The loop of open_paths, with best as an index. */
  method ChooseSlot(sb: Option<nat>, gens: seq<Option<nat>>) returns (best: Option<nat>)
    ensures best == Choose(sb, gens)
  {
    best := None;
    for n := 0 to |gens|
      invariant best == Choose(sb, gens[..n])
      invariant best.Some? ==> best.value < n && gens[best.value].Some?
    {
      assert gens[..n + 1][..n] == gens[..n];
      if gens[n].Some? {
        var better :=
          if best.None? then true
          else if gens[n] == sb && gens[best.value] != sb then true
          else if gens[best.value] == sb then false
          else gens[n].value > gens[best.value].value;
        if better {
          best := Some(n);
        }
      }
    }
    assert gens[..|gens|] == gens;
  }

  /** The slot taken over: none only if none checks; the first one that the
      SuperBlock names; failing that, the first of the highest generation. */
  lemma {:induction false} ChooseSpec(sb: Option<nat>, gens: seq<Option<nat>>)
    ensures var r := Choose(sb, gens);
      && (r.None? <==> forall i :: 0 <= i < |gens| ==> gens[i].None?)
      && (r.Some? && gens[r.value] == sb ==> forall i :: 0 <= i < r.value ==> gens[i] != sb)
      && (r.Some? && gens[r.value] != sb ==>
            && (forall i :: 0 <= i < |gens| && gens[i].Some? ==> gens[i] != sb && gens[i].value <= gens[r.value].value)
            && (forall i :: 0 <= i < r.value && gens[i].Some? ==> gens[i].value < gens[r.value].value))
  {
    if gens != [] {
      var n := |gens| - 1;
      ChooseSpec(sb, gens[..n]);
      assert forall i :: 0 <= i < n ==> gens[..n][i] == gens[i];
      var b, r := Choose(sb, gens[..n]), Choose(sb, gens);
      assert b.Some? ==> gens[..n][b.value] == gens[b.value];
    }
  }
}
