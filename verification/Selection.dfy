/**
  Filtering a sequence, described by the positions of the entries it keeps:
  the meaning of a loop that appends, in order, one output per accepted input.
 */
module Selection {

  /** The positions of the entries of `s` that `keep` accepts, in increasing order. */
  function Positions<T>(s: seq<T>, keep: T -> bool): (idx: seq<nat>)
    ensures |idx| <= |s|
    ensures forall j :: 0 <= j < |idx| ==> idx[j] < |s| && keep(s[idx[j]])
    ensures forall j, j' :: 0 <= j < j' < |idx| ==> idx[j] < idx[j']
    ensures forall i :: 0 <= i < |s| && keep(s[i]) ==> i in idx
  {
    if |s| == 0 then
      []
    else
      var last := |s| - 1;
      var before := Positions(s[..last], keep);
      assert forall i :: 0 <= i < last ==> s[..last][i] == s[i];
      if keep(s[last]) then before + [last] else before
  }

  /** Every entry is kept exactly when the positions are all of them. */
  lemma {:induction false} AllKeptIffAllPositions<T>(s: seq<T>, keep: T -> bool)
    ensures |Positions(s, keep)| == |s| <==> forall i :: 0 <= i < |s| ==> keep(s[i])
  {
    if |s| > 0 {
      var last := |s| - 1;
      var init := s[..last];
      var before := Positions(init, keep);
      AllKeptIffAllPositions(init, keep);
      assert Positions(s, keep) == if keep(s[last]) then before + [last] else before;
      assert forall i :: 0 <= i < last ==> init[i] == s[i];
      // All are kept exactly when the last one is and all before it are.
      assert |Positions(s, keep)| == |s| <==> keep(s[last]) && |before| == last;
    }
  }

  /** Whether `r` lists exactly the entries of `s` that `keep` accepts, in order. */
  predicate Selects<T(==)>(s: seq<T>, keep: T -> bool, r: seq<T>)
  {
    var idx := Positions(s, keep);
    |r| == |idx| && forall j :: 0 <= j < |r| ==> r[j] == s[idx[j]]
  }

  /** Selecting from `s + [x]` is selecting from `s` and then taking `x` if it is kept. */
  lemma SelectsSnoc<T>(s: seq<T>, keep: T -> bool, r0: seq<T>)
    requires |s| > 0 && Selects(s[..|s| - 1], keep, r0)
    ensures Selects(s, keep, r0 + if keep(s[|s| - 1]) then [s[|s| - 1]] else [])
  {
    var last := |s| - 1;
    var init := s[..last];
    var idx0 := Positions(init, keep);
    var idx := Positions(s, keep);
    var r := r0 + if keep(s[last]) then [s[last]] else [];
    assert idx == idx0 + (if keep(s[last]) then [last] else []);
    forall j | 0 <= j < |r0| ensures r[j] == s[idx[j]] {
      assert init[idx0[j]] == s[idx0[j]];
    }
  }
}
