/** The reference sanitiser of the read paths: it breaks the
    Asset -> Vehicle -> Asset cycle by clearing the vehicle's back-reference
    before an asset is returned. */
module Sanitiser {
  import opened Entities

  /** The asset cannot reach itself again through its vehicle. */
  predicate NoBackRef(a: Asset) {
    a.vehicle.None? || a.vehicle.value.asset.None?
  }

  predicate NoBackRefs(xs: seq<Asset>) {
    forall j :: 0 <= j < |xs| ==> NoBackRef(xs[j])
  }

  /** One asset with its vehicle's back-reference cleared. Only that
      reference changes: the asset's own fields, whether it has a vehicle,
      and the vehicle's other fields (its foreign key included) stay. */
  function Sanitised(a: Asset): (r: Asset)
    ensures NoBackRef(r)
    ensures r == a.(vehicle := r.vehicle)
    ensures r.vehicle.Some? <==> a.vehicle.Some?
    ensures r.vehicle.Some? ==> r.vehicle.value.(asset := a.vehicle.value.asset) == a.vehicle.value
  {
    if a.vehicle.Some? then a.(vehicle := Some(a.vehicle.value.(asset := None))) else a
  }

  /** Sanitising is idempotent, and it leaves an asset without a
      back-reference as it is. */
  lemma SanitisedIdempotent(a: Asset)
    ensures Sanitised(Sanitised(a)) == Sanitised(a)
    ensures NoBackRef(a) ==> Sanitised(a) == a
  {
  }

  /** The loop of the read paths: every asset of the list gets its vehicle's
      back-reference cleared, in order. */
  method BreakCycles(xs: seq<Asset>) returns (ys: seq<Asset>)
    ensures |ys| == |xs|
    ensures forall j :: 0 <= j < |xs| ==> ys[j] == Sanitised(xs[j])
    ensures NoBackRefs(ys)
    ensures IdSet(ys) == IdSet(xs)
  {
    ys := [];
    for i := 0 to |xs|
      invariant |ys| == i
      invariant forall j :: 0 <= j < i ==> ys[j] == Sanitised(xs[j])
      invariant IdSet(ys) == IdSet(xs[..i])
    {
      IdSetAppend(ys, Sanitised(xs[i]));
      IdSetAppend(xs[..i], xs[i]);
      assert xs[..i + 1] == xs[..i] + [xs[i]];
      ys := ys + [Sanitised(xs[i])];
    }
    assert xs[..|xs|] == xs;
  }
}
