/** The two in-memory list operations of the search: narrowing a result list
    to one location, and dropping repeated assets. */
module Lists {
  import opened Entities

  /** The assets of `xs` whose LocationId equals `loc`, in their order. An
      asset without a location never matches. */
  function AtLocation(xs: seq<Asset>, loc: int): (r: seq<Asset>)
    ensures forall a :: a in r <==> a in xs && a.locationId == Some(loc)
    ensures |r| <= |xs|
  {
    if xs == [] then []
    else if xs[0].locationId == Some(loc) then [xs[0]] + AtLocation(xs[1..], loc)
    else AtLocation(xs[1..], loc)
  }

  /** The list with repeated assets dropped: one asset of each id remains,
      and a list without repeats comes back unchanged. */
  method Distinct(xs: seq<Asset>) returns (ys: seq<Asset>)
    ensures NoDuplicateIds(ys)
    ensures IdSet(ys) == IdSet(xs)
    ensures forall j :: 0 <= j < |ys| ==> ys[j] in xs
    ensures NoDuplicateIds(xs) ==> ys == xs
  {
    var seen: set<int> := {};
    ys := [];
    for i := 0 to |xs|
      invariant seen == IdSet(ys) == IdSet(xs[..i])
      invariant NoDuplicateIds(ys)
      invariant forall j :: 0 <= j < |ys| ==> ys[j] in xs[..i]
      invariant NoDuplicateIds(xs) ==> ys == xs[..i]
    {
      assert xs[..i + 1] == xs[..i] + [xs[i]];
      IdSetAppend(xs[..i], xs[i]);
      if xs[i].id !in seen {
        IdSetAppend(ys, xs[i]);
        ys := ys + [xs[i]];
        seen := seen + {xs[i].id};
      }
    }
    assert xs[..|xs|] == xs;
  }
}
