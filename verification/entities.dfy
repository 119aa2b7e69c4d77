/** The entities of the asset catalogue: assets, the vehicle an asset may
    own, and the location an asset refers to by foreign key. */
module Entities {
  import opened Text

  datatype Option<+T> = None | Some(value: T)

  /** A location is only a foreign-key target here. */
  datatype Location = Location(id: int)

  /** A vehicle row. `assetId` is the foreign key to the owning asset;
      `asset` is the navigation back to that asset object, named by the id of
      the object it points to (None is a null reference). */
  datatype Vehicle = Vehicle(id: int, license: Option<string>, assetId: Option<int>, asset: Option<int>)

  /** An asset. `location` is the embedded Location object a request may
      carry; `vehicle` is the navigation to the owned vehicle. */
  datatype Asset = Asset(
    id: int,
    name: Option<string>,
    locationId: Option<int>,
    location: Option<Location>,
    vehicle: Option<Vehicle>)

  /** The licence-plate predicate of the search: the vehicle's licence,
      lower-cased, contains the lower-cased plate. A vehicle without a
      licence never matches. */
  predicate LicenseMatches(v: Vehicle, plate: string) {
    v.license.Some? && Contains(Lower(v.license.value), Lower(plate))
  }

  /** The match ignores the case of the plate and of the licence. */
  lemma LicenseMatchIgnoresCase(v: Vehicle, plate: string)
    requires v.license.Some?
    ensures LicenseMatches(v, Lower(plate)) == LicenseMatches(v, plate)
    ensures LicenseMatches(v.(license := Some(Lower(v.license.value))), plate) == LicenseMatches(v, plate)
  {
    LowerIdempotent(plate);
    LowerIdempotent(v.license.value);
  }

  /** A match means the lower-cased plate occurs somewhere in the lower-cased licence. */
  lemma LicenseMatchOccurs(v: Vehicle, plate: string)
    requires v.license.Some?
    ensures LicenseMatches(v, plate) <==> OccursIn(Lower(v.license.value), Lower(plate))
  {
    ContainsIff(Lower(v.license.value), Lower(plate));
  }

  /** The first vehicle of a table whose foreign key names asset `k`. */
  function OwnedVehicle(vs: seq<Vehicle>, k: int): (r: Option<Vehicle>)
    ensures r.Some? ==> r.value in vs && r.value.assetId == Some(k)
    ensures r.None? ==> forall v :: v in vs ==> v.assetId != Some(k)
  {
    if vs == [] then None
    else if vs[0].assetId == Some(k) then Some(vs[0])
    else OwnedVehicle(vs[1..], k)
  }

  /** The ids of a list of assets. */
  function IdSet(xs: seq<Asset>): set<int> {
    set a | a in xs :: a.id
  }

  predicate NoDuplicateIds(xs: seq<Asset>) {
    forall i, j :: 0 <= i < j < |xs| ==> xs[i].id != xs[j].id
  }

  lemma IdSetAppend(xs: seq<Asset>, a: Asset)
    ensures IdSet(xs + [a]) == IdSet(xs) + {a.id}
  {
    assert forall b :: b in xs + [a] <==> b in xs || b == a;
  }
}
