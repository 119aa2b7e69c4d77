/** The request handlers of the asset catalogue over an in-memory picture of
    storage: the asset table keyed by id, the vehicle table in storage order,
    and the next identity value the asset table will hand out. */
module Controllers {
  import opened Text
  import opened Entities
  import opened Sanitiser
  import opened Lists

  /** Why a handler answered with an Error envelope. */
  datatype Reason =
    | NullAsset                // no asset in the request body (or, for Add, no Name)
    | BadId                    // id missing, zero or negative
    | NoSuchAsset              // id names no stored asset
    | NoSuchAssetId(id: int)   // id names no stored asset; the message shows the id
    | ModelStateInvalid        // request validation failed

  /** The Msg envelope: Success with the number of rows the save changed, or Error. */
  datatype Msg = Success(changed: nat) | Error(reason: Reason)

  /** The reply of a mutating handler: a Msg envelope, or the bare message of
      the storage fault raised by the save. */
  datatype Outcome = Reply(msg: Msg) | Fault(message: string)

  /** The reply of Get: the asset itself, or an Error envelope. */
  datatype Fetched = Found(asset: Asset) | Rejected(reason: Reason)

  /** What the storage engine does with a save: commit, or raise a fault. */
  datatype SaveOutcome = Saved | SaveFault(message: string)

  /** A plate counts as supplied only when it is present and not empty. */
  predicate PlateSupplied(plate: Option<string>) {
    plate.Some? && plate.value != ""
  }

  /** Stored asset rows are keyed by their own positive id below the next
      identity value, and hold no embedded Location and no vehicle
      navigation: vehicles are linked through their foreign key only. An
      asset has at most one vehicle, and no foreign key names an id the
      asset table has not handed out yet. */
  ghost predicate WellFormedTable(assets: map<int, Asset>, vehicles: seq<Vehicle>, nextId: int) {
    && 0 < nextId
    && (forall k :: k in assets ==>
          0 < k < nextId && assets[k].id == k && assets[k].location.None? && assets[k].vehicle.None?)
    && (forall i, j :: 0 <= i < j < |vehicles| && vehicles[i].assetId.Some? ==>
          vehicles[i].assetId != vehicles[j].assetId)
    && (forall i :: 0 <= i < |vehicles| && vehicles[i].assetId.Some? ==> vehicles[i].assetId.value < nextId)
  }

  /** The row an Add inserts: the identity value as id, and neither the
      embedded Location nor the vehicle navigation. */
  function NewRow(input: Asset, id: int): Asset
  {
    input.(id := id, location := None, vehicle := None)
  }

  /** Copy: every mutable field of `incoming` overwrites the stored row,
      which keeps its id and its vehicle link. */
  function Copied(stored: Asset, incoming: Asset): Asset
  {
    stored.(name := incoming.name, locationId := incoming.locationId, location := incoming.location)
  }

  /** Copying the same input a second time changes nothing, so a repeated
      Change saves no row; and a Copy leaves the row as it was exactly when
      the input already agrees with it on every mutable field. */
  lemma CopyTwiceChangesNothing(stored: Asset, incoming: Asset)
    ensures Copied(Copied(stored, incoming), incoming) == Copied(stored, incoming)
    ensures Copied(stored, incoming) == stored <==>
      stored.name == incoming.name && stored.locationId == incoming.locationId && stored.location == incoming.location
    ensures Copied(stored, incoming).id == stored.id && Copied(stored, incoming).vehicle == stored.vehicle
  {
  }

  /** A set that is not empty has an element. */
  lemma HasElement(s: set<int>)
    ensures s == {} || exists x :: x in s
  {
    if !exists x :: x in s {
      assert s == {};
    }
  }

  class AssetsController {
    var assets: map<int, Asset>
    var vehicles: seq<Vehicle>
    var nextId: int

    ghost predicate Valid()
      reads this
    {
      WellFormedTable(assets, vehicles, nextId)
    }

    /** A request's context over the tables as storage holds them. */
    constructor (assets: map<int, Asset>, vehicles: seq<Vehicle>, nextId: int)
      requires WellFormedTable(assets, vehicles, nextId)
      ensures Valid()
      ensures this.assets == assets && this.vehicles == vehicles && this.nextId == nextId
    {
      this.assets := assets;
      this.vehicles := vehicles;
      this.nextId := nextId;
    }

    /** A vehicle as a query returns it: its back-reference points to the
        asset its foreign key names, or is null when no such asset is stored. */
    function LoadVehicle(v: Vehicle): Vehicle
      reads this
    {
      v.(asset := if v.assetId.Some? && v.assetId.value in assets then v.assetId else None)
    }

    /** An asset as a query returns it: the stored row with its vehicle
        attached, that vehicle pointing back to the asset. */
    function Load(k: int): (a: Asset)
      reads this
      requires k in assets
      ensures a == assets[k].(vehicle := a.vehicle)
      ensures a.vehicle.Some? ==> a.vehicle.value.assetId == Some(k) && a.vehicle.value.asset == Some(k)
      ensures a.vehicle.Some? ==> exists v :: v in vehicles && a.vehicle.value == LoadVehicle(v)
      ensures a.vehicle.None? ==> forall v :: v in vehicles ==> v.assetId != Some(k)
    {
      match OwnedVehicle(vehicles, k)
      case None => assets[k].(vehicle := None)
      case Some(v) => assets[k].(vehicle := Some(LoadVehicle(v)))
    }

    /** Loading builds the cycle the sanitiser breaks: a loaded asset with a
        vehicle is reached again through that vehicle's back-reference. */
    lemma LoadedAssetHasCycle(k: int)
      requires Valid() && k in assets
      requires exists v :: v in vehicles && v.assetId == Some(k)
      ensures Load(k).id == k
      ensures Load(k).vehicle.Some? && Load(k).vehicle.value.asset == Some(k)
      ensures !NoBackRef(Load(k)) && NoBackRef(Sanitised(Load(k)))
    {
    }

    /** A stored asset loads with the one vehicle whose foreign key names it. */
    lemma LoadAttachesItsVehicle(k: int, i: int)
      requires Valid() && k in assets
      requires 0 <= i < |vehicles| && vehicles[i].assetId == Some(k)
      ensures Load(k).vehicle == Some(LoadVehicle(vehicles[i]))
      ensures Load(k).vehicle.value.license == vehicles[i].license
    {
      var owned := OwnedVehicle(vehicles, k);
      var j :| 0 <= j < |vehicles| && vehicles[j] == owned.value;
      assert vehicles[j].assetId == vehicles[i].assetId;
    }

    /** The ids of the stored assets owning a vehicle of `vs` whose licence
        matches the plate; vehicles whose back-reference is null add nothing. */
    function PlateOwnersIn(vs: seq<Vehicle>, plate: string): set<int>
      reads this
    {
      set v | v in vs && LicenseMatches(v, plate) && LoadVehicle(v).asset.Some? :: LoadVehicle(v).asset.value
    }

    function PlateOwners(plate: string): set<int>
      reads this
    {
      PlateOwnersIn(vehicles, plate)
    }

    /** A plate match reaches exactly the stored assets named by the foreign
        key of some matching vehicle. */
    lemma PlateOwnersByForeignKey(plate: string, k: int)
      ensures k in PlateOwners(plate) <==>
        k in assets && exists v :: v in vehicles && v.assetId == Some(k) && LicenseMatches(v, plate)
    {
      if k in assets && exists v :: v in vehicles && v.assetId == Some(k) && LicenseMatches(v, plate) {
        var v :| v in vehicles && v.assetId == Some(k) && LicenseMatches(v, plate);
        assert LoadVehicle(v).asset == Some(k);
      }
    }

    /** Every loaded owner the plate filter reaches carries the vehicle whose
        licence matched. */
    lemma PlateHitsCarryTheirVehicle(plate: string, xs: seq<Asset>)
      requires Valid()
      requires forall j :: 0 <= j < |xs| ==> xs[j].id in assets && xs[j] == Sanitised(Load(xs[j].id))
      requires IdSet(xs) <= PlateOwners(plate)
      ensures forall j :: 0 <= j < |xs| ==> xs[j].vehicle.Some? && LicenseMatches(xs[j].vehicle.value, plate)
    {
      forall j | 0 <= j < |xs|
        ensures xs[j].vehicle.Some? && LicenseMatches(xs[j].vehicle.value, plate)
      {
        var k := xs[j].id;
        assert k in IdSet(xs);
        PlateOwnersByForeignKey(plate, k);
        var v :| v in vehicles && v.assetId == Some(k) && LicenseMatches(v, plate);
        var i :| 0 <= i < |vehicles| && vehicles[i] == v;
        LoadAttachesItsVehicle(k, i);
      }
    }

    /** The plate search ignores the case of the plate. */
    lemma PlateSearchIgnoresCase(plate: string)
      ensures PlateOwners(Lower(plate)) == PlateOwners(plate)
    {
      forall v | v in vehicles
        ensures LicenseMatches(v, Lower(plate)) == LicenseMatches(v, plate)
      {
        if v.license.Some? {
          LicenseMatchIgnoresCase(v, plate);
        }
      }
    }

    /** The ids of the stored assets whose LocationId equals `loc`. */
    function LocatedAt(loc: int): set<int>
      reads this
    {
      set k | k in assets && assets[k].locationId == Some(loc)
    }

    /** Whether the stored asset `k` is one a query with this optional
        location filter returns. */
    predicate Selected(k: int, location: Option<int>)
      reads this
    {
      k in assets && (location.None? || assets[k].locationId == location)
    }

    /** A query over the asset table, optionally filtered on LocationId. The
        order in which storage returns rows is not specified, so each step
        takes any row not yet visited. */
    method Query(location: Option<int>) returns (rows: seq<Asset>)
      requires Valid()
      ensures NoDuplicateIds(rows)
      ensures IdSet(rows) == set k | k in assets && Selected(k, location)
      ensures forall j :: 0 <= j < |rows| ==> rows[j].id in assets && rows[j] == Load(rows[j].id)
    {
      var remaining := assets.Keys;
      rows := [];
      while remaining != {}
        invariant remaining <= assets.Keys
        invariant NoDuplicateIds(rows)
        invariant IdSet(rows) == set k | k in assets && k !in remaining && Selected(k, location)
        invariant forall j :: 0 <= j < |rows| ==> rows[j].id in assets && rows[j].id !in remaining && rows[j] == Load(rows[j].id)
        decreases remaining
      {
        HasElement(remaining);
        var k :| k in remaining;
        if Selected(k, location) {
          IdSetAppend(rows, Load(k));
          rows := rows + [Load(k)];
        }
        remaining := remaining - {k};
      }
    }

    /** Get: reject a missing or non-positive id, then an unknown one;
        otherwise return the stored asset with its cycle broken. Storage is
        not changed. */
    method Get(id: Option<int>) returns (r: Fetched)
      requires Valid()
      ensures id.None? || id.value <= 0 ==> r == Rejected(BadId)
      ensures id.Some? && id.value > 0 && id.value !in assets ==> r == Rejected(NoSuchAsset)
      ensures id.Some? && id.value in assets ==>
        r.Found? && r.asset.id == id.value && r.asset == Sanitised(Load(id.value)) && NoBackRef(r.asset)
    {
      if id.None? || id.value <= 0 {
        return Rejected(BadId);
      }
      if id.value !in assets {
        return Rejected(NoSuchAsset);
      }
      var asset := Load(id.value);
      asset := Sanitised(asset);
      r := Found(asset);
    }

    /** List: every stored asset exactly once, each with its cycle broken. */
    method List() returns (rows: seq<Asset>)
      requires Valid()
      ensures NoDuplicateIds(rows) && NoBackRefs(rows)
      ensures IdSet(rows) == assets.Keys
      ensures forall j :: 0 <= j < |rows| ==> rows[j].id in assets && rows[j] == Sanitised(Load(rows[j].id))
    {
      var loaded := Query(None);
      rows := BreakCycles(loaded);
    }

    /** Search: the plate filter collects the owners of matching vehicles;
        the location filter then narrows that list if the plate filter ran,
        or else loads the assets at that location. Without either filter the
        result is empty. The result is sanitised and free of repeated assets. */
    method Search(licensePlate: Option<string>, location: Option<int>) returns (result: seq<Asset>)
      requires Valid()
      ensures NoDuplicateIds(result) && NoBackRefs(result)
      ensures forall j :: 0 <= j < |result| ==> result[j].id in assets && result[j] == Sanitised(Load(result[j].id))
      ensures !PlateSupplied(licensePlate) && location.None? ==> result == []
      ensures PlateSupplied(licensePlate) && location.None? ==> IdSet(result) == PlateOwners(licensePlate.value)
      ensures !PlateSupplied(licensePlate) && location.Some? ==> IdSet(result) == LocatedAt(location.value)
      ensures PlateSupplied(licensePlate) && location.Some? ==>
        IdSet(result) == PlateOwners(licensePlate.value) * LocatedAt(location.value)
      ensures location.Some? ==> forall j :: 0 <= j < |result| ==> result[j].locationId == location
      ensures PlateSupplied(licensePlate) ==> forall j :: 0 <= j < |result| ==>
        result[j].vehicle.Some? && LicenseMatches(result[j].vehicle.value, licensePlate.value)
    {
      var previousSearch := false;
      var found: seq<Asset> := [];

      if PlateSupplied(licensePlate) {
        previousSearch := true;
        var plate := licensePlate.value;
        // The query's Where and the loop over its results, in one pass over the table.
        for i := 0 to |vehicles|
          invariant forall j :: 0 <= j < |found| ==> found[j].id in assets && found[j] == Load(found[j].id)
          invariant IdSet(found) == PlateOwnersIn(vehicles[..i], plate)
        {
          assert vehicles[..i + 1] == vehicles[..i] + [vehicles[i]];
          var vehicle := LoadVehicle(vehicles[i]);
          if LicenseMatches(vehicle, plate) && vehicle.asset.Some? {
            IdSetAppend(found, Load(vehicle.asset.value));
            found := found + [Load(vehicle.asset.value)];
          }
        }
        assert vehicles[..|vehicles|] == vehicles;
      }

      if location.Some? {
        if previousSearch {
          found := AtLocation(found, location.value);
        } else {
          previousSearch := true;
          var rows := Query(location);
          assert (set k | k in assets && Selected(k, location)) == LocatedAt(location.value);
          assert found + rows == rows;
          found := found + rows;
        }
      }

      found := BreakCycles(found);
      result := Distinct(found);

      if location.Some? {
        forall j | 0 <= j < |result|
          ensures result[j].locationId == location
        {
          assert result[j].id in IdSet(result);
        }
      }
      if PlateSupplied(licensePlate) {
        PlateHitsCarryTheirVehicle(licensePlate.value, result);
      }
    }

    /** Add: reject a missing asset or a missing Name, then an invalid
        request; otherwise insert the asset under the next identity value,
        without its embedded Location, and save. */
    method Add(input: Option<Asset>, modelStateValid: bool, save: SaveOutcome) returns (r: Outcome)
      requires Valid()
      modifies this
      ensures Valid()
      ensures vehicles == old(vehicles)
      ensures input.None? || input.value.name.None? ==> r == Reply(Error(NullAsset)) && unchanged(this)
      ensures input.Some? && input.value.name.Some? && !modelStateValid ==>
        r == Reply(Error(ModelStateInvalid)) && unchanged(this)
      ensures input.Some? && input.value.name.Some? && modelStateValid && save.SaveFault? ==>
        r == Fault(save.message) && unchanged(this)
      ensures input.Some? && input.value.name.Some? && modelStateValid && save.Saved? ==>
        && r == Reply(Success(1))
        && old(nextId) !in old(assets)
        && assets == old(assets)[old(nextId) := NewRow(input.value, old(nextId))]
        && |assets| == |old(assets)| + 1
        && nextId == old(nextId) + 1
    {
      if input.None? || input.value.name.None? {
        return Reply(Error(NullAsset));
      }
      // The embedded Location is never inserted.
      var asset := input.value.(location := None);
      if !modelStateValid {
        return Reply(Error(ModelStateInvalid));
      }
      if save.SaveFault? {
        return Fault(save.message);
      }
      var id := nextId;
      assets := assets[id := NewRow(asset, id)];
      nextId := nextId + 1;
      r := Reply(Success(1));
    }

    /** Change: reject a missing asset, then an id that names no stored
        asset; otherwise copy the incoming fields, without its embedded
        Location, onto the stored asset and save if the request is valid. */
    method Change(input: Option<Asset>, modelStateValid: bool, save: SaveOutcome) returns (r: Outcome)
      requires Valid()
      modifies this
      ensures Valid()
      ensures vehicles == old(vehicles) && nextId == old(nextId)
      ensures input.None? ==> r == Reply(Error(NullAsset)) && unchanged(this)
      ensures input.Some? && input.value.id !in old(assets) ==>
        r == Reply(Error(NoSuchAssetId(input.value.id))) && unchanged(this)
      ensures input.Some? && input.value.id in old(assets) && !modelStateValid ==>
        r == Reply(Error(ModelStateInvalid)) && unchanged(this)
      ensures input.Some? && input.value.id in old(assets) && modelStateValid && save.SaveFault? ==>
        r == Fault(save.message) && unchanged(this)
      ensures input.Some? && input.value.id in old(assets) && modelStateValid && save.Saved? ==>
        var k := input.value.id;
        var updated := Copied(old(assets)[k], input.value.(location := None));
        && assets == old(assets)[k := updated]
        && assets.Keys == old(assets).Keys
        && assets[k].name == input.value.name && assets[k].locationId == input.value.locationId
        && r == Reply(Success(if updated == old(assets)[k] then 0 else 1))
    {
      if input.None? {
        return Reply(Error(NullAsset));
      }
      // The embedded Location is never inserted.
      var asset := input.value.(location := None);
      if asset.id !in assets {
        return Reply(Error(NoSuchAssetId(asset.id)));
      }
      var stored := assets[asset.id];
      var updated := Copied(stored, asset);
      if !modelStateValid {
        return Reply(Error(ModelStateInvalid));
      }
      if save.SaveFault? {
        return Fault(save.message);
      }
      assets := assets[asset.id := updated];
      r := Reply(Success(if updated == stored then 0 else 1));
    }

    /** Remove: reject a missing or non-positive id, then an unknown one;
        otherwise delete exactly that asset and save. */
    method Remove(id: Option<int>, save: SaveOutcome) returns (r: Outcome)
      requires Valid()
      modifies this
      ensures Valid()
      ensures vehicles == old(vehicles) && nextId == old(nextId)
      ensures id.None? || id.value <= 0 ==> r == Reply(Error(BadId)) && unchanged(this)
      ensures id.Some? && id.value > 0 && id.value !in old(assets) ==>
        r == Reply(Error(NoSuchAsset)) && unchanged(this)
      ensures id.Some? && id.value in old(assets) && save.SaveFault? ==>
        r == Fault(save.message) && unchanged(this)
      ensures id.Some? && id.value in old(assets) && save.Saved? ==>
        && r == Reply(Success(1))
        && assets.Keys == old(assets).Keys - {id.value}
        && |assets| == |old(assets)| - 1
        && (forall k :: k in assets ==> assets[k] == old(assets)[k])
    {
      if id.None? || id.value <= 0 {
        return Reply(Error(BadId));
      }
      if id.value !in assets {
        return Reply(Error(NoSuchAsset));
      }
      if save.SaveFault? {
        return Fault(save.message);
      }
      assets := assets - {id.value};
      r := Reply(Success(1));
    }
  }
}
