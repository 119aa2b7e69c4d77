/** Clients of the controller: what a caller can conclude from the handlers'
    contracts alone, on small concrete tables. */
module Scenarios {
  import opened Text
  import opened Entities
  import opened Sanitiser
  import opened Controllers

  /** Add into empty storage, read the asset back, miss an unknown id, remove
      the asset, and fail to remove it a second time. */
  method AddGetRemove() {
    var c := new AssetsController(map[], [], 1);
    var drill := Asset(0, Some("Drill"), None, Some(Location(7)), None);

    var added := c.Add(Some(drill), true, Saved);
    assert added == Reply(Success(1));
    assert c.assets == map[1 := Asset(1, Some("Drill"), None, None, None)];

    var fetched := c.Get(Some(1));
    assert fetched.Found? && fetched.asset.name == Some("Drill") && fetched.asset.location.None?;
    var missing := c.Get(Some(99));
    assert missing == Rejected(NoSuchAsset);

    var removed := c.Remove(Some(1), Saved);
    assert removed == Reply(Success(1)) && c.assets == map[];
    var again := c.Remove(Some(1), Saved);
    assert again == Reply(Error(NoSuchAsset));
  }

  /** A nameless asset and an invalid request are refused, and a failed save
      is reported verbatim; storage stays empty throughout. */
  method RefusedAdds() {
    var c := new AssetsController(map[], [], 1);
    var nameless := Asset(0, None, Some(3), None, None);
    var r1 := c.Add(Some(nameless), true, Saved);
    assert r1 == Reply(Error(NullAsset));
    var r2 := c.Add(Some(nameless.(name := Some("Saw"))), false, Saved);
    assert r2 == Reply(Error(ModelStateInvalid));
    var r3 := c.Add(Some(nameless.(name := Some("Saw"))), true, SaveFault("timeout"));
    assert r3 == Fault("timeout");
    assert c.assets == map[];
  }

  /** Changing an unknown id names that id; changing a known one overwrites
      its fields and counts one row, and repeating the same change counts none. */
  method ChangeTwice() {
    var c := new AssetsController(map[4 := Asset(4, Some("Jack"), Some(1), None, None)], [], 5);
    var unknown := c.Change(Some(Asset(9, Some("Jack"), Some(2), None, None)), true, Saved);
    assert unknown == Reply(Error(NoSuchAssetId(9)));
    var moved := c.Change(Some(Asset(4, Some("Jack"), Some(2), None, None)), true, Saved);
    assert moved == Reply(Success(1));
    assert c.assets[4].locationId == Some(2);
    var same := c.Change(Some(Asset(4, Some("Jack"), Some(2), None, None)), true, Saved);
    assert same == Reply(Success(0));
  }

  /** Search with no filter finds nothing, and every result of a search is
      free of back-references. */
  method SearchWithoutFilters() {
    var truck := Vehicle(10, Some("ABC-123"), Some(1), None);
    var c := new AssetsController(map[1 := Asset(1, Some("Crane"), Some(5), None, None)], [truck], 2);
    var none := c.Search(None, None);
    assert none == [];
    var empty := c.Search(Some(""), None);
    assert empty == [];
    var here := c.Search(None, Some(5));
    assert IdSet(here) == {1};
    assert NoBackRefs(here);
  }

  /** A plate matches regardless of case; with a location as well, the plate
      results are narrowed, never joined with the assets at that location. */
  method SearchNarrows() {
    var truck := Vehicle(10, Some("ABC-123"), Some(1), None);
    var loose := Vehicle(11, Some("abc-999"), None, None);
    var c := new AssetsController(
      map[1 := Asset(1, Some("Crane"), Some(5), None, None), 2 := Asset(2, Some("Hoist"), Some(6), None, None)],
      [truck, loose], 3);
    assert Lower("ABC-123") == "abc-123";
    assert LicenseMatches(truck, "bc") by {
      assert Contains("abc-123"[1..], Lower("bc"));
    }
    assert c.LoadVehicle(truck).asset == Some(1) && c.LoadVehicle(loose).asset.None?;
    assert 1 in c.PlateOwners("bc");
    assert c.PlateOwners("bc") == {1};
    var byPlate := c.Search(Some("bc"), None);
    assert IdSet(byPlate) == {1};
    var both := c.Search(Some("bc"), Some(6));
    assert IdSet(both) == {};
    var atSix := c.Search(None, Some(6));
    assert IdSet(atSix) == {2};
  }
}
