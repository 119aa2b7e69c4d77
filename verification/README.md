# Asset catalogue controller, modelled in Dafny

This project models the request handlers of the asset catalogue's
`AssetsController`. The handlers are Add, Change, Get, List, Remove and Search. They work on assets.
An asset may own one vehicle and may refer to a location by foreign key. A
vehicle points back to its asset.

Storage is a class, `Controllers.AssetsController`, that holds one request's view of the
database:

- `assets`: the asset table, a map from id to row;
- `vehicles`: the vehicle table, in storage order;
- `nextId`: the next identity value the asset table hands out.

`Valid()` says that rows are keyed by their own positive id below `nextId`.
It also says that a stored row holds no embedded Location and no vehicle navigation.
Vehicles are linked to assets only through their foreign key `assetId`. An
asset has at most one vehicle, as its single `Vehicle` navigation implies, so
no two vehicles share a non-null foreign key. Every foreign key lies below
`nextId`, so a freshly added asset owns no vehicle.

Loading materialises the navigations. `Load(k)` is the stored row with the
vehicle whose `assetId` is `k` attached. That vehicle's back-reference
`asset` points to `k`, which is the Asset → Vehicle → Asset cycle. The sanitiser
(`Sanitised`, `BreakCycles`) clears that back-reference on every asset a read
path returns. It keeps the foreign key.

The read paths (Get, List, Search) change nothing in storage. The mutating handlers
(Add, Change, Remove) either answer with an Error envelope and leave storage
unchanged, or mutate storage. The outcome of the save is a parameter:
`Saved` commits, and `SaveFault(message)` is returned verbatim as a
`Fault`. Request validation is an opaque boolean `modelStateValid`.

Search follows the source's sequential narrowing:

- the plate filter collects the owners of the vehicles whose lower-cased licence contains the lower-cased plate;
- the location filter then narrows that list, or loads the assets at the location if no plate was given;
- the result is sanitised and de-duplicated by asset id.

Its contract gives the result's id set in each of the four cases. It also says
that every element is the sanitised stored asset, that no id repeats, and that
after a plate search every result carries a vehicle whose licence matches the plate.

`scenarios.dfy` holds small client methods. They show what a caller can
conclude from the contracts alone.

Add rejects only a missing asset or a null `Name`
(`AssetManagementSystem/Controllers/AssetsController.cs:25`). An empty `Name` gets
past that guard; whether it is refused is up to request validation, which is the
opaque flag here.

## Model

| member | source | states |
|---|---|---|
| Text.LowerAt | AssetManagementSystem/Controllers/AssetsController.cs:222 | lower-casing maps each character through ASCII `ToLower` and leaves no capital letter |
| Text.LowerIdempotent | AssetManagementSystem/Controllers/AssetsController.cs:222 | lower-casing twice is lower-casing once |
| Text.ContainsIff | AssetManagementSystem/Controllers/AssetsController.cs:222 | `Contains` holds exactly when the needle occurs at some offset of the haystack |
| Entities.LicenseMatchOccurs | AssetManagementSystem/Controllers/AssetsController.cs:222 | a vehicle matches a plate exactly when the lower-cased plate occurs in its lower-cased licence |
| Entities.LicenseMatchIgnoresCase | AssetManagementSystem/Controllers/AssetsController.cs:222 | the match does not depend on the case of the plate or of the licence |
| Sanitiser.Sanitised | AssetManagementSystem/Controllers/AssetsController.cs:141-142 | the result has no back-reference; only the vehicle's back-reference differs from the input |
| Sanitiser.SanitisedIdempotent | AssetManagementSystem/Controllers/AssetsController.cs:158-163 | sanitising is idempotent and leaves a clean asset as it is |
| Sanitiser.BreakCycles | AssetManagementSystem/Controllers/AssetsController.cs:252-256 | every asset of the list is sanitised, in order; ids are kept and no back-reference remains |
| Lists.AtLocation | AssetManagementSystem/Controllers/AssetsController.cs:242 | an asset is kept exactly when it is in the list and its LocationId equals the location |
| Lists.Distinct | AssetManagementSystem/Controllers/AssetsController.cs:259 | no id repeats, the id set is unchanged, every element comes from the input, and a list without repeats is returned as is |
| Controllers.CopyTwiceChangesNothing | AssetManagementSystem/Controllers/AssetsController.cs:93-107 | copying the same input again changes nothing, so repeating a Change saves no row; a copy leaves the row as it was exactly when name, LocationId and Location already agree; the id and vehicle link are kept |
| Controllers.AssetsController.constructor | AssetManagementSystem/Controllers/AssetsController.cs:16 | a request's context over well-formed tables |
| Controllers.AssetsController.Load | AssetManagementSystem/Controllers/AssetsController.cs:131 | a loaded asset is its stored row; an attached vehicle is a table vehicle whose foreign key and back-reference both name the asset; no vehicle means none names it |
| Controllers.AssetsController.LoadAttachesItsVehicle | AssetManagementSystem/Controllers/AssetsController.cs:131 | a stored asset loads with exactly the vehicle whose foreign key names it, with that vehicle's licence |
| Controllers.AssetsController.PlateHitsCarryTheirVehicle | AssetManagementSystem/Controllers/AssetsController.cs:222-230 | every loaded owner the plate filter reaches carries a vehicle whose licence matches the plate |
| Controllers.AssetsController.LoadedAssetHasCycle | AssetManagementSystem/Controllers/AssetsController.cs:140-142 | an asset with a vehicle loads with the cycle present, and sanitising removes it |
| Controllers.AssetsController.PlateOwnersByForeignKey | AssetManagementSystem/Controllers/AssetsController.cs:222-233 | the plate filter reaches exactly the stored assets named by the foreign key of a matching vehicle |
| Controllers.AssetsController.PlateSearchIgnoresCase | AssetManagementSystem/Controllers/AssetsController.cs:222 | lower-casing the plate does not change what the plate filter reaches |
| Controllers.AssetsController.Query | AssetManagementSystem/Controllers/AssetsController.cs:248 | the table query returns each selected stored asset exactly once, as loaded |
| Controllers.AssetsController.Get | AssetManagementSystem/Controllers/AssetsController.cs:121-146 | a missing or non-positive id is rejected, then an unknown one; otherwise the sanitised stored asset with that id is returned; storage is not changed |
| Controllers.AssetsController.List | AssetManagementSystem/Controllers/AssetsController.cs:152-166 | every stored asset exactly once, each sanitised |
| Controllers.AssetsController.Search | AssetManagementSystem/Controllers/AssetsController.cs:212-260 | no filter gives an empty result; plate only gives the owners of matching vehicles; location only gives the assets at that location; both give the intersection, so every result is at the location; after a plate search every result carries a vehicle matching the plate; results are sanitised stored assets without repeated ids |
| Controllers.AssetsController.Add | AssetManagementSystem/Controllers/AssetsController.cs:23-63 | a null asset or Name and an invalid request are rejected, and a failed save is returned verbatim, all with storage unchanged; otherwise exactly one row is added under the next identity value, without its Location, and Success(1) is returned |
| Controllers.AssetsController.Change | AssetManagementSystem/Controllers/AssetsController.cs:70-114 | a null asset, an unknown id (named in the error), an invalid request and a failed save leave storage unchanged; otherwise only that row is overwritten by Copy, without Location, and the count is 1 if it changed and 0 if not |
| Controllers.AssetsController.Remove | AssetManagementSystem/Controllers/AssetsController.cs:173-209 | a missing or non-positive id and an unknown id are rejected, and a failed save is returned verbatim, all with storage unchanged; otherwise exactly that asset is deleted, every other row is unchanged and the count is 1 |

## Left out

- Entity Framework is replaced by the map, the sequence and the identity counter, and so are its LINQ queries, change tracking, `SaveChanges` and `Dispose`. Every handler works on its own context, so the context's lifetime is not modelled.
- Storage faults are a `SaveOutcome` parameter. Which constraint or connection failure raises them is not modelled.
- Request validation (`ModelState.IsValid`) depends on data annotations of the models, which are not part of this model. It is an opaque boolean.
- The body of `Asset.Copy` is not part of this model. `Copied` overwrites name, LocationId and Location and keeps id and vehicle. Asset and vehicle columns other than the ones in the datatypes are not modelled.
- The exact message strings and the JSON shapes are not modelled. `Reason` names each error kind, and the id where Change's message shows it.
- Lower-casing is ASCII only. The culture-sensitive `ToLower` and the database collation are not modelled.
- Distinct compares assets by id. `Asset.Equals` is not part of this model, and storage hands out one object per key.
- Add does not store an embedded vehicle. The vehicle-linking code in Add is commented out, and insertion of related objects by the storage engine is not modelled.
- Add: counts one changed row; rows the storage engine might insert for related objects are not counted.
- Change: the count is 0 when Copy changes no field and 1 otherwise, as row-level change detection reports it.
- Remove leaves the vehicle table as it is. A vehicle whose foreign key names a removed asset loads with a null back-reference. Cascade and constraint behaviour on delete belong to the storage engine.
- Loading does not attach the Location object of an asset. Only `LocationId` is modelled, and stored rows carry no embedded Location.
- Query: the order in which storage returns rows is not stated; the model may return them in any order.
- List: its contract states the returned set of assets, not their order, which the storage engine decides.
- Search: its contract states the returned set of assets, not their order. The plate query's `Where` and the loop over its results are one pass over the vehicle table in table order.
- Ids and counts are unbounded integers. The 32-bit range of the id column is not modelled.
