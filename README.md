# Asset-transfer chaincode: a verified model

This project models the `AssetTransfer` contract of a Hyperledger Fabric
chaincode. The contract keeps an asset registry in the ledger's world state, a
key-value map from asset IDs to JSON-encoded records. It seeds seven cars,
creates, reads, updates and deletes records, and transfers a record by changing
its `Model`. It also moves a record's `Stat` through a small lifecycle:
RepairAsset sets `Repaired` with no guard, ControlAsset accepts only a
`Repaired` record, and SoldAsset accepts only a `Controlled` record. GetAllAssets
lists every stored value in scan order.

The model is in five modules:

- `WorldState` (`world_state.dfy`) holds the stored values. A `Value` is either
  the encoding of an asset record (`Doc`) or raw text that JSON.parse rejects
  (`Raw`). `Raw("")` is the empty value that getState returns for a missing
  key. Encoding and parsing are an abstract round trip on records.
- `KeyOrder` (`key_order.dfy`) defines the order of a full range scan. Keys
  ascend by character code, which agrees with the order of their UTF-8 bytes.
  The module proves that a set of keys has exactly one ascending enumeration.
- `Registry` (`registry.dfy`) gives each transaction as a pure function from
  the old world state to the new state and the reply or error. The contracts of
  these functions state what each transaction promises.
- `Contract` (`asset_transfer.dfy`) is the contract itself. `AssetTransfer` is a
  class over a `store` map, and its stub methods get, put, delete and scan
  keys. Each transaction is a method that performs the source's steps in order.
  Each method is proved to produce exactly the state and reply of its
  `Registry` function. InitLedger's seed loop and GetAllAssets' scan loop carry
  their invariants. Both forms exist because a method cannot be called from
  a function or a lemma: the promises are proved once, about the `Registry`
  functions, and the methods inherit them through their equality.
- `Lifecycle` (`lifecycle.dfy`) runs sequences of transactions. It proves what
  the ControlAsset and SoldAsset guards guarantee over a whole history.

The model follows the code as written:

- CreateAsset and UpdateAsset store exactly five fields. Only InitLedger adds
  `docType: 'asset'`.
- RepairAsset accepts a record in any Stat, `Sold` included.
  `Lifecycle.LifecycleNotMonotone` shows that the lifecycle can therefore move
  backwards.
- `Stat` is whatever string the caller passes. CreateAsset can start a record
  at `Sold`.
- ReadAsset returns the stored value without parsing it.
- A record that does not parse makes the transactions that patch it throw.
  GetAllAssets lists that record as its raw text.

## Model

| member | source | states |
|---|---|---|
| WorldState.Parse | assetTransfer.js:144 | JSON.parse fails exactly on raw text; a value it accepts is the encoding of the record it returns |
| WorldState.Lookup | assetTransfer.js:100 | getState yields the value stored under a key the store holds, and the empty value for a key it does not hold |
| WorldState.Exists | assetTransfer.js:137-138 | AssetExists' test: the store holds a non-empty value under the key |
| WorldState.Encode | assetTransfer.js:75 | the deterministic encoding put for a record (also at lines 94, 123, 148, 159, 175 and 193): never the empty value, so a key written with a record exists, and it parses back to that record |
| Registry.Tag | assetTransfer.js:70 | InitLedger's tagging sets docType to asset and leaves the five other fields unchanged |
| Registry.SEED_ASSETS | assetTransfer.js:17-67 | the literal seed array: Car1 to Car7, each Broken with its Size, Model and AppraisedValue, with no docType yet |
| Registry.SeedAssetsBroken | assetTransfer.js:17-67 | the seed array holds seven records with distinct IDs, each with Stat Broken and no docType |
| Registry.Read | assetTransfer.js:99-105 | ReadAsset succeeds exactly when the asset exists (a non-empty value is stored), returns the stored value unchanged, and otherwise throws NotFound |
| Registry.Load | assetTransfer.js:143-144 | ReadAsset then JSON.parse: yields the stored record exactly when the key holds one; NotFound when absent, the parse error when the text is not a record |
| Registry.Create | assetTransfer.js:80-96 | fails with AlreadyExists exactly when the asset exists, writing nothing; otherwise the key then reads back as exactly the five given fields with no docType; no other key changes |
| Registry.Update | assetTransfer.js:108-124 | fails with NotFound exactly when the asset is absent, writing nothing; otherwise the record is replaced wholesale by the five given fields, dropping any docType; no other key changes |
| Registry.Delete | assetTransfer.js:127-133 | fails with NotFound exactly when absent; otherwise removes the key; afterwards the asset does not exist and ReadAsset throws NotFound; no other key changes |
| Registry.Transfer | assetTransfer.js:142-150 | succeeds exactly when the key holds a record; returns the old Model, sets Model to the new one, leaves ID, Stat, Size, AppraisedValue and docType unchanged; on failure (NotFound or parse error) writes nothing |
| Registry.Repair | assetTransfer.js:153-161 | succeeds on a record in any Stat; sets Stat to Repaired, returns the previous Stat, changes no other field; on failure writes nothing |
| Registry.Control | assetTransfer.js:164-177 | succeeds exactly when the record's Stat is Repaired, then sets Controlled and returns Repaired; any other Stat throws NotRepaired without a write |
| Registry.Sell | assetTransfer.js:180-195 | succeeds exactly when the record's Stat is Controlled, then sets Sold and the given AppraisedValue and returns that value; any other Stat throws NotControlled without a write |
| Registry.PutAll | assetTransfer.js:69-76 | writing the tagged records in order stores each under its ID, adds exactly those keys and leaves every other key as it was |
| Registry.SeedIdsAreCars | assetTransfer.js:17-67 | the seed array's IDs are exactly Car1 to Car7 |
| Registry.Seed | assetTransfer.js:16-77 | InitLedger writes exactly the keys Car1 to Car7, each the tagged seed record, overwriting what was there; every other key is untouched |
| Registry.SeededRecords | assetTransfer.js:16-77 | after InitLedger every seeded key holds a record with that ID, Stat Broken and docType asset |
| Registry.Listing | assetTransfer.js:198-216 | GetAllAssets has one entry per stored key |
| Registry.ListingComplete | assetTransfer.js:203-212 | every stored value appears in the listing; one that fails to parse appears as its raw text |
| Registry.CorruptEntryKeepsOthers | assetTransfer.js:206-212 | corrupting one stored value keeps the listing's length and every other value, and lists the corrupt one as raw text |
| Registry.ListingFollows | assetTransfer.js:201-203 | the listing follows any ascending enumeration of the stored keys |
| Registry.ListingAfterSeed | assetTransfer.js:198-216 | after InitLedger on a ledger holding no other keys, GetAllAssets lists the seven tagged seed records in order Car1 to Car7 |
| KeyOrder.ScanOrder | assetTransfer.js:201 | the open-ended range scan visits every key exactly once, in ascending order |
| KeyOrder.AscendingUnique | assetTransfer.js:201 | two ascending enumerations of the same keys are equal, so the scan order depends only on the set of keys |
| KeyOrder.FirstExists | assetTransfer.js:202 | every non-empty set of keys has a first key for the scan to return |
| Contract.AssetTransfer.GetState | assetTransfer.js:100 | returns the stored value, or the empty value for a missing key |
| Contract.AssetTransfer.PutState | assetTransfer.js:75 | stores the value under the key and changes nothing else |
| Contract.AssetTransfer.DeleteState | assetTransfer.js:132 | removes the key and changes nothing else |
| Contract.AssetTransfer.GetStateByRange | assetTransfer.js:201-203 | the loop returns exactly the scan order of the store's keys |
| Contract.AssetTransfer.InitLedger | assetTransfer.js:16-77 | the seed loop leaves the store equal to Registry.Seed of the old store |
| Contract.AssetTransfer.CreateAsset | assetTransfer.js:80-96 | new store and reply are those of Registry.Create |
| Contract.AssetTransfer.ReadAsset | assetTransfer.js:99-105 | reply is that of Registry.Read; the store is not changed |
| Contract.AssetTransfer.UpdateAsset | assetTransfer.js:108-124 | new store and reply are those of Registry.Update |
| Contract.AssetTransfer.DeleteAsset | assetTransfer.js:127-133 | new store and reply are those of Registry.Delete |
| Contract.AssetTransfer.AssetExists | assetTransfer.js:136-139 | true exactly when the store holds a non-empty value under the key |
| Contract.AssetTransfer.TransferAsset | assetTransfer.js:142-150 | new store and reply are those of Registry.Transfer |
| Contract.AssetTransfer.RepairAsset | assetTransfer.js:153-161 | new store and reply are those of Registry.Repair |
| Contract.AssetTransfer.ControlAsset | assetTransfer.js:164-177 | new store and reply are those of Registry.Control |
| Contract.AssetTransfer.SoldAsset | assetTransfer.js:180-195 | new store and reply are those of Registry.Sell |
| Contract.AssetTransfer.GetAllAssets | assetTransfer.js:198-216 | the scan loop returns Registry.Listing of the store, one entry per key |
| Lifecycle.ApplyFrame | assetTransfer.js:16-216 | no transaction changes a key other than its own ID (the seeded keys for InitLedger, none for the queries) |
| Lifecycle.ApplyKeepsWellKeyed | assetTransfer.js:16-195 | every transaction keeps each stored record under the key equal to its ID |
| Lifecycle.RunKeepsWellKeyed | assetTransfer.js:16-195 | so does every sequence of transactions |
| Lifecycle.EntersOnlyByGuard | assetTransfer.js:164-195 | a single transaction makes a record Controlled or Sold only by ControlAsset on a Repaired record, SoldAsset on a Controlled record, or a caller passing that Stat to CreateAsset or UpdateAsset |
| Lifecycle.ReachedOnlyByGuard | assetTransfer.js:164-195 | over a whole history with no such caller-set Stat, Controlled is reached only through ControlAsset from Repaired and Sold only through SoldAsset from Controlled |
| Lifecycle.SoldOnlyAfterRepairedAndControlled | assetTransfer.js:164-195 | a record that becomes Sold went through ControlAsset while Repaired and, later, SoldAsset while Controlled |
| Lifecycle.LifecycleNotMonotone | assetTransfer.js:80-161 | RepairAsset takes a Sold record back to Repaired, and CreateAsset can create a record already Sold |
| Lifecycle.Walkthrough | assetTransfer.js:80-195 | create X1 Broken; ControlAsset fails NotRepaired; RepairAsset returns Broken; ControlAsset returns Repaired; SoldAsset at 1200 returns 1200; X1 then reads as Sold at 1200 |

## Left out

- Fabric plumbing is not modelled: the `Contract` base class, `ctx` and the async/await promise machinery. The stub is the class's own map, and each method is one synchronous step.
- Concurrency is not modelled: endorsement, MVCC validation and transaction atomicity. Each transaction is applied whole, and one that throws writes nothing. In the source every throw precedes the write.
- Byte-level JSON is not modelled. The encoding libraries `json-stringify-deterministic` and `sort-keys-recursive` and the `Buffer`/UTF-8 conversions are not part of this model. Encoding is an abstract round trip on records (`Encode`/`Parse`). The fixed key order appears only as the encoding depending on the field values alone.
- JSON text that parses to something other than an asset record is not modelled (a number, an array, an object missing fields). A stored value is either a record or text that does not parse.
- Floating-point numbers are not modelled. A numeric `Size` or `AppraisedValue` is an integer.
- Reply strings are not modelled. CreateAsset returns the record rather than `JSON.stringify(asset)`. GetAllAssets returns the list of values rather than its JSON text, and ReadAsset returns the stored value rather than its text.
- The `console.log` of a parse error in GetAllAssets has no counterpart.
- The ledger's key validation and composite-key namespaces are not modelled. The range scan covers every key of the map.
- The scan is modelled as code-point order on keys. The async iterator protocol is a loop over the keys in that order.

