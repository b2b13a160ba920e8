/** What each transaction of the asset-transfer contract does to the world state,
    as pure functions: the new state and the reply (or error). The contract class
    in module Contract performs the same steps imperatively and is proved equal
    to these functions. */
module Registry {
  import opened WorldState
  import opened KeyOrder

  const BROKEN := "Broken"
  const REPAIRED := "Repaired"
  const CONTROLLED := "Controlled"
  const SOLD := "Sold"
  const DOC_TYPE := "asset"

  /** The world state after a transaction, and what the transaction returns or throws. */
  datatype Outcome<+T> = Outcome(ws: Store, res: Result<T>)

  /** No key other than `id` changed between `ws` and `ws'`. */
  predicate OnlyAt(ws: Store, ws': Store, id: string)
  {
    ws' - {id} == ws - {id}
  }

  /** The store holds, under `id`, a value that parses as an asset record. */
  predicate HoldsAsset(ws: Store, id: string)
  {
    id in ws && ws[id].Doc?
  }

  /** ReadAsset: the stored value, unparsed, or NotFound when there is none. */
  function Read(ws: Store, id: string): (r: Result<Value>)
    ensures r.Ok? <==> Exists(ws, id)
    ensures r.Ok? ==> id in ws && r.value == ws[id] && r.value != EMPTY
    ensures r.Err? ==> r.error == NotFound(id)
  {
    var v := Lookup(ws, id);
    if v == EMPTY then Err(NotFound(id)) else Ok(v)
  }

  /** ReadAsset followed by JSON.parse, the first two steps of every transaction
      that patches a record. */
  function Load(ws: Store, id: string): (r: Result<Asset>)
    ensures r.Ok? <==> HoldsAsset(ws, id)
    ensures r.Ok? ==> r.value == ws[id].asset
    ensures !Exists(ws, id) ==> r == Err(NotFound(id))
    ensures Exists(ws, id) && ws[id].Raw? ==> r == Err(Malformed(ws[id].text))
  {
    match Read(ws, id)
    case Err(e) => Err(e)
    case Ok(v) =>
      match Parse(v)
      case None => Err(Malformed(v.text))
      case Some(asset) => Ok(asset)
  }

  /** CreateAsset: refuses an existing key without writing; otherwise stores
      exactly the five given fields, with no docType, under `id`. */
  function Create(ws: Store, id: string, stat: string, size: Scalar, model: string, appraisedValue: Scalar)
    : (o: Outcome<Asset>)
    ensures o.res.Ok? <==> !Exists(ws, id)
    ensures o.res.Err? ==> o.res == Err(AlreadyExists(id)) && o.ws == ws
    ensures o.res.Ok? ==> o.res.value == Asset(id, stat, size, model, appraisedValue, None)
    ensures o.res.Ok? ==> Read(o.ws, id) == Ok(Doc(o.res.value))
    ensures OnlyAt(ws, o.ws, id)
  {
    if Exists(ws, id) then
      Outcome(ws, Err(AlreadyExists(id)))
    else
      var asset := Asset(id, stat, size, model, appraisedValue, None);
      Outcome(ws[id := Encode(asset)], Ok(asset))
  }

  /** UpdateAsset: refuses a missing key without writing; otherwise replaces the
      record wholesale, so a docType or any other earlier field is dropped. */
  function Update(ws: Store, id: string, stat: string, size: Scalar, model: string, appraisedValue: Scalar)
    : (o: Outcome<()>)
    ensures o.res.Ok? <==> Exists(ws, id)
    ensures o.res.Err? ==> o.res == Err(NotFound(id)) && o.ws == ws
    ensures o.res.Ok? ==> Read(o.ws, id) == Ok(Doc(Asset(id, stat, size, model, appraisedValue, None)))
    ensures OnlyAt(ws, o.ws, id)
  {
    if !Exists(ws, id) then
      Outcome(ws, Err(NotFound(id)))
    else
      var updated := Asset(id, stat, size, model, appraisedValue, None);
      Outcome(ws[id := Encode(updated)], Ok(()))
  }

  /** DeleteAsset: refuses a missing key; otherwise removes it. Either way the
      asset does not exist afterwards. */
  function Delete(ws: Store, id: string): (o: Outcome<()>)
    ensures o.res.Ok? <==> Exists(ws, id)
    ensures o.res.Err? ==> o.res == Err(NotFound(id)) && o.ws == ws
    ensures o.res.Ok? ==> id !in o.ws && o.ws.Keys == ws.Keys - {id}
    ensures !Exists(o.ws, id) && Read(o.ws, id) == Err(NotFound(id))
    ensures OnlyAt(ws, o.ws, id)
  {
    if !Exists(ws, id) then Outcome(ws, Err(NotFound(id))) else Outcome(ws - {id}, Ok(()))
  }

  /** TransferAsset: returns the previous Model and writes the record back with
      only its Model replaced. */
  function Transfer(ws: Store, id: string, newModel: string): (o: Outcome<string>)
    ensures o.res.Ok? <==> HoldsAsset(ws, id)
    ensures !Exists(ws, id) ==> o.res == Err(NotFound(id))
    ensures Exists(ws, id) && ws[id].Raw? ==> o.res == Err(Malformed(ws[id].text))
    ensures o.res.Err? ==> o.ws == ws
    ensures o.res.Ok? ==>
      && HoldsAsset(o.ws, id)
      && var before, after := ws[id].asset, o.ws[id].asset;
      && o.res.value == before.Model
      && after.Model == newModel
      && after.ID == before.ID && after.Stat == before.Stat && after.Size == before.Size
      && after.AppraisedValue == before.AppraisedValue && after.docType == before.docType
    ensures OnlyAt(ws, o.ws, id)
  {
    match Load(ws, id)
    case Err(e) => Outcome(ws, Err(e))
    case Ok(asset) =>
      var oldModel := asset.Model;
      Outcome(ws[id := Encode(asset.(Model := newModel))], Ok(oldModel))
  }

  /** RepairAsset: sets Stat to Repaired whatever it was before, Sold included,
      and returns the previous Stat. */
  function Repair(ws: Store, id: string): (o: Outcome<string>)
    ensures o.res.Ok? <==> HoldsAsset(ws, id)
    ensures !Exists(ws, id) ==> o.res == Err(NotFound(id))
    ensures Exists(ws, id) && ws[id].Raw? ==> o.res == Err(Malformed(ws[id].text))
    ensures o.res.Err? ==> o.ws == ws
    ensures o.res.Ok? ==>
      && HoldsAsset(o.ws, id)
      && var before, after := ws[id].asset, o.ws[id].asset;
      && o.res.value == before.Stat
      && after.Stat == REPAIRED
      && after.ID == before.ID && after.Model == before.Model && after.Size == before.Size
      && after.AppraisedValue == before.AppraisedValue && after.docType == before.docType
    ensures OnlyAt(ws, o.ws, id)
  {
    match Load(ws, id)
    case Err(e) => Outcome(ws, Err(e))
    case Ok(asset) =>
      var oldStat := asset.Stat;
      Outcome(ws[id := Encode(asset.(Stat := REPAIRED))], Ok(oldStat))
  }

  /** ControlAsset: only a Repaired record becomes Controlled; any other Stat
      throws NotRepaired and nothing is written. */
  function Control(ws: Store, id: string): (o: Outcome<string>)
    ensures o.res.Ok? <==> HoldsAsset(ws, id) && ws[id].asset.Stat == REPAIRED
    ensures HoldsAsset(ws, id) && ws[id].asset.Stat != REPAIRED ==> o.res == Err(NotRepaired(id))
    ensures !Exists(ws, id) ==> o.res == Err(NotFound(id))
    ensures Exists(ws, id) && ws[id].Raw? ==> o.res == Err(Malformed(ws[id].text))
    ensures o.res.Err? ==> o.ws == ws
    ensures o.res.Ok? ==>
      && HoldsAsset(o.ws, id)
      && var before, after := ws[id].asset, o.ws[id].asset;
      && o.res.value == REPAIRED
      && after.Stat == CONTROLLED
      && after.ID == before.ID && after.Model == before.Model && after.Size == before.Size
      && after.AppraisedValue == before.AppraisedValue && after.docType == before.docType
    ensures OnlyAt(ws, o.ws, id)
  {
    match Load(ws, id)
    case Err(e) => Outcome(ws, Err(e))
    case Ok(asset) =>
      var oldStat := asset.Stat;
      if oldStat == REPAIRED then
        Outcome(ws[id := Encode(asset.(Stat := CONTROLLED))], Ok(oldStat))
      else
        Outcome(ws, Err(NotRepaired(id)))
  }

  /** SoldAsset: only a Controlled record becomes Sold, taking the given
      appraised value, which is also returned; any other Stat throws
      NotControlled and nothing is written. */
  function Sell(ws: Store, id: string, appraisedValue: Scalar): (o: Outcome<Scalar>)
    ensures o.res.Ok? <==> HoldsAsset(ws, id) && ws[id].asset.Stat == CONTROLLED
    ensures HoldsAsset(ws, id) && ws[id].asset.Stat != CONTROLLED ==> o.res == Err(NotControlled(id))
    ensures !Exists(ws, id) ==> o.res == Err(NotFound(id))
    ensures Exists(ws, id) && ws[id].Raw? ==> o.res == Err(Malformed(ws[id].text))
    ensures o.res.Err? ==> o.ws == ws
    ensures o.res.Ok? ==>
      && HoldsAsset(o.ws, id)
      && var before, after := ws[id].asset, o.ws[id].asset;
      && o.res.value == appraisedValue
      && after.Stat == SOLD
      && after.AppraisedValue == appraisedValue
      && after.ID == before.ID && after.Model == before.Model && after.Size == before.Size
      && after.docType == before.docType
    ensures OnlyAt(ws, o.ws, id)
  {
    match Load(ws, id)
    case Err(e) => Outcome(ws, Err(e))
    case Ok(asset) =>
      if asset.Stat == CONTROLLED then
        Outcome(ws[id := Encode(asset.(Stat := SOLD, AppraisedValue := appraisedValue))], Ok(appraisedValue))
      else
        Outcome(ws, Err(NotControlled(id)))
  }

  /** The records of InitLedger's literal array, before it tags them. */
  const SEED_ASSETS: seq<Asset> := [
    Asset("Car1", BROKEN, Number(5), "Toyota", Number(9300), None),
    Asset("Car2", BROKEN, Number(5), "Tesla", Number(44400), None),
    Asset("Car3", BROKEN, Number(3), "Renault", Number(43500), None),
    Asset("Car4", BROKEN, Number(3), "Peugeot", Number(12600), None),
    Asset("Car5", BROKEN, Number(5), "Peugeot", Number(5700), None),
    Asset("Car6", BROKEN, Number(5), "Citroen", Number(5800), None),
    Asset("Car7", BROKEN, Number(7), "Citroen", Number(3810), None)
  ]

  const SEED_IDS: set<string> := {"Car1", "Car2", "Car3", "Car4", "Car5", "Car6", "Car7"}

  /** InitLedger sets docType on each record before writing it. */
  function Tag(a: Asset): (t: Asset)
    ensures t.docType == Some(DOC_TYPE)
    ensures t.ID == a.ID && t.Stat == a.Stat && t.Size == a.Size
    ensures t.Model == a.Model && t.AppraisedValue == a.AppraisedValue
  {
    a.(docType := Some(DOC_TYPE))
  }

  /** The keys the records of `assets` are written under. */
  function Ids(assets: seq<Asset>): set<string>
  {
    if assets == [] then {} else Ids(assets[..|assets| - 1]) + {assets[|assets| - 1].ID}
  }

  predicate DistinctIds(assets: seq<Asset>)
  {
    forall i, j :: 0 <= i < j < |assets| ==> assets[i].ID != assets[j].ID
  }

  /** The state after writing each of `assets`, tagged, under its own ID, in order. */
  function PutAll(ws: Store, assets: seq<Asset>): (r: Store)
    requires DistinctIds(assets)
    ensures forall i :: 0 <= i < |assets| ==> assets[i].ID in r && r[assets[i].ID] == Encode(Tag(assets[i]))
    ensures r - Ids(assets) == ws - Ids(assets)
    ensures r.Keys == ws.Keys + Ids(assets)
  {
    if assets == [] then ws
    else
      var last := assets[|assets| - 1];
      var prefix := assets[..|assets| - 1];
      var before := PutAll(ws, prefix);
      var r := before[last.ID := Encode(Tag(last))];
      assert r - Ids(assets) == ws - Ids(assets) by {
        forall k | k !in Ids(assets)
          ensures (k in r <==> k in ws) && (k in r ==> r[k] == ws[k])
        {
          assert k !in Ids(prefix) && k != last.ID;
          assert k in before - Ids(prefix) <==> k in ws - Ids(prefix);
        }
      }
      r
  }

  lemma {:induction false} InIds(assets: seq<Asset>, k: string)
    ensures k in Ids(assets) <==> exists i :: 0 <= i < |assets| && assets[i].ID == k
  {
    if assets != [] {
      var prefix := assets[..|assets| - 1];
      InIds(prefix, k);
      if k in Ids(prefix) {
        var i :| 0 <= i < |prefix| && prefix[i].ID == k;
        assert assets[i].ID == k;
      }
    }
  }

  /** The seed array holds seven untagged Broken records with distinct IDs. */
  lemma SeedAssetsBroken()
    ensures |SEED_ASSETS| == 7 && DistinctIds(SEED_ASSETS)
    ensures forall i :: 0 <= i < |SEED_ASSETS| ==> SEED_ASSETS[i].Stat == BROKEN && SEED_ASSETS[i].docType == None
  {
  }

  /** InitLedger writes exactly the keys Car1 to Car7. */
  lemma SeedIdsAreCars()
    ensures Ids(SEED_ASSETS) == SEED_IDS
  {
    forall k
      ensures k in Ids(SEED_ASSETS) <==> k in SEED_IDS
    {
      InIds(SEED_ASSETS, k);
      assert SEED_ASSETS[0].ID == "Car1" && SEED_ASSETS[1].ID == "Car2" && SEED_ASSETS[2].ID == "Car3";
      assert SEED_ASSETS[3].ID == "Car4" && SEED_ASSETS[4].ID == "Car5" && SEED_ASSETS[5].ID == "Car6";
      assert SEED_ASSETS[6].ID == "Car7";
    }
  }

  /** InitLedger: writes the seven seeded records, each tagged with docType,
      overwriting whatever those keys held; every other key is untouched. */
  function Seed(ws: Store): (r: Store)
    ensures r - SEED_IDS == ws - SEED_IDS
    ensures r.Keys == ws.Keys + SEED_IDS
    ensures forall i :: 0 <= i < |SEED_ASSETS| ==> r[SEED_ASSETS[i].ID] == Encode(Tag(SEED_ASSETS[i]))
  {
    SeedIdsAreCars();
    PutAll(ws, SEED_ASSETS)
  }

  /** Every seeded key holds a Broken record tagged docType 'asset' whose ID is its key. */
  lemma SeededRecords(ws: Store)
    ensures forall k :: k in SEED_IDS ==>
      && HoldsAsset(Seed(ws), k)
      && Seed(ws)[k].asset.ID == k
      && Seed(ws)[k].asset.Stat == BROKEN
      && Seed(ws)[k].asset.docType == Some(DOC_TYPE)
  {
    forall k | k in SEED_IDS
      ensures HoldsAsset(Seed(ws), k) && Seed(ws)[k].asset.ID == k
      ensures Seed(ws)[k].asset.Stat == BROKEN && Seed(ws)[k].asset.docType == Some(DOC_TYPE)
    {
      SeedIdsAreCars();
      InIds(SEED_ASSETS, k);
      var i :| 0 <= i < |SEED_ASSETS| && SEED_ASSETS[i].ID == k;
    }
  }

  /** GetAllAssets: one entry per stored key, in scan order; a parsed record for
      a value that parses and the raw text for one that does not. */
  ghost function Listing(ws: Store): (r: seq<Value>)
    ensures |r| == |ws|
  {
    var keys := ScanOrder(ws.Keys);
    seq(|keys|, i requires 0 <= i < |keys| => ws[keys[i]])
  }

  /** Values gathered key by key along the scan order make up the listing. */
  lemma ListingFromScan(ws: Store, keys: seq<string>, values: seq<Value>)
    requires keys == ScanOrder(ws.Keys)
    requires |values| == |keys|
    requires forall j :: 0 <= j < |keys| ==> keys[j] in ws && values[j] == ws[keys[j]]
    ensures values == Listing(ws)
  {
  }

  /** Every stored value is listed, a raw one as its raw text: an entry that
      does not parse is neither dropped nor does it stop the scan. */
  lemma ListingComplete(ws: Store, k: string)
    requires k in ws
    ensures ws[k] in Listing(ws)
  {
    var keys := ScanOrder(ws.Keys);
    var i :| 0 <= i < |keys| && keys[i] == k;
    assert Listing(ws)[i] == ws[k];
  }

  /** Corrupting the value under one key leaves every other stored value in the
      listing and lists the corrupt one as its raw text. */
  lemma CorruptEntryKeepsOthers(ws: Store, k: string, text: string)
    requires k in ws
    ensures |Listing(ws[k := Raw(text)])| == |Listing(ws)|
    ensures Raw(text) in Listing(ws[k := Raw(text)])
    ensures forall other :: other in ws && other != k ==> ws[other] in Listing(ws[k := Raw(text)])
  {
    var corrupt := ws[k := Raw(text)];
    assert corrupt.Keys == ws.Keys;
    ListingComplete(corrupt, k);
    forall other | other in ws && other != k
      ensures ws[other] in Listing(corrupt)
    {
      ListingComplete(corrupt, other);
    }
  }

  /** A listing follows any ascending enumeration of the stored keys, since
      there is only one. */
  lemma ListingFollows(ws: Store, keys: seq<string>)
    requires Ascending(keys)
    requires forall k :: k in keys <==> k in ws
    ensures Listing(ws) == seq(|keys|, i requires 0 <= i < |keys| => ws[keys[i]])
  {
    AscendingUnique(keys, ScanOrder(ws.Keys));
  }

  /** The seeded keys, in ascending order. */
  lemma SeedIdsAscending(ids: seq<string>)
    requires ids == ["Car1", "Car2", "Car3", "Car4", "Car5", "Car6", "Car7"]
    ensures Ascending(ids)
  {
    forall i | 0 < i < |ids|
      ensures Below(ids[i - 1], ids[i])
    {
      var a, b := ids[i - 1], ids[i];
      assert a[1..][1..][1..] == [a[3]] && b[1..][1..][1..] == [b[3]];
    }
    AscendingFromNeighbours(ids);
  }

  /** Seeding a world state that holds no other keys leaves exactly the
      seeded keys, the i-th seed record under the i-th of them. */
  lemma SeededAt(ws: Store, ids: seq<string>)
    requires ws.Keys <= SEED_IDS
    requires ids == ["Car1", "Car2", "Car3", "Car4", "Car5", "Car6", "Car7"]
    ensures forall k :: k in ids <==> k in Seed(ws)
    ensures |ids| == |SEED_ASSETS|
    ensures forall i :: 0 <= i < |ids| ==> Seed(ws)[ids[i]] == Encode(Tag(SEED_ASSETS[i]))
  {
    var r := Seed(ws);
    assert r.Keys == SEED_IDS;
    forall i | 0 <= i < |ids|
      ensures r[ids[i]] == Encode(Tag(SEED_ASSETS[i]))
    {
      assert ids[i] == SEED_ASSETS[i].ID;
    }
  }

  /** After InitLedger on a world state that holds no other keys (a fresh
      ledger, say), GetAllAssets lists the seven tagged seed records, Car1 first
      and Car7 last. */
  lemma ListingAfterSeed(ws: Store)
    requires ws.Keys <= SEED_IDS
    ensures |Listing(Seed(ws))| == |SEED_ASSETS|
    ensures forall i :: 0 <= i < |SEED_ASSETS| ==> Listing(Seed(ws))[i] == Encode(Tag(SEED_ASSETS[i]))
  {
    var ids := ["Car1", "Car2", "Car3", "Car4", "Car5", "Car6", "Car7"];
    SeededAt(ws, ids);
    SeedIdsAscending(ids);
    ListingFollows(Seed(ws), ids);
  }
}
