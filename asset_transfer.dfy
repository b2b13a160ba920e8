/** The AssetTransfer contract as the imperative object it is: each transaction
    reads the world state through the stub, patches a local record and puts it
    back. Each method is proved to have exactly the effect and the reply the
    matching function of module Registry describes. */
module Contract {
  import opened WorldState
  import opened KeyOrder
  import opened Registry

  class AssetTransfer {
    /** The world state behind `ctx.stub`. */
    var store: Store

    constructor(ws: Store)
      ensures store == ws
    {
      store := ws;
    }

    // The stub: getState, putState, deleteState and getStateByRange.

    method GetState(id: string) returns (v: Value)
      ensures v == Lookup(store, id)
    {
      v := if id in store then store[id] else EMPTY;
    }

    method PutState(id: string, v: Value)
      modifies this
      ensures store == old(store)[id := v]
    {
      store := store[id := v];
    }

    method DeleteState(id: string)
      modifies this
      ensures store == old(store) - {id}
    {
      store := store - {id};
    }

    /** The open-ended range scan: every key of the store, in scan order. */
    method GetStateByRange() returns (keys: seq<string>)
      ensures keys == ScanOrder(store.Keys)
    {
      var rest := store.Keys;
      keys := [];
      while rest != {}
        invariant Ascending(keys)
        invariant forall k :: k in store <==> k in keys || k in rest
        invariant forall k :: k in keys ==> k !in rest
        invariant forall a, b :: a in keys && b in rest ==> Below(a, b)
        decreases rest
      {
        FirstExists(rest);
        var m :| IsFirst(m, rest);
        keys := keys + [m];
        rest := rest - {m};
      }
      AscendingUnique(keys, ScanOrder(store.Keys));
    }

    /** Writes the seven seed records, tagging each with docType before it is put. */
    method InitLedger()
      modifies this
      ensures store == Seed(old(store))
    {
      var assets := SEED_ASSETS;
      var i := 0;
      while i < |assets|
        invariant 0 <= i <= |assets|
        invariant store == PutAll(old(store), assets[..i])
      {
        var asset := Tag(assets[i]);
        PutState(asset.ID, Encode(asset));
        assert assets[..i + 1][..i] == assets[..i];
        i := i + 1;
      }
      assert assets[..i] == assets;
    }

    method CreateAsset(id: string, stat: string, size: Scalar, model: string, appraisedValue: Scalar)
      returns (r: Result<Asset>)
      modifies this
      ensures Outcome(store, r) == Create(old(store), id, stat, size, model, appraisedValue)
    {
      var present := AssetExists(id);
      if present {
        return Err(AlreadyExists(id));
      }
      var asset := Asset(id, stat, size, model, appraisedValue, None);
      PutState(id, Encode(asset));
      r := Ok(asset);
    }

    method ReadAsset(id: string) returns (r: Result<Value>)
      ensures r == Read(store, id)
    {
      var assetJSON := GetState(id);
      if assetJSON == EMPTY {
        return Err(NotFound(id));
      }
      r := Ok(assetJSON);
    }

    method UpdateAsset(id: string, stat: string, size: Scalar, model: string, appraisedValue: Scalar)
      returns (r: Result<()>)
      modifies this
      ensures Outcome(store, r) == Update(old(store), id, stat, size, model, appraisedValue)
    {
      var present := AssetExists(id);
      if !present {
        return Err(NotFound(id));
      }
      var updated := Asset(id, stat, size, model, appraisedValue, None);
      PutState(id, Encode(updated));
      r := Ok(());
    }

    method DeleteAsset(id: string) returns (r: Result<()>)
      modifies this
      ensures Outcome(store, r) == Delete(old(store), id)
    {
      var present := AssetExists(id);
      if !present {
        return Err(NotFound(id));
      }
      DeleteState(id);
      r := Ok(());
    }

    method AssetExists(id: string) returns (b: bool)
      ensures b <==> Exists(store, id)
    {
      var assetJSON := GetState(id);
      b := assetJSON != EMPTY;
    }

    method TransferAsset(id: string, newModel: string) returns (r: Result<string>)
      modifies this
      ensures Outcome(store, r) == Transfer(old(store), id, newModel)
    {
      var assetString := ReadAsset(id);
      if assetString.Err? {
        return Err(assetString.error);
      }
      var parsed := Parse(assetString.value);
      if parsed.None? {
        return Err(Malformed(assetString.value.text));
      }
      var asset := parsed.value;
      var oldModel := asset.Model;
      asset := asset.(Model := newModel);
      PutState(id, Encode(asset));
      r := Ok(oldModel);
    }

    method RepairAsset(id: string) returns (r: Result<string>)
      modifies this
      ensures Outcome(store, r) == Repair(old(store), id)
    {
      var assetString := ReadAsset(id);
      if assetString.Err? {
        return Err(assetString.error);
      }
      var parsed := Parse(assetString.value);
      if parsed.None? {
        return Err(Malformed(assetString.value.text));
      }
      var asset := parsed.value;
      var oldStat := asset.Stat;
      asset := asset.(Stat := REPAIRED);
      PutState(id, Encode(asset));
      r := Ok(oldStat);
    }

    method ControlAsset(id: string) returns (r: Result<string>)
      modifies this
      ensures Outcome(store, r) == Control(old(store), id)
    {
      var assetString := ReadAsset(id);
      if assetString.Err? {
        return Err(assetString.error);
      }
      var parsed := Parse(assetString.value);
      if parsed.None? {
        return Err(Malformed(assetString.value.text));
      }
      var asset := parsed.value;
      var oldStat := asset.Stat;
      if oldStat == REPAIRED {
        asset := asset.(Stat := CONTROLLED);
      } else {
        return Err(NotRepaired(id));
      }
      PutState(id, Encode(asset));
      r := Ok(oldStat);
    }

    method SoldAsset(id: string, appraisedValue: Scalar) returns (r: Result<Scalar>)
      modifies this
      ensures Outcome(store, r) == Sell(old(store), id, appraisedValue)
    {
      var assetString := ReadAsset(id);
      if assetString.Err? {
        return Err(assetString.error);
      }
      var parsed := Parse(assetString.value);
      if parsed.None? {
        return Err(Malformed(assetString.value.text));
      }
      var asset := parsed.value;
      var oldStat := asset.Stat;
      if oldStat == CONTROLLED {
        asset := asset.(Stat := SOLD);
        asset := asset.(AppraisedValue := appraisedValue);
      } else {
        return Err(NotControlled(id));
      }
      PutState(id, Encode(asset));
      r := Ok(appraisedValue);
    }

    /** Drains the range scan, listing each value parsed when it parses and as
        its raw text when it does not. */
    method GetAllAssets() returns (allResults: seq<Value>)
      ensures allResults == Listing(store)
      ensures |allResults| == |store|
    {
      var keys := GetStateByRange();
      allResults := [];
      var i := 0;
      while i < |keys|
        invariant 0 <= i <= |keys|
        invariant |allResults| == i
        invariant forall j :: 0 <= j < i ==> keys[j] in store && allResults[j] == store[keys[j]]
      {
        var strValue := store[keys[i]];
        var record: Value;
        match Parse(strValue) {
          case Some(asset) => record := Encode(asset);
          case None => record := strValue;
        }
        allResults := allResults + [record];
        i := i + 1;
      }
      ListingFromScan(store, keys, allResults);
    }
  }
}
