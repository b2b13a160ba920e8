/** Sequences of transactions against one world state, and what the Stat
    guards of ControlAsset and SoldAsset guarantee over them. */
module Lifecycle {
  import opened WorldState
  import opened Registry

  /** One invocation of a contract function, with its arguments. */
  datatype Tx =
    | InitLedger
    | CreateAsset(id: string, stat: string, size: Scalar, model: string, appraisedValue: Scalar)
    | ReadAsset(id: string)
    | UpdateAsset(id: string, stat: string, size: Scalar, model: string, appraisedValue: Scalar)
    | DeleteAsset(id: string)
    | AssetExists(id: string)
    | TransferAsset(id: string, newModel: string)
    | RepairAsset(id: string)
    | ControlAsset(id: string)
    | SoldAsset(id: string, appraisedValue: Scalar)
    | GetAllAssets

  /** The world state after `tx` is committed; a transaction that throws writes nothing. */
  function Apply(ws: Store, tx: Tx): Store
  {
    match tx
    case InitLedger => Seed(ws)
    case CreateAsset(id, stat, size, model, value) => Create(ws, id, stat, size, model, value).ws
    case ReadAsset(_) => ws
    case UpdateAsset(id, stat, size, model, value) => Update(ws, id, stat, size, model, value).ws
    case DeleteAsset(id) => Delete(ws, id).ws
    case AssetExists(_) => ws
    case TransferAsset(id, newModel) => Transfer(ws, id, newModel).ws
    case RepairAsset(id) => Repair(ws, id).ws
    case ControlAsset(id) => Control(ws, id).ws
    case SoldAsset(id, value) => Sell(ws, id, value).ws
    case GetAllAssets => ws
  }

  /** The world state after committing `txs` in order. */
  function Run(ws: Store, txs: seq<Tx>): Store
    decreases |txs|
  {
    if txs == [] then ws else Apply(Run(ws, txs[..|txs| - 1]), txs[|txs| - 1])
  }

  /** The record under `id` parses and has the given Stat. */
  predicate HasStat(ws: Store, id: string, stat: string)
  {
    HoldsAsset(ws, id) && ws[id].asset.Stat == stat
  }

  /** `tx` writes Stat `stat` under `id` from its own arguments (CreateAsset and
      UpdateAsset take the Stat from the caller unchecked). */
  predicate WritesStat(tx: Tx, id: string, stat: string)
  {
    (tx.CreateAsset? || tx.UpdateAsset?) && tx.id == id && tx.stat == stat
  }

  /** `tx` is the guarded transition into `stat` for the asset `id`. */
  predicate Advances(tx: Tx, id: string, stat: string)
  {
    || (stat == CONTROLLED && tx == ControlAsset(id))
    || (stat == SOLD && tx.SoldAsset? && tx.id == id)
  }

  /** The Stat the guard of the transition into `stat` demands. */
  function Predecessor(stat: string): string
  {
    if stat == SOLD then CONTROLLED else REPAIRED
  }

  /** The keys a transaction may write: the seeded keys for InitLedger, none
      for the read-only queries, and its own key for the others. */
  function Target(tx: Tx): set<string>
  {
    match tx
    case InitLedger => SEED_IDS
    case GetAllAssets => {}
    case ReadAsset(_) => {}
    case AssetExists(_) => {}
    case _ => {tx.id}
  }

  /** No transaction changes a key outside its target. */
  lemma ApplyFrame(ws: Store, tx: Tx, k: string)
    ensures Apply(ws, tx) - Target(tx) == ws - Target(tx)
    ensures k !in Target(tx) ==> (k in Apply(ws, tx) <==> k in ws)
    ensures k !in Target(tx) && k in ws ==> Apply(ws, tx)[k] == ws[k]
  {
    var after := Apply(ws, tx);
    assert k !in Target(tx) ==> (k in after <==> k in after - Target(tx)) && (k in ws <==> k in ws - Target(tx));
  }

  /** Every key holding a record holds the record with that ID. */
  ghost predicate WellKeyed(ws: Store)
  {
    forall k :: k in ws && ws[k].Doc? ==> ws[k].asset.ID == k
  }

  /** Every transaction keeps each record under the key equal to its ID. */
  lemma ApplyKeepsWellKeyed(ws: Store, tx: Tx)
    requires WellKeyed(ws)
    ensures WellKeyed(Apply(ws, tx))
  {
    var after := Apply(ws, tx);
    forall k | k in after && after[k].Doc?
      ensures after[k].asset.ID == k
    {
      ApplyFrame(ws, tx, k);
      if tx.InitLedger? {
        SeededRecords(ws);
      }
    }
  }

  lemma {:induction false} RunKeepsWellKeyed(ws: Store, txs: seq<Tx>)
    requires WellKeyed(ws)
    ensures WellKeyed(Run(ws, txs))
    decreases |txs|
  {
    if txs != [] {
      RunKeepsWellKeyed(ws, txs[..|txs| - 1]);
      ApplyKeepsWellKeyed(Run(ws, txs[..|txs| - 1]), txs[|txs| - 1]);
    }
  }

  /** A single transaction brings the record under `id` into Controlled or Sold
      only through the guarded transition from the preceding Stat, or by a
      caller passing that Stat to CreateAsset or UpdateAsset. */
  lemma EntersOnlyByGuard(ws: Store, tx: Tx, id: string, stat: string)
    requires stat == CONTROLLED || stat == SOLD
    requires !HasStat(ws, id, stat) && HasStat(Apply(ws, tx), id, stat)
    ensures WritesStat(tx, id, stat) || (Advances(tx, id, stat) && HasStat(ws, id, Predecessor(stat)))
  {
    ApplyFrame(ws, tx, id);
    if tx.InitLedger? {
      SeededRecords(ws);
    }
  }

  /** Over any run in which no caller passes `stat` for `id` to CreateAsset or
      UpdateAsset, the record under `id` can reach Controlled only through
      ControlAsset on a Repaired record, and Sold only through SoldAsset on a
      Controlled record. */
  lemma {:induction false} ReachedOnlyByGuard(ws: Store, txs: seq<Tx>, id: string, stat: string)
    requires stat == CONTROLLED || stat == SOLD
    requires !HasStat(ws, id, stat) && HasStat(Run(ws, txs), id, stat)
    requires forall i :: 0 <= i < |txs| ==> !WritesStat(txs[i], id, stat)
    ensures exists i :: 0 <= i < |txs| && Advances(txs[i], id, stat) && HasStat(Run(ws, txs[..i]), id, Predecessor(stat))
    decreases |txs|
  {
    var n := |txs|;
    var prefix := txs[..n - 1];
    if HasStat(Run(ws, prefix), id, stat) {
      ReachedOnlyByGuard(ws, prefix, id, stat);
      var i :| 0 <= i < |prefix| && Advances(prefix[i], id, stat) && HasStat(Run(ws, prefix[..i]), id, Predecessor(stat));
      assert prefix[..i] == txs[..i];
      assert txs[i] == prefix[i];
    } else {
      EntersOnlyByGuard(Run(ws, prefix), txs[n - 1], id, stat);
      assert Advances(txs[n - 1], id, stat) && HasStat(Run(ws, txs[..n - 1]), id, Predecessor(stat));
    }
  }

  /** A record that was neither Controlled nor Sold, and that no caller sets to
      either directly, is Sold at the end of a run only if ControlAsset found it
      Repaired and, later, SoldAsset found it Controlled. */
  lemma SoldOnlyAfterRepairedAndControlled(ws: Store, txs: seq<Tx>, id: string)
    requires !HasStat(ws, id, CONTROLLED) && !HasStat(ws, id, SOLD)
    requires HasStat(Run(ws, txs), id, SOLD)
    requires forall i :: 0 <= i < |txs| ==> !WritesStat(txs[i], id, CONTROLLED) && !WritesStat(txs[i], id, SOLD)
    ensures exists i, j ::
      && 0 <= i < j < |txs|
      && txs[i] == ControlAsset(id) && HasStat(Run(ws, txs[..i]), id, REPAIRED)
      && txs[j].SoldAsset? && txs[j].id == id && HasStat(Run(ws, txs[..j]), id, CONTROLLED)
  {
    ReachedOnlyByGuard(ws, txs, id, SOLD);
    var j :| 0 <= j < |txs| && Advances(txs[j], id, SOLD) && HasStat(Run(ws, txs[..j]), id, CONTROLLED);
    var prefix := txs[..j];
    ReachedOnlyByGuard(ws, prefix, id, CONTROLLED);
    var i :| 0 <= i < |prefix| && Advances(prefix[i], id, CONTROLLED) && HasStat(Run(ws, prefix[..i]), id, REPAIRED);
    assert prefix[..i] == txs[..i];
    assert txs[i] == ControlAsset(id) && HasStat(Run(ws, txs[..i]), id, REPAIRED);
    assert txs[j].SoldAsset? && txs[j].id == id;
  }

  /** The lifecycle is not monotone as written: RepairAsset takes a Sold record
      back to Repaired, and CreateAsset can start a record at Sold. */
  lemma LifecycleNotMonotone(ws: Store, id: string, size: Scalar, model: string, value: Scalar)
    ensures HasStat(ws, id, SOLD) ==> HasStat(Apply(ws, RepairAsset(id)), id, REPAIRED)
    ensures !Exists(ws, id) ==> HasStat(Apply(ws, CreateAsset(id, SOLD, size, model, value)), id, SOLD)
  {
  }

  /** The lifecycle walk-through: a new Broken asset cannot be controlled, is
      repaired (returning Broken), controlled (returning Repaired) and sold at
      1200 (returning 1200), after which it reads as Sold at 1200. */
  lemma Walkthrough(ws: Store)
    requires !Exists(ws, "X1")
    ensures
      var c := Create(ws, "X1", BROKEN, Text("5"), "Ford", Text("1000"));
      && c.res.Ok?
      && Control(c.ws, "X1").res == Err(NotRepaired("X1"))
      && var r := Repair(c.ws, "X1");
      && r.res == Ok(BROKEN)
      && var k := Control(r.ws, "X1");
      && k.res == Ok(REPAIRED)
      && var s := Sell(k.ws, "X1", Text("1200"));
      && s.res == Ok(Text("1200"))
      && Read(s.ws, "X1") == Ok(Doc(Asset("X1", SOLD, Text("5"), "Ford", Text("1200"), None)))
  {
  }
}
