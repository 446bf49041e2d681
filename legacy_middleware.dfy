/**
 * The older middleware stack that runs over `MerkleTreeDB`: the same
 * write-buffering `CacheMiddleware` (whose `set` answers unit) and
 * pass-through `DBMiddleware`, plus the transaction log types and
 * `cacheInner::find`, a scan for the last `Set` of a key.
 */
module LegacyMiddleware {
  import opened Wrappers
  import opened Types
  import opened Engine
  import opened Couple
  import opened Merkle
  import opened Instance
  import Cache

  /** One logged operation and the version it was logged at (`TransactionNode::new`). */
  datatype TransactionNode = TransactionNode(version: nat, op: Operation)

  datatype Transaction = Transaction(nodes: seq<TransactionNode>)

  /** `Transaction::default()`. */
  const EmptyTransaction: Transaction := Transaction([])

  datatype CacheInner = CacheInner(transactions: Transaction)

  predicate SetsKey(n: TransactionNode, k: Key) {
    n.op.Set? && n.op.key == k
  }

  /** The value of the last `Set` on `k` in the log, found from the end; deletes are skipped. */
  function LastSet(nodes: seq<TransactionNode>, k: Key): Option<Value>
    decreases |nodes|
  {
    if nodes == [] then None
    else if SetsKey(nodes[|nodes| - 1], k) then Some(nodes[|nodes| - 1].op.value)
    else LastSet(nodes[..|nodes| - 1], k)
  }

  /** `find` answers a value only if some `Set` of `k` carries it and no later node sets `k`,
      and answers `None` only if no node sets `k`. */
  lemma {:induction false} LastSetSound(nodes: seq<TransactionNode>, k: Key)
    ensures LastSet(nodes, k).Some? ==>
              exists i :: 0 <= i < |nodes| && nodes[i].op == Set(k, LastSet(nodes, k).value)
                          && forall j :: i < j < |nodes| ==> !SetsKey(nodes[j], k)
    ensures LastSet(nodes, k).None? ==> forall i :: 0 <= i < |nodes| ==> !SetsKey(nodes[i], k)
    decreases |nodes|
  {
    if nodes != [] {
      var n := |nodes| - 1;
      if SetsKey(nodes[n], k) {
        assert nodes[n].op == Set(k, LastSet(nodes, k).value);
      } else {
        var front := nodes[..n];
        LastSetSound(front, k);
        if LastSet(nodes, k).Some? {
          var i :| 0 <= i < |front| && front[i].op == Set(k, LastSet(front, k).value)
                   && forall j :: i < j < |front| ==> !SetsKey(front[j], k);
          assert nodes[i] == front[i];
        }
      }
    }
  }

  /** Conversely, the last `Set` of `k` is what `find` answers. */
  lemma {:induction false} LastSetComplete(nodes: seq<TransactionNode>, k: Key, i: nat, v: Value)
    requires i < |nodes| && nodes[i].op == Set(k, v)
    requires forall j :: i < j < |nodes| ==> !SetsKey(nodes[j], k)
    ensures LastSet(nodes, k) == Some(v)
    decreases |nodes|
  {
    var n := |nodes| - 1;
    if i < n {
      assert !SetsKey(nodes[n], k);
      LastSetComplete(nodes[..n], k, i, v);
    }
  }

  /** `cacheInner::find`: scans the whole log, remembering the value of each matching `Set`. */
  method Find(c: CacheInner, k: Key) returns (r: Option<Value>)
    ensures r == LastSet(c.transactions.nodes, k)
  {
    var ret: Value := [];
    var find := false;
    var nodes := c.transactions.nodes;
    for i := 0 to |nodes|
      invariant (if find then Some(ret) else None) == LastSet(nodes[..i], k)
    {
      assert nodes[..i + 1][..i] == nodes[..i];
      match nodes[i].op {
        case Set(key, value) =>
          if k == key {
            find := true;
            ret := value;
          }
        case Delete(_) =>
      }
    }
    assert nodes[..|nodes|] == nodes;
    if find {
      return Some(ret);
    }
    return None;
  }

  /** The older pass-through layer: every call, `set` included, answers what the adapter answers. */
  class DBMiddleware {
    const db: MerkleTreeDB

    constructor (db: MerkleTreeDB)
      ensures this.db == db
    {
      this.db := db;
    }

    function Get(k: Key): (r: LegacyResult<Option<Value>>)
      reads db.m
      ensures r == db.Get(k)
    {
      db.Get(k)
    }

    method Set(k: Key, v: Value) returns (r: LegacyResult<()>)
      modifies db.m`tree
      ensures ApplyOutcome(Forget, db.m.faults, old(db.m.tree), old(db.m.tree)[k := v], (), r, db.m.tree)
    {
      r := db.Set(k, v);
    }

    method Delete(k: Key) returns (r: LegacyResult<()>)
      modifies db.m`tree
      ensures ApplyOutcome(Forget, db.m.faults, old(db.m.tree), old(db.m.tree) - {k}, (), r, db.m.tree)
    {
      r := db.Delete(k);
    }

    method Prove(req: ProveRequest) returns (r: LegacyResult<ProveResponse>)
      ensures r == ProveOutcome(Forget, db.m, req.query)
    {
      r := db.Prove(req);
    }

    method Verify(req: VerifyRequest) returns (r: LegacyResult<VerifyResponse>)
      ensures VerifyOutcome(Propagate, db.m.checker, req.proof, req.expectedRoot, req.kv, r)
    {
      r := db.Verify(req);
    }

    method Commit(operations: seq<Operation>) returns (r: LegacyResult<()>)
      modifies db.m`tree, db.m`durable
      ensures CommitOutcome(Forget, db.m.faults, old(db.m.tree), old(db.m.durable), operations, r, db.m.tree, db.m.durable)
    {
      r := db.Commit(operations);
    }

    function RootHash(): (d: Digest)
      reads db.m
      ensures d == db.RootHash()
    {
      db.RootHash()
    }

    /** The default `TreeMiddleware::clean`. */
    method Clean() returns (r: LegacyResult<()>)
      ensures r == Success(())
    {
      return Success(());
    }
  }

  /** The older write buffer: as `Cache.CacheMiddleware`, with `set` answering unit. */
  class CacheMiddleware {
    var buffer: map<Key, Option<Value>>
    const inner: DBMiddleware
    const version: nat

    constructor (mid: DBMiddleware)
      ensures inner == mid && buffer == map[] && version == 0
    {
      inner := mid;
      buffer := map[];
      version := 0;
    }

    /** A buffered intent answers; otherwise exactly what the layer below answers, error included. */
    function Get(k: Key): (r: LegacyResult<Option<Value>>)
      reads this, inner.db.m
      ensures k in buffer && buffer[k].Some? ==> r == Success(Some(buffer[k].value))
      ensures k in buffer && buffer[k].None? ==> r == Success(None)
      ensures k !in buffer ==> r == inner.Get(k)
    {
      Cache.ReadThrough(buffer, k, inner.Get(k))
    }

    method Set(k: Key, v: Value) returns (r: LegacyResult<()>)
      modifies this`buffer
      ensures buffer == old(buffer)[k := Some(v)]
      ensures r == Success(())
      ensures Get(k) == Success(Some(v))
      ensures forall j :: j != k ==> Get(j) == old(Get(j))
      ensures RootHash() == old(RootHash())
    {
      buffer := buffer[k := Some(v)];
      return Success(());
    }

    method Delete(k: Key) returns (r: LegacyResult<()>)
      modifies this`buffer
      ensures buffer == old(buffer)[k := None]
      ensures r == Success(())
      ensures Get(k) == Success(None)
      ensures forall j :: j != k ==> Get(j) == old(Get(j))
      ensures RootHash() == old(RootHash())
    {
      buffer := buffer[k := None];
      return Success(());
    }

    method Prove(req: ProveRequest) returns (r: LegacyResult<ProveResponse>)
      ensures r == ProveOutcome(Forget, inner.db.m, req.query)
    {
      r := inner.Prove(req);
    }

    method Verify(req: VerifyRequest) returns (r: LegacyResult<VerifyResponse>)
      ensures VerifyOutcome(Propagate, inner.db.m.checker, req.proof, req.expectedRoot, req.kv, r)
    {
      r := inner.Verify(req);
    }

    /** Takes the buffer, leaves an empty one, and forwards `operations` followed by the
        drained intents. */
    method Commit(operations: seq<Operation>) returns (r: LegacyResult<()>)
      modifies this`buffer, inner.db.m`tree, inner.db.m`durable
      ensures buffer == map[]
      ensures CommitOutcome(Forget, inner.db.m.faults, old(inner.db.m.tree), old(inner.db.m.durable),
                            operations + Cache.Drain(old(buffer)), r, inner.db.m.tree, inner.db.m.durable)
    {
      var taken := buffer;
      buffer := map[];
      var ops := Cache.DrainInto(operations, taken);
      r := inner.Commit(ops);
    }

    function RootHash(): (d: Digest)
      reads inner.db.m
      ensures d == inner.RootHash()
    {
      inner.RootHash()
    }

    method Clean() returns (r: LegacyResult<()>)
      modifies this`buffer
      ensures buffer == map[] && r == Success(())
      ensures forall k :: Get(k) == inner.Get(k)
    {
      buffer := map[];
      return Success(());
    }
  }
}
