/**
 * `CacheMiddleware`, the write-buffering layer. It owns an ordered map from
 * key to `Some(value)` (a pending set) or `None` (a tombstone, a pending
 * delete) in front of the pass-through layer. Reads look in the buffer
 * first; writes only touch the buffer; `commit` empties the buffer and sends
 * the caller's operations followed by the buffered intents, in ascending key
 * order, to the layer below; `clean` throws the buffer away. Proofs, checks
 * and the root are answered by the layer below and never see the buffer.
 */
module Cache {
  import opened Wrappers
  import opened Types
  import opened Error
  import opened Engine
  import opened Couple
  import opened KeyOrder
  import opened Merkle
  import opened Middleware

  /** The operation a buffered intent turns into when the buffer is drained. */
  function OpOf(k: Key, intent: Option<Value>): (op: Operation)
    ensures op.key == k
    ensures op.Set? <==> intent.Some?
    ensures op.Set? ==> op.value == intent.value
  {
    match intent
    case Some(value) => Set(k, value)
    case None => Delete(k)
  }

  function OpsFor(buf: map<Key, Option<Value>>, ks: seq<Key>): seq<Operation>
    requires forall k :: k in ks ==> k in buf
  {
    seq(|ks|, i requires 0 <= i < |ks| => OpOf(ks[i], buf[ks[i]]))
  }

  lemma OpsForCons(buf: map<Key, Option<Value>>, k: Key, ks: seq<Key>)
    requires k in buf && forall j :: j in ks ==> j in buf
    ensures OpsFor(buf, [k] + ks) == [OpOf(k, buf[k])] + OpsFor(buf, ks)
  {
  }

  /** The operations a buffer drains into, as `commit` appends them. */
  ghost function Drain(buf: map<Key, Option<Value>>): seq<Operation> {
    OpsFor(buf, SortedKeys(buf.Keys))
  }

  lemma DrainKeys(buf: map<Key, Option<Value>>)
    ensures |Drain(buf)| == |SortedKeys(buf.Keys)|
    ensures forall i :: 0 <= i < |Drain(buf)| ==> Drain(buf)[i] == OpOf(SortedKeys(buf.Keys)[i], buf[SortedKeys(buf.Keys)[i]])
  {
  }

  /** One operation per buffered key, `Set` for a pending value and `Delete` for a tombstone. */
  lemma DrainOnePerKey(buf: map<Key, Option<Value>>)
    ensures |Drain(buf)| == |buf|
    ensures forall i :: 0 <= i < |Drain(buf)| ==>
              Drain(buf)[i].key in buf && Drain(buf)[i] == OpOf(Drain(buf)[i].key, buf[Drain(buf)[i].key])
    ensures forall k :: k in buf ==> exists i :: 0 <= i < |Drain(buf)| && Drain(buf)[i].key == k
  {
    var ks := SortedKeys(buf.Keys);
    var d := Drain(buf);
    DrainKeys(buf);
    forall k | k in buf
      ensures exists i :: 0 <= i < |d| && d[i].key == k
    {
      var i :| 0 <= i < |ks| && ks[i] == k;
      assert d[i].key == k;
    }
  }

  /** The drained operations name their keys in strictly ascending order. */
  lemma DrainAscending(buf: map<Key, Option<Value>>)
    ensures forall i, j :: 0 <= i < j < |Drain(buf)| ==> Less(Drain(buf)[i].key, Drain(buf)[j].key)
  {
    DrainKeys(buf);
  }

  /** `get`: a buffered intent answers without consulting the layer below. */
  function ReadThrough<E>(buf: map<Key, Option<Value>>, k: Key, below: Result<Option<Value>, E>): (r: Result<Option<Value>, E>)
    ensures k in buf ==> r == Success(buf[k])
    ensures k !in buf ==> r == below
  {
    if k !in buf then below
    else match buf[k]
      case Some(value) => Success(Some(value))
      case None => Success(None)
  }

  /** Applying drained intents leaves each drained key with its intent and every other key alone. */
  lemma {:induction false} OpsForApplies(t: map<Key, Value>, buf: map<Key, Option<Value>>, ks: seq<Key>, k: Key)
    requires forall j :: j in ks ==> j in buf
    ensures Lookup(ApplyBatch(t, BatchOf(OpsFor(buf, ks))), k) == if k in ks then buf[k] else Lookup(t, k)
    decreases |ks|
  {
    if ks != [] {
      var head := OpOf(ks[0], buf[ks[0]]);
      assert ks == [ks[0]] + ks[1..];
      OpsForCons(buf, ks[0], ks[1..]);
      BatchOfAppend([head], OpsFor(buf, ks[1..]));
      ApplyBatchAppend(t, BatchOf([head]), BatchOf(OpsFor(buf, ks[1..])));
      OpsForApplies(ApplyBatch(t, BatchOf([head])), buf, ks[1..], k);
    }
  }

  /** After a commit of `ops` plus the drained buffer, a buffered key holds its intent
      and any other key holds what `ops` alone would have left. */
  lemma CommitAppliesIntents(t: map<Key, Value>, ops: seq<Operation>, buf: map<Key, Option<Value>>, k: Key)
    ensures Lookup(ApplyBatch(t, BatchOf(ops + Drain(buf))), k)
         == if k in buf then buf[k] else Lookup(ApplyBatch(t, BatchOf(ops)), k)
  {
    var ks := SortedKeys(buf.Keys);
    BatchOfAppend(ops, Drain(buf));
    ApplyBatchAppend(t, BatchOf(ops), BatchOf(Drain(buf)));
    OpsForApplies(ApplyBatch(t, BatchOf(ops)), buf, ks, k);
  }

  /** Reading through the buffer before a commit with no extra operations sees what
      reading the committed contents sees after it. */
  lemma CommitIsInvisibleToReads<E>(t: map<Key, Value>, buf: map<Key, Option<Value>>, k: Key)
    ensures ReadThrough<E>(buf, k, Success(Lookup(t, k)))
         == Success(Lookup(ApplyBatch(t, BatchOf([] + Drain(buf))), k))
  {
    CommitAppliesIntents(t, [], buf, k);
  }

  /** Draining the least remaining key first. */
  lemma DrainStep(prev: seq<Operation>, buf: map<Key, Option<Value>>, rest: set<Key>, k: Key)
    requires rest <= buf.Keys && IsLeast(k, rest)
    ensures (prev + [OpOf(k, buf[k])]) + OpsFor(buf, SortedKeys(rest - {k})) == prev + OpsFor(buf, SortedKeys(rest))
  {
    SortedKeysFromLeast(rest, k);
    OpsForCons(buf, k, SortedKeys(rest - {k}));
  }

  /** The loop of `commit`: appends one operation per buffered key, least key first. */
  method DrainInto(operations: seq<Operation>, buf: map<Key, Option<Value>>) returns (ops: seq<Operation>)
    ensures ops == operations + Drain(buf)
  {
    ops := operations;
    var rest := buf.Keys;
    while rest != {}
      invariant rest <= buf.Keys
      invariant ops + OpsFor(buf, SortedKeys(rest)) == operations + OpsFor(buf, SortedKeys(buf.Keys))
      decreases rest
    {
      LeastExists(rest);
      var k :| IsLeast(k, rest);
      var op := match buf[k]
        case Some(value) => Operation.Set(k, value)
        case None => Operation.Delete(k);
      DrainStep(ops, buf, rest, k);
      ops := ops + [op];
      rest := rest - {k};
    }
  }

  class CacheMiddleware {
    var buffer: map<Key, Option<Value>>
    const inner: DBMiddleware
    const version: nat

    /** `CacheMiddleware::new`: an empty buffer, version 0. */
    constructor (mid: DBMiddleware)
      ensures inner == mid && buffer == map[] && version == 0
    {
      inner := mid;
      buffer := map[];
      version := 0;
    }

    /** A buffered intent answers; otherwise exactly what the layer below answers, error included. */
    function Get(k: Key): (r: ZKResult<Option<Value>>)
      reads this, inner.db.m
      ensures k in buffer && buffer[k].Some? ==> r == Success(Some(buffer[k].value))
      ensures k in buffer && buffer[k].None? ==> r == Success(None)
      ensures k !in buffer ==> r == inner.Get(k)
    {
      ReadThrough(buffer, k, inner.Get(k))
    }

    /** Records a pending value; reads of `k` see it at once, nothing below changes. */
    method Set(k: Key, v: Value) returns (r: ZKResult<Key>)
      modifies this`buffer
      ensures buffer == old(buffer)[k := Some(v)]
      ensures r == Success(k)
      ensures Get(k) == Success(Some(v))
      ensures forall j :: j != k ==> Get(j) == old(Get(j))
      ensures RootHash() == old(RootHash())
    {
      buffer := buffer[k := Some(v)];
      return Success(k);
    }

    /** Records a tombstone; reads of `k` see nothing, whatever the layer below holds. */
    method Delete(k: Key) returns (r: ZKResult<()>)
      modifies this`buffer
      ensures buffer == old(buffer)[k := None]
      ensures r == Success(())
      ensures Get(k) == Success(None)
      ensures forall j :: j != k ==> Get(j) == old(Get(j))
      ensures RootHash() == old(RootHash())
    {
      buffer := buffer[k := None];
      return Success(());
    }

    method Prove(req: ProveRequest) returns (r: ZKResult<ProveResponse>)
      ensures r == ProveOutcome(Wrap, inner.db.m, req.query)
    {
      r := inner.Prove(req);
    }

    method Verify(req: VerifyRequest) returns (r: ZKResult<VerifyResponse>)
      ensures VerifyOutcome(Wrap, inner.db.m.checker, req.proof, req.expectedRoot, req.kv, r)
    {
      r := inner.Verify(req);
    }

    /** Empties the buffer first, then forwards `operations` followed by the drained
        intents; the buffer stays empty even when the layer below fails. */
    method Commit(operations: seq<Operation>) returns (r: ZKResult<()>)
      modifies this`buffer, inner.db.m`tree, inner.db.m`durable
      ensures buffer == map[]
      ensures CommitOutcome(Wrap, inner.db.m.faults, old(inner.db.m.tree), old(inner.db.m.durable),
                            operations + Drain(old(buffer)), r, inner.db.m.tree, inner.db.m.durable)
      ensures operations == [] && r.Success? && inner.db.m.faults.get.None? ==>
                forall k :: Get(k) == old(Get(k))
    {
      var taken := buffer;
      buffer := map[];
      var ops := DrainInto(operations, taken);
      r := inner.Commit(ops);
      if operations == [] && r.Success? && inner.db.m.faults.get.None? {
        forall k
          ensures Get(k) == old(Get(k))
        {
          CommitIsInvisibleToReads<ZKError>(old(inner.db.m.tree), taken, k);
          assert inner.db.m.tree == ApplyBatch(old(inner.db.m.tree), BatchOf([] + Drain(taken)));
          assert old(Get(k)) == ReadThrough(taken, k, Success(Lookup(old(inner.db.m.tree), k)));
          assert Get(k) == Success(Lookup(inner.db.m.tree, k));
        }
      }
    }

    /** Forwarded: buffered writes never reach the root. */
    function RootHash(): (d: Digest)
      reads inner.db.m
      ensures d == inner.RootHash()
    {
      inner.RootHash()
    }

    /** Drops every pending intent without forwarding anything. */
    method Clean() returns (r: ZKResult<()>)
      modifies this`buffer
      ensures buffer == map[] && r == Success(())
      ensures forall k :: Get(k) == inner.Get(k)
    {
      buffer := map[];
      return Success(());
    }
  }
}
