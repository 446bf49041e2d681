/**
 * The `merk` Merkle-tree engine, which the store drives but does not
 * implement. It is kept abstract: a map of applied contents, the contents
 * as of the last flush, a per-call failure the environment chooses, and
 * three functions fixed when the engine is opened and otherwise arbitrary:
 * the root digest of a content map, the proof bytes for a key set, and the
 * proof checker (`merk::verify`), which either fails or yields a view that
 * answers lookups for the keys the proof covers.
 */
module Engine {
  import opened Wrappers
  import opened Types

  /** `merk::Op`. */
  datatype Op = Put(value: Value) | Del

  /** `merk::BatchEntry`. */
  type BatchEntry = (Key, Op)

  function ApplyEntry(t: map<Key, Value>, e: BatchEntry): (t': map<Key, Value>)
    ensures e.1.Put? ==> t' == t[e.0 := e.1.value]
    ensures e.1.Del? ==> t' == t - {e.0}
  {
    match e.1
    case Put(v) => t[e.0 := v]
    case Del => t - {e.0}
  }

  /** Applying a batch entry by entry, in order. */
  function ApplyBatch(t: map<Key, Value>, batch: seq<BatchEntry>): map<Key, Value>
    decreases |batch|
  {
    if batch == [] then t else ApplyBatch(ApplyEntry(t, batch[0]), batch[1..])
  }

  lemma {:induction false} ApplyBatchAppend(t: map<Key, Value>, a: seq<BatchEntry>, b: seq<BatchEntry>)
    ensures ApplyBatch(t, a + b) == ApplyBatch(ApplyBatch(t, a), b)
    decreases |a|
  {
    if a != [] {
      assert (a + b)[0] == a[0] && (a + b)[1..] == a[1..] + b;
      ApplyBatchAppend(ApplyEntry(t, a[0]), a[1..], b);
    } else {
      assert a + b == b;
    }
  }

  /** The reconstructed view of a checked proof: `Map::get` per key, failing for keys it does not cover. */
  type ProofView = Key -> Result<Option<Value>, string>

  /** Which engine calls fail, and with what cause; `None` means that call succeeds. */
  datatype Faults = Faults(get: Option<string>, apply: Option<string>, flush: Option<string>, prove: Option<string>)

  const NoFaults := Faults(None, None, None, None)

  /** A checked proof answers every key it was built for with that key's content. */
  ghost predicate Attests(checked: Result<ProofView, string>, t: map<Key, Value>, q: set<Key>) {
    checked.Success? && forall k :: k in q ==> checked.value(k) == Success(Lookup(t, k))
  }

  class Merk {
    var tree: map<Key, Value>
    var durable: map<Key, Value>
    var faults: Faults
    const rootOf: map<Key, Value> -> Digest
    const prover: (map<Key, Value>, set<Key>) -> Bytes
    const checker: (Bytes, Digest) -> Result<ProofView, string>

    /** `Merk::open` on a store whose last flush left `contents`. */
    constructor Open(contents: map<Key, Value>, rootOf: map<Key, Value> -> Digest,
                     prover: (map<Key, Value>, set<Key>) -> Bytes,
                     checker: (Bytes, Digest) -> Result<ProofView, string>, faults: Faults)
      ensures tree == contents && durable == contents && this.faults == faults
      ensures this.rootOf == rootOf && this.prover == prover && this.checker == checker
    {
      tree := contents;
      durable := contents;
      this.faults := faults;
      this.rootOf := rootOf;
      this.prover := prover;
      this.checker := checker;
    }

    /** Idealised soundness: a proof built for a key set checks against the root of
        the same contents and answers each of those keys truthfully. */
    ghost predicate Sound() {
      forall t, q :: Attests(checker(prover(t, q), rootOf(t)), t, q)
    }

    function Get(k: Key): (r: Result<Option<Value>, string>)
      reads this
      ensures faults.get.Some? ==> r == Failure(faults.get.value)
      ensures faults.get.None? ==> r == Success(Lookup(tree, k))
    {
      if faults.get.Some? then Failure(faults.get.value) else Success(Lookup(tree, k))
    }

    /** Applies a whole batch, or nothing if the call fails. */
    method Apply(batch: seq<BatchEntry>) returns (r: Result<(), string>)
      modifies this`tree
      ensures faults.apply.Some? ==> r == Failure(faults.apply.value) && tree == old(tree)
      ensures faults.apply.None? ==> r == Success(()) && tree == ApplyBatch(old(tree), batch)
    {
      if faults.apply.Some? {
        return Failure(faults.apply.value);
      }
      tree := ApplyBatch(tree, batch);
      return Success(());
    }

    /** Makes the applied contents durable. */
    method Flush() returns (r: Result<(), string>)
      modifies this`durable
      ensures faults.flush.Some? ==> r == Failure(faults.flush.value) && durable == old(durable)
      ensures faults.flush.None? ==> r == Success(()) && durable == tree
    {
      if faults.flush.Some? {
        return Failure(faults.flush.value);
      }
      durable := tree;
      return Success(());
    }

    method Prove(q: set<Key>) returns (r: Result<Bytes, string>)
      ensures faults.prove.Some? ==> r == Failure(faults.prove.value)
      ensures faults.prove.None? ==> r == Success(prover(tree, q))
    {
      if faults.prove.Some? {
        return Failure(faults.prove.value);
      }
      return Success(prover(tree, q));
    }

    /** The root digest of the applied contents. */
    function RootHash(): (d: Digest)
      reads this
      ensures d == rootOf(tree)
    {
      rootOf(tree)
    }
  }
}
