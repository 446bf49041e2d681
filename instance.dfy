/**
 * `MerkleTreeDB`, the older adapter over the `merk` engine. It drives the
 * engine exactly as `MerkleRocksDB` does, but reports failures differently:
 * `get`, `set`, `delete`, `prove`, `commit` and `batch_operation` replace
 * every engine failure by a bare `Unknown` error and drop its cause, while
 * `verify` passes the checker's and the view's own errors through as they
 * are. `set` answers unit rather than the key.
 */
module Instance {
  import opened Wrappers
  import opened Types
  import opened Engine
  import opened Couple
  import opened Merkle

  /** The errors the older layers report: the cause-less `ErrorEnums::Unknown`, or a
      foreign error passed through with `?`. */
  datatype LegacyError = Unknown | Raw(cause: string)

  type LegacyResult<T> = Result<T, LegacyError>

  /** `map_err(|e| ErrorEnums::Unknown.into())`: the cause is discarded. */
  function Forget(cause: string): (e: LegacyError)
    ensures e == Unknown
  {
    Unknown
  }

  /** `?` on a foreign error: the cause is passed through. */
  function Propagate(cause: string): (e: LegacyError)
    ensures e.Raw? && e.cause == cause
  {
    Raw(cause)
  }

  class MerkleTreeDB {
    const m: Merk

    constructor (m: Merk)
      ensures this.m == m
    {
      this.m := m;
    }

    function Get(k: Key): (r: LegacyResult<Option<Value>>)
      reads m
      ensures m.faults.get.None? ==> r == Success(Lookup(m.tree, k))
      ensures m.faults.get.Some? ==> r == Failure(Unknown)
    {
      match m.Get(k)
      case Success(v) => Success(v)
      case Failure(e) => Failure(Forget(e))
    }

    /** A single-entry `Put` batch; answers unit. */
    method Set(k: Key, v: Value) returns (r: LegacyResult<()>)
      modifies m`tree
      ensures ApplyOutcome(Forget, m.faults, old(m.tree), old(m.tree)[k := v], (), r, m.tree)
    {
      var applied := m.Apply([(k, Put(v))]);
      if applied.Failure? {
        return Failure(Forget(applied.error));
      }
      return Success(());
    }

    /** A single-entry `Delete` batch. */
    method Delete(k: Key) returns (r: LegacyResult<()>)
      modifies m`tree
      ensures ApplyOutcome(Forget, m.faults, old(m.tree), old(m.tree) - {k}, (), r, m.tree)
    {
      var applied := m.Apply([(k, Del)]);
      if applied.Failure? {
        return Failure(Forget(applied.error));
      }
      return Success(());
    }

    method Prove(req: ProveRequest) returns (r: LegacyResult<ProveResponse>)
      ensures r == ProveOutcome(Forget, m, req.query)
    {
      var q := BuildQuery(req.query);
      assert q == QueryOf(req.query);
      var proof := m.Prove(q);
      if proof.Failure? {
        return Failure(Forget(proof.error));
      }
      return Success(ProveResponse(proof.value));
    }

    /** The checker's error and a view lookup's error are returned raw. */
    method Verify(req: VerifyRequest) returns (r: LegacyResult<VerifyResponse>)
      ensures VerifyOutcome(Propagate, m.checker, req.proof, req.expectedRoot, req.kv, r)
    {
      var checked := m.checker(req.proof, req.expectedRoot);
      if checked.Failure? {
        return Failure(Propagate(checked.error));
      }
      r := CheckAssertions(checked.value, req.kv, Propagate);
    }

    method BatchOperation(ops: seq<Operation>) returns (r: LegacyResult<()>)
      modifies m`tree
      ensures ApplyOutcome(Forget, m.faults, old(m.tree), ApplyBatch(old(m.tree), BatchOf(ops)), (), r, m.tree)
    {
      var batch := ToBatch(ops);
      ToBatchIsBatchOf(ops, batch);
      var applied := m.Apply(batch);
      if applied.Failure? {
        return Failure(Forget(applied.error));
      }
      return Success(());
    }

    /** `batch_operation(operations)?` and then `flush`. */
    method Commit(operations: seq<Operation>) returns (r: LegacyResult<()>)
      modifies m`tree, m`durable
      ensures CommitOutcome(Forget, m.faults, old(m.tree), old(m.durable), operations, r, m.tree, m.durable)
    {
      r := BatchOperation(operations);
      if r.Failure? {
        return;
      }
      var flushed := m.Flush();
      if flushed.Failure? {
        return Failure(Forget(flushed.error));
      }
      return Success(());
    }

    function RootHash(): (d: Digest)
      reads m
      ensures d == m.rootOf(m.tree)
    {
      m.RootHash()
    }
  }
}
