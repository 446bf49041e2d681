/**
 * `MerkleRocksDB`, the adapter that satisfies the store's capability
 * contract on top of the `merk` engine: operations become engine batch
 * entries, engine failures become `ZKError`s with code UNKNOWN and the
 * engine's cause attached, and `verify` checks the caller's assertions
 * against the view a checked proof yields.
 */
module Merkle {
  import opened Wrappers
  import opened Types
  import opened Error
  import opened Engine
  import opened Couple

  /** An engine failure as the adapter reports it: UNKNOWN, with the engine's cause. */
  function Wrap(cause: string): (e: ZKError)
    ensures e.code == UNKNOWN.GetCode() == 1 && e.msg == UNKNOWN.GetMsg()
    ensures e.err == Some(cause) && e.wrapped.None?
  {
    FromEnum(UNKNOWN).WithError(cause)
  }

  // ---------------------------------------------------------------------
  // Batches

  function EntryOf(op: Operation): BatchEntry {
    match op
    case Set(k, v) => (k, Put(v))
    case Delete(k) => (k, Del)
  }

  /** The batch an operation list stands for, entry by entry. */
  function BatchOf(ops: seq<Operation>): seq<BatchEntry> {
    seq(|ops|, i requires 0 <= i < |ops| => EntryOf(ops[i]))
  }

  lemma BatchOfAppend(a: seq<Operation>, b: seq<Operation>)
    ensures BatchOf(a + b) == BatchOf(a) + BatchOf(b)
  {
  }

  /** `to_batch`: same length, same order, `Set(k, v)` as `(k, Put(v))`, `Delete(k)` as `(k, Delete)`. */
  method ToBatch(ops: seq<Operation>) returns (batch: seq<BatchEntry>)
    ensures |batch| == |ops|
    ensures forall i :: 0 <= i < |ops| ==> batch[i].0 == ops[i].key
    ensures forall i :: 0 <= i < |ops| && ops[i].Set? ==> batch[i].1 == Put(ops[i].value)
    ensures forall i :: 0 <= i < |ops| && ops[i].Delete? ==> batch[i].1 == Del
  {
    batch := [];
    for i := 0 to |ops|
      invariant |batch| == i
      invariant forall j :: 0 <= j < i ==> batch[j] == EntryOf(ops[j])
    {
      match ops[i] {
        case Set(k, v) => batch := batch + [(k, Put(v))];
        case Delete(k) => batch := batch + [(k, Del)];
      }
    }
  }

  lemma ToBatchIsBatchOf(ops: seq<Operation>, batch: seq<BatchEntry>)
    requires |batch| == |ops|
    requires forall i :: 0 <= i < |ops| ==> batch[i].0 == ops[i].key
    requires forall i :: 0 <= i < |ops| && ops[i].Set? ==> batch[i].1 == Put(ops[i].value)
    requires forall i :: 0 <= i < |ops| && ops[i].Delete? ==> batch[i].1 == Del
    ensures batch == BatchOf(ops)
  {
  }

  // ---------------------------------------------------------------------
  // Outcomes shared by every layer that forwards to the adapter

  /** One engine `apply` as an adapter reports it: a failed apply changes nothing and its
      cause is reported through `wrap`; otherwise the contents become `after` and the call
      answers `ok`. */
  ghost predicate ApplyOutcome<T, E>(wrap: string -> E, f: Faults, t0: map<Key, Value>, after: map<Key, Value>,
                                     ok: T, r: Result<T, E>, t1: map<Key, Value>) {
    if f.apply.Some? then r == Failure(wrap(f.apply.value)) && t1 == t0
    else r == Success(ok) && t1 == after
  }

  /** `set`: a single `Put`, echoing the key. */
  ghost predicate SetOutcome(f: Faults, t0: map<Key, Value>, k: Key, v: Value, r: ZKResult<Key>, t1: map<Key, Value>) {
    ApplyOutcome(Wrap, f, t0, t0[k := v], k, r, t1)
  }

  /** `delete`: a single `Delete`. */
  ghost predicate DeleteOutcome(f: Faults, t0: map<Key, Value>, k: Key, r: ZKResult<()>, t1: map<Key, Value>) {
    ApplyOutcome(Wrap, f, t0, t0 - {k}, (), r, t1)
  }

  /** Apply the whole batch, then flush; a failed apply changes and flushes nothing. */
  ghost predicate CommitOutcome<E>(wrap: string -> E, f: Faults, t0: map<Key, Value>, d0: map<Key, Value>,
                                   ops: seq<Operation>, r: Result<(), E>, t1: map<Key, Value>, d1: map<Key, Value>) {
    if f.apply.Some? then r == Failure(wrap(f.apply.value)) && t1 == t0 && d1 == d0
    else
      && t1 == ApplyBatch(t0, BatchOf(ops))
      && if f.flush.Some? then r == Failure(wrap(f.flush.value)) && d1 == d0
         else r == Success(()) && d1 == t1
  }

  /** The set of keys a `Query` holds after inserting each requested key. */
  function QueryOf(keys: seq<Key>): (q: set<Key>)
    ensures forall k :: k in q <==> k in keys
  {
    set k | k in keys
  }

  /** `for k in req.query { q.insert_key(k) }`. */
  method BuildQuery(keys: seq<Key>) returns (q: set<Key>)
    ensures forall k :: k in q <==> k in keys
  {
    q := {};
    for i := 0 to |keys|
      invariant forall k :: k in q <==> k in keys[..i]
    {
      q := q + {keys[i]};
    }
    assert keys[..|keys|] == keys;
  }

  /** `prove`: the engine's proof for the set of every requested key. */
  ghost function ProveOutcome<E>(wrap: string -> E, m: Merk, keys: seq<Key>): Result<ProveResponse, E>
    reads m
  {
    if m.faults.prove.Some? then Failure(wrap(m.faults.prove.value))
    else Success(ProveResponse(m.prover(m.tree, QueryOf(keys))))
  }

  // ---------------------------------------------------------------------
  // The assertion loop of `verify`

  /** The view holds a value for `k` and it differs from the asserted one. */
  ghost predicate Mismatch(view: ProofView, kv: map<Key, Value>, k: Key) {
    k in kv && view(k).Success? && view(k).value.Some? && view(k).value.value != kv[k]
  }

  /** Every asserted key can be looked up in the view (possibly as absent). */
  ghost predicate Covered(view: ProofView, kv: map<Key, Value>) {
    forall k :: k in kv ==> view(k).Success?
  }

  /** What the loop may answer. A key the view proves absent is not enforced; since
      `kv` is a hash map visited in no fixed order, only a lookup failure can make
      the answer depend on that order. */
  ghost predicate AssertionsChecked<E>(view: ProofView, kv: map<Key, Value>, wrap: string -> E,
                                       r: Result<VerifyResponse, E>) {
    && (r.Failure? ==> exists k :: k in kv && view(k).Failure? && r.error == wrap(view(k).error))
    && (r.Success? && !r.value.valid ==> exists k :: Mismatch(view, kv, k))
    && (r.Success? && r.value.valid ==> Covered(view, kv) && forall k :: !Mismatch(view, kv, k))
    && (Covered(view, kv) ==> r.Success? && (r.value.valid <==> !exists k :: Mismatch(view, kv, k)))
  }

  /** `for (k, v) in req.kv`: stop with `false` at the first key present with another value,
      stop with an error at a key the view cannot answer, otherwise `true`. */
  method CheckAssertions<E>(view: ProofView, kv: map<Key, Value>, wrap: string -> E)
    returns (r: Result<VerifyResponse, E>)
    ensures AssertionsChecked(view, kv, wrap, r)
  {
    var ret := DefaultVerifyResponse();
    var rest := kv.Keys;
    while rest != {}
      invariant rest <= kv.Keys
      invariant forall k :: k in kv && k !in rest ==> view(k).Success? && !Mismatch(view, kv, k)
      decreases rest
    {
      var k :| k in rest;
      var valueOpt := view(k);
      if valueOpt.Failure? {
        return Failure(wrap(valueOpt.error));
      }
      if valueOpt.value.Some? && valueOpt.value.value != kv[k] {
        assert Mismatch(view, kv, k);
        ret := ret.(valid := false);
        return Success(ret);
      }
      rest := rest - {k};
    }
    ret := ret.(valid := true);
    return Success(ret);
  }

  /** `verify` against a checker: a failed check is an error, otherwise the assertion loop. */
  ghost predicate VerifyOutcome<E>(wrap: string -> E, checker: (Bytes, Digest) -> Result<ProofView, string>,
                                   proof: Bytes, root: Digest, kv: map<Key, Value>, r: Result<VerifyResponse, E>) {
    match checker(proof, root)
    case Failure(e) => r == Failure(wrap(e))
    case Success(view) => AssertionsChecked(view, kv, wrap, r)
  }

  // ---------------------------------------------------------------------

  class MerkleRocksDB {
    const m: Merk

    constructor (m: Merk)
      ensures this.m == m
    {
      this.m := m;
    }

    function Get(k: Key): (r: ZKResult<Option<Value>>)
      reads m
      ensures m.faults.get.None? ==> r == Success(Lookup(m.tree, k))
      ensures m.faults.get.Some? ==> r == Failure(Wrap(m.faults.get.value))
    {
      match m.Get(k)
      case Success(v) => Success(v)
      case Failure(e) => Failure(Wrap(e))
    }

    /** A single-entry `Put` batch; echoes the key on success. */
    method Set(k: Key, v: Value) returns (r: ZKResult<Key>)
      modifies m`tree
      ensures SetOutcome(m.faults, old(m.tree), k, v, r, m.tree)
    {
      var applied := m.Apply([(k, Put(v))]);
      if applied.Failure? {
        return Failure(Wrap(applied.error));
      }
      return Success(k);
    }

    /** A single-entry `Delete` batch. */
    method Delete(k: Key) returns (r: ZKResult<()>)
      modifies m`tree
      ensures DeleteOutcome(m.faults, old(m.tree), k, r, m.tree)
    {
      var applied := m.Apply([(k, Del)]);
      if applied.Failure? {
        return Failure(Wrap(applied.error));
      }
      return Success(());
    }

    /** Builds the query from every requested key, then asks the engine for a proof. */
    method Prove(req: ProveRequest) returns (r: ZKResult<ProveResponse>)
      ensures r == ProveOutcome(Wrap, m, req.query)
    {
      var q := BuildQuery(req.query);
      assert q == QueryOf(req.query);
      var proof := m.Prove(q);
      if proof.Failure? {
        return Failure(Wrap(proof.error));
      }
      return Success(ProveResponse(proof.value));
    }

    method Verify(req: VerifyRequest) returns (r: ZKResult<VerifyResponse>)
      ensures VerifyOutcome(Wrap, m.checker, req.proof, req.expectedRoot, req.kv, r)
    {
      var checked := m.checker(req.proof, req.expectedRoot);
      if checked.Failure? {
        return Failure(Wrap(checked.error));
      }
      r := CheckAssertions(checked.value, req.kv, Wrap);
    }

    /** `batch_operation`: converts and applies the whole list at once. */
    method BatchOperation(ops: seq<Operation>) returns (r: ZKResult<()>)
      modifies m`tree
      ensures m.faults.apply.Some? ==> r == Failure(Wrap(m.faults.apply.value)) && m.tree == old(m.tree)
      ensures m.faults.apply.None? ==> r == Success(()) && m.tree == ApplyBatch(old(m.tree), BatchOf(ops))
    {
      var batch := ToBatch(ops);
      ToBatchIsBatchOf(ops, batch);
      var applied := m.Apply(batch);
      if applied.Failure? {
        return Failure(Wrap(applied.error));
      }
      return Success(());
    }

    method Commit(operations: seq<Operation>) returns (r: ZKResult<()>)
      modifies m`tree, m`durable
      ensures CommitOutcome(Wrap, m.faults, old(m.tree), old(m.durable), operations, r, m.tree, m.durable)
    {
      r := BatchOperation(operations);
      if r.Failure? {
        return;
      }
      var flushed := m.Flush();
      if flushed.Failure? {
        return Failure(Wrap(flushed.error));
      }
      return Success(());
    }

    /** The root of the applied contents; infallible, always 32 bytes. */
    function RootHash(): (d: Digest)
      reads m
      ensures d == m.rootOf(m.tree)
    {
      m.RootHash()
    }
  }
}
