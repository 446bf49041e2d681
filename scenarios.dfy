/**
 * The store's own usage scenarios, stated over an arbitrary engine: the
 * stack `CacheMiddleware -> DBMiddleware -> MerkleRocksDB -> merk` (and its
 * older counterpart over `MerkleTreeDB`) built on top of it, driven through
 * the calls the tests make.
 */
module Scenarios {
  import opened Wrappers
  import opened Types
  import opened Error
  import opened Engine
  import opened Couple
  import opened Merkle
  import opened Middleware
  import opened Cache
  import Instance
  import LegacyMiddleware

  const K: Key := [1, 2, 3]
  const V: Value := [4, 5, 6]
  const Other: Value := [9, 9, 9]

  /** `CacheMiddleware::new(DBMiddleware::new(MerkleRocksDB::new(m)))`. */
  method NewCacheMerkle(e: Merk) returns (cache: CacheMiddleware)
    ensures fresh(cache) && cache.inner.db.m == e && cache.buffer == map[]
  {
    var db := new MerkleRocksDB(e);
    var mid := new DBMiddleware(db);
    cache := new CacheMiddleware(mid);
  }

  /** Read-your-writes: a buffered value is read back, whatever the engine holds or fails with. */
  method ReadYourWrites(e: Merk) returns (got: ZKResult<Option<Value>>)
    ensures got == Success(Some(V))
  {
    var cache := NewCacheMerkle(e);
    var _ := cache.Set(K, V);
    got := cache.Get(K);
  }

  /** A tombstone hides what the engine holds. */
  method DeleteHidesStoredValue(e: Merk) returns (got: ZKResult<Option<Value>>)
    ensures got == Success(None)
  {
    var cache := NewCacheMerkle(e);
    var _ := cache.Set(K, V);
    var _ := cache.Delete(K);
    got := cache.Get(K);
  }

  /** The first half of the prove/verify test: set, commit, take the root and prove the key.
      The proof checks against the root and shows the committed value. */
  method SetCommitProve(e: Merk) returns (cache: CacheMiddleware, proof: Bytes, root: Digest)
    requires e.Sound() && e.faults == NoFaults
    modifies e`tree, e`durable
    ensures fresh(cache) && cache.inner.db.m == e
    ensures e.checker(proof, root).Success? && e.checker(proof, root).value(K) == Success(Some(V))
  {
    cache := NewCacheMerkle(e);
    var _ := cache.Set(K, V);
    ghost var buf := cache.buffer;
    ghost var t0 := e.tree;
    var _ := cache.Commit([]);
    CommitAppliesIntents(t0, [], buf, K);
    assert Lookup(e.tree, K) == Some(V);
    root := cache.RootHash();
    var req := new ProveRequest();
    req.Insert(K);
    var proved := cache.Prove(req);
    assert QueryOf(req.query) == {K};
    proof := proved.value.proof;
  }

  /** The prove/verify test: the committed value is accepted and any other value is rejected,
      on an engine whose proofs are sound and whose calls succeed. */
  method ProveVerifyRoundTrip(e: Merk) returns (accepted: ZKResult<VerifyResponse>, tampered: ZKResult<VerifyResponse>)
    requires e.Sound() && e.faults == NoFaults
    modifies e`tree, e`durable
    ensures accepted == Success(VerifyResponse(true))
    ensures tampered == Success(VerifyResponse(false))
  {
    var cache, proof, root := SetCommitProve(e);
    ghost var view := e.checker(proof, root).value;

    var vreq := new VerifyRequest(proof, root);
    vreq.Insert(K, V);
    accepted := cache.Verify(vreq);
    assert Covered(view, vreq.kv);

    var treq := new VerifyRequest(proof, root);
    treq.Insert(K, Other);
    tampered := cache.Verify(treq);
    assert Mismatch(view, treq.kv, K);
  }

  /** A failed commit loses the buffered intents: the buffer is emptied before the layer
      below runs, so afterwards a read answers from the unchanged engine. */
  method CommitFailureLosesWrites(e: Merk) returns (r: ZKResult<()>, got: ZKResult<Option<Value>>)
    requires e.faults.apply.Some? && e.faults.get.None?
    modifies e`tree, e`durable
    ensures r == Failure(Wrap(e.faults.apply.value))
    ensures got == Success(Lookup(old(e.tree), K))
  {
    var cache := NewCacheMerkle(e);
    var _ := cache.Set(K, V);
    r := cache.Commit([]);
    got := cache.Get(K);
  }

  /** `CacheMiddleware::new(DBMiddleware::new(MerkleTreeDB::new(m)))` in the older stack. */
  method NewLegacyCacheMerkle(e: Merk) returns (cache: LegacyMiddleware.CacheMiddleware)
    ensures fresh(cache) && cache.inner.db.m == e && cache.buffer == map[]
  {
    var db := new Instance.MerkleTreeDB(e);
    var mid := new LegacyMiddleware.DBMiddleware(db);
    cache := new LegacyMiddleware.CacheMiddleware(mid);
  }

  /** The first half of the older stack's test: set (never committed), take the root and
      prove the key. The proof shows what the engine held all along. */
  method LegacySetProve(e: Merk) returns (cache: LegacyMiddleware.CacheMiddleware, proof: Bytes, root: Digest)
    requires e.Sound() && e.faults == NoFaults
    ensures fresh(cache) && cache.inner.db.m == e
    ensures e.checker(proof, root).Success? && e.checker(proof, root).value(K) == Success(Lookup(e.tree, K))
  {
    cache := NewLegacyCacheMerkle(e);
    var _ := cache.Set(K, V);
    var req := new ProveRequest();
    req.Insert(K);
    root := cache.RootHash();
    var proved := cache.Prove(req);
    assert QueryOf(req.query) == {K};
    proof := proved.value.proof;
  }

  /** The older stack's test: the engine never saw the write, so the answer is `true` exactly
      when it holds no other value for the key; a key the proof shows absent is not checked. */
  method LegacyProveVerifyWithoutCommit(e: Merk) returns (answer: Instance.LegacyResult<VerifyResponse>)
    requires e.Sound() && e.faults == NoFaults
    ensures answer == Success(VerifyResponse(Lookup(e.tree, K) == None || Lookup(e.tree, K) == Some(V)))
  {
    var cache, proof, root := LegacySetProve(e);
    ghost var view := e.checker(proof, root).value;
    var vreq := new VerifyRequest(proof, root);
    vreq.Insert(K, V);
    answer := cache.Verify(vreq);
    assert Covered(view, vreq.kv);
    assert (exists k :: Mismatch(view, vreq.kv, k)) <==> Mismatch(view, vreq.kv, K);
  }

  /** The older stack's read-your-writes test. */
  method LegacyReadYourWrites(e: Merk) returns (got: Instance.LegacyResult<Option<Value>>)
    ensures got == Success(Some(V))
  {
    var cache := NewLegacyCacheMerkle(e);
    var _ := cache.Set(K, V);
    got := cache.Get(K);
  }
}
