/**
 * `DBMiddleware`, the pass-through layer that turns the Merkle adapter into
 * the base of the middleware chain. Every call is forwarded with the same
 * arguments and its result returned as is; `set` re-echoes the key after a
 * successful forward. It is the end of the chain: there is no layer below it
 * to reach, so the `inner()` accessor it carries in Rust has no counterpart.
 */
module Middleware {
  import opened Wrappers
  import opened Types
  import opened Error
  import opened Couple
  import opened Merkle

  class DBMiddleware {
    const db: MerkleRocksDB

    constructor (db: MerkleRocksDB)
      ensures this.db == db
    {
      this.db := db;
    }

    function Get(k: Key): (r: ZKResult<Option<Value>>)
      reads db.m
      ensures r == db.Get(k)
    {
      db.Get(k)
    }

    method Set(k: Key, v: Value) returns (r: ZKResult<Key>)
      modifies db.m`tree
      ensures SetOutcome(db.m.faults, old(db.m.tree), k, v, r, db.m.tree)
      ensures r.Success? ==> r.value == k
    {
      var forwarded := db.Set(k, v);
      if forwarded.Failure? {
        return Failure(forwarded.error);
      }
      return Success(k);
    }

    method Delete(k: Key) returns (r: ZKResult<()>)
      modifies db.m`tree
      ensures DeleteOutcome(db.m.faults, old(db.m.tree), k, r, db.m.tree)
    {
      r := db.Delete(k);
    }

    method Prove(req: ProveRequest) returns (r: ZKResult<ProveResponse>)
      ensures r == ProveOutcome(Wrap, db.m, req.query)
    {
      r := db.Prove(req);
    }

    method Verify(req: VerifyRequest) returns (r: ZKResult<VerifyResponse>)
      ensures VerifyOutcome(Wrap, db.m.checker, req.proof, req.expectedRoot, req.kv, r)
    {
      r := db.Verify(req);
    }

    /** Passes the operation list through unchanged, in content and order. */
    method Commit(operations: seq<Operation>) returns (r: ZKResult<()>)
      modifies db.m`tree, db.m`durable
      ensures CommitOutcome(Wrap, db.m.faults, old(db.m.tree), old(db.m.durable), operations, r, db.m.tree, db.m.durable)
    {
      r := db.Commit(operations);
    }

    function RootHash(): (d: Digest)
      reads db.m
      ensures d == db.RootHash()
    {
      db.RootHash()
    }

    /** The default `TreeMiddleware::clean`: succeeds and changes nothing. */
    method Clean() returns (r: ZKResult<()>)
      ensures r == Success(())
    {
      return Success(());
    }
  }
}
