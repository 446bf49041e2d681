/**
 * The request and response objects of the prove/verify protocol. A
 * `ProveRequest` is an append-only list of keys; a `VerifyRequest` carries
 * proof bytes, the expected root and a key -> expected value assertion map
 * that later insertions overwrite.
 */
module Couple {
  import opened Types

  class ProveRequest {
    var query: seq<Key>

    /** `ProveRequest::default()`. */
    constructor ()
      ensures query == []
    {
      query := [];
    }

    /** Appends `k`; earlier keys stay, duplicates are kept. */
    method Insert(k: Key)
      modifies this
      ensures query == old(query) + [k]
    {
      query := query + [k];
    }
  }

  datatype ProveResponse = ProveResponse(proof: Bytes)

  class VerifyRequest {
    const proof: Bytes
    const expectedRoot: Digest
    var kv: map<Key, Value>

    /** `VerifyRequest::new(proof, expected_root)`: no assertions yet. */
    constructor (proof: Bytes, expectedRoot: Digest)
      ensures this.proof == proof && this.expectedRoot == expectedRoot
      ensures kv == map[]
    {
      this.proof := proof;
      this.expectedRoot := expectedRoot;
      kv := map[];
    }

    /** Asserts `k -> v`, replacing an earlier assertion on `k`. */
    method Insert(k: Key, v: Value)
      modifies this
      ensures kv == old(kv)[k := v]
      ensures k in kv && kv[k] == v
      ensures forall j :: j != k ==> (j in kv <==> j in old(kv)) && (j in kv ==> kv[j] == old(kv)[j])
    {
      kv := kv[k := v];
    }
  }

  datatype VerifyResponse = VerifyResponse(valid: bool)

  /** `VerifyResponse::default()`: not valid until shown otherwise. */
  function DefaultVerifyResponse(): (r: VerifyResponse)
    ensures !r.valid
  {
    VerifyResponse(false)
  }
}
