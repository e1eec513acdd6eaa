/** The reservation of transaction hashes across purchases and requests. */
module NimiqTx {
  import opened Payment

  predicate Used(owners: Consumed, hash: string) { hash in owners }

  /** The hash is reserved for this object. */
  predicate Reserved(owners: Consumed, hash: string, key: Key) { hash in owners && owners[hash] == key }

  class ConsumedTransactions {
    var owners: Consumed

    constructor ()
      ensures owners == map[]
    {
      owners := map[];
    }

    /** Inserting a hash that is there already violates the primary key. */
    method Consume(hash: string, key: Key) returns (ok: bool)
      modifies this
      ensures ok <==> !Used(old(owners), hash)
      ensures owners == if ok then old(owners)[hash := key] else old(owners)
    {
      ok := hash !in owners;
      if ok {
        owners := owners[hash := key];
      }
    }
  }
}
