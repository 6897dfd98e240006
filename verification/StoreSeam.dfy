/** What the memory and wiki stores share: how a call can fail, and ids made from digests. */
module StoreSeam {

  datatype RpcError = AlreadyExists | NotFound | Outage

  /** The digest of distinct texts is distinct: SHA-256 taken as an abstract injective function. */
  ghost predicate Injective(digest: string -> string) {
    forall a, b :: digest(a) == digest(b) ==> a == b
  }
}
