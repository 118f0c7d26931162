/** Reserved key spaces that the public API refuses. */
module SystemKeys {
  import opened ByteStrings

  /** `\x00idx/` */
  const INDEX_SYS_PREFIX: Bytes := [0, 105, 100, 120, 47]
  /** `\x00txn/` */
  const TXN_SYS_PREFIX: Bytes := [0, 116, 120, 110, 47]

  predicate IsIndexSystemKey(k: Bytes) {
    HasPrefix(k, INDEX_SYS_PREFIX)
  }

  predicate IsTxnSystemKey(k: Bytes) {
    HasPrefix(k, TXN_SYS_PREFIX)
  }

  predicate IsSystemKey(k: Bytes) {
    IsIndexSystemKey(k) || IsTxnSystemKey(k)
  }
}
