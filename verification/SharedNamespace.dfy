/** The audit log, the idempotency cache and the control tokens share one namespace of the store. */
module SharedNamespace {
  import opened Bytes
  import opened Store
  import AuditRing
  import DecimalKeys
  import Idempotency
  import IdempotencyStore

  /** A key that starts with anything but a digit or a plus sign has no number. */
  lemma NoNumber(key: bytes)
    requires key != [] && !DecimalKeys.IsDigit(key[0]) && key[0] != DecimalKeys.PLUS
    ensures DecimalKeys.Parse(key) == None
  {
    assert !DecimalKeys.AllDigits(key);
  }

  /** Rows of tokens and of the idempotency cache are foreign to the audit log. */
  lemma RowsOfOthers(
    encode: AuditRing.Event -> bytes, decode: bytes -> Option<AuditRing.Event>, rows: Rows)
    requires forall k :: k in rows ==>
               StartsWith(k, AuditRing.TOKEN_PREFIX) || StartsWith(k, IdempotencyStore.PREFIX)
    ensures AuditRing.Foreign(AuditRing.Decimal(encode, decode), rows)
  {
    assert AuditRing.TOKEN_PREFIX[0] == 0x63 && IdempotencyStore.PREFIX[0] == 0x69;
    forall k | k in rows ensures DecimalKeys.Parse(k).None? {
      NoNumber(k);
    }
  }

  /** Writing or deleting an audit row leaves the cache and its rows in agreement. */
  lemma AuditKeepsCache(
    v: IdempotencyStore.Vault, d: IdempotencyStore.Disk, keys: set<Idempotency.Key>, number: nat,
    value: Option<bytes>)
    requires IdempotencyStore.Agree(v, d, keys) && number <= U64_MAX
    ensures IdempotencyStore.Agree(
              v, IdempotencyStore.After(v, d, IdempotencyStore.Other(DecimalKeys.Key(number), value)), keys)
  {
    DecimalKeys.WidthSuffices();
    DecimalKeys.DigitsValue(number, DecimalKeys.WIDTH);
    assert DecimalKeys.IsDigit(DecimalKeys.Key(number)[0]);
    assert IdempotencyStore.PREFIX[0] == 0x69;
    IdempotencyStore.OtherAgrees(v, d, keys, DecimalKeys.Key(number), value);
  }
}
