/** The three users of the key store keep out of each other's keys. */
module KeySpace {
  import RateLimit
  import WebhookDedup
  import Idempotency

  /** A counter, a claimed event and a stored response never share a key, whatever the client, the
      event id, the scope and the Idempotency-Key are. */
  lemma KeysApart(c: RateLimit.Client, minute: nat, id: string, scope: string, key: string)
    ensures RateLimit.BucketKey(c, minute) != WebhookDedup.DedupKey(id)
    ensures RateLimit.BucketKey(c, minute) != Idempotency.RedisKey(scope, key)
    ensures WebhookDedup.DedupKey(id) != Idempotency.RedisKey(scope, key)
  {
    assert RateLimit.BucketKey(c, minute)[0] == 'r';
    assert WebhookDedup.DedupKey(id)[0] == 's';
    assert Idempotency.RedisKey(scope, key)[0] == 'i';
  }
}
