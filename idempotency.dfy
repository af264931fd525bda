/** The idempotency ledger: responses recorded under a client's
    `Idempotency-Key`. The knex handlers keep it in the `idempotency_keys`
    table (`getIdempotency` / `saveIdempotency`), the file-backed server in
    its `processedKeys` map; both consult it only when the key is truthy. */
module Idempotency {
  import opened Http

  /** Recorded status and body per key. The body is stored as its JSON text
      and parsed back on replay; the model stores the value itself. */
  type Ledger<B> = map<string, Response<B>>

  /** The recorded response for a request carrying `key`, if any. */
  function Lookup<B>(ledger: Ledger<B>, key: Option<string>): (r: Option<Response<B>>)
    ensures r.Some? <==> Truthy(key) && key.value in ledger
    ensures r.Some? ==> r.value == ledger[key.value]
  {
    if Truthy(key) && key.value in ledger then Some(ledger[key.value]) else None
  }

  /** Records `resp` under `key` when the key is truthy. */
  function Record<B>(ledger: Ledger<B>, key: Option<string>, resp: Response<B>): (l: Ledger<B>)
    ensures Truthy(key) ==> l == ledger[key.value := resp]
    ensures !Truthy(key) ==> l == ledger
  {
    if Truthy(key) then ledger[key.value := resp] else ledger
  }

  /** A recorded key replays what was recorded, and recording touches no other key. */
  lemma RecordThenLookup<B>(ledger: Ledger<B>, key: Option<string>, resp: Response<B>, other: Option<string>)
    requires Truthy(key)
    ensures Lookup(Record(ledger, key, resp), key) == Some(resp)
    ensures Truthy(other) && other.value != key.value ==> Lookup(Record(ledger, key, resp), other) == Lookup(ledger, other)
  {
  }
}
