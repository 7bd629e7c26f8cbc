/**
 * The API-key store: a map from key to its configuration, with lookup
 * (honouring the enabled flag and the expiry), insertion, removal, disabling
 * and the masked listing. Loading and saving the key file are not modelled.
 */
module KeyStore {
  import opened Wrappers
  import opened Strings
  import opened PromptTypes

  datatype APIKeyConfig = APIKeyConfig(
    id: string,
    description: string,
    requestsPerMinute: int,
    enabled: bool,
    createdAt: string,
    expiresAt: string,
    metadata: map<string, Value>)

  /** Go's zero value APIKeyConfig{}. */
  const EmptyConfig := APIKeyConfig("", "", 0, false, "", "", map[])

  type Store = map<string, APIKeyConfig>

  /** NewAPIKeyStore: no keys. */
  const NewAPIKeyStore: Store := map[]

  /**
   * The clock, as parameters: `parseExpiry` is time.Parse with RFC 3339
   * (None when the text does not parse), returning an instant; `now` is
   * time.Now() on the same scale.
   */
  type ExpiryParser = string -> Option<int>

  /** A key is expired when it has an expiry that parses and now is strictly after it. */
  predicate Expired(cfg: APIKeyConfig, parseExpiry: ExpiryParser, now: int) {
    cfg.expiresAt != "" && parseExpiry(cfg.expiresAt).Some? && now > parseExpiry(cfg.expiresAt).value
  }

  // ---------------------------------------------------------------------------
  // Masking
  // ---------------------------------------------------------------------------

  /**
   * The masked form used in logs and listings: a key longer than 8 bytes is
   * cut to its first 8 bytes followed by "***"; a shorter key is shown whole.
   * The cut is on bytes, as Go's string slicing is.
   */
  function Mask(key: string): (r: seq<byte>)
    ensures Utf8Len(key) <= 8 ==> r == Utf8Encode(key)
    ensures Utf8Len(key) > 8 ==> |r| == 11 && r[..8] == Utf8Encode(key)[..8] && r[8..] == Utf8Encode("***")
  {
    if Utf8Len(key) > 8 then Utf8Encode(key)[..8] + Utf8Encode("***") else Utf8Encode(key)
  }

  /** A mask never shows more than 8 bytes of the key: keys that agree on those look alike. */
  lemma MaskHidesTail(a: string, b: string)
    requires Utf8Len(a) > 8 && Utf8Len(b) > 8
    requires Utf8Encode(a)[..8] == Utf8Encode(b)[..8]
    ensures Mask(a) == Mask(b)
  {
  }

  /** Every mask is a prefix of the key's bytes, of at most 8 bytes, with at most "***" after it. */
  lemma MaskShape(key: string)
    ensures |Mask(key)| <= 11
    ensures var shown := if Utf8Len(key) > 8 then 8 else Utf8Len(key);
      Mask(key)[..shown] == Utf8Encode(key)[..shown]
  {
  }

  // ---------------------------------------------------------------------------
  // Lookup
  // ---------------------------------------------------------------------------

  /** What GetKey as written can do: return a config and a found flag, or panic. */
  datatype Lookup = Returned(config: APIKeyConfig, found: bool) | Panicked

  /**
   * GetKey exactly as written: on an expired key it formats the log line with
   * apiKey[:8], which panics when the key is shorter than 8 bytes.
   */
  function GetKeyAsWritten(store: Store, apiKey: string, parseExpiry: ExpiryParser, now: int): (r: Lookup)
    ensures r.Panicked? <==>
      apiKey in store && store[apiKey].enabled && Expired(store[apiKey], parseExpiry, now) && Utf8Len(apiKey) < 8
    ensures r.Returned? && r.found <==>
      apiKey in store && store[apiKey].enabled && !Expired(store[apiKey], parseExpiry, now)
    ensures r.Returned? && r.found ==> r.config == store[apiKey]
    ensures r.Returned? && !r.found ==> r.config == EmptyConfig
  {
    if apiKey !in store || !store[apiKey].enabled then Returned(EmptyConfig, false)
    else if Expired(store[apiKey], parseExpiry, now) then
      if Utf8Len(apiKey) < 8 then Panicked else Returned(EmptyConfig, false)
    else Returned(store[apiKey], true)
  }

  /** The panic is reachable: an enabled, expired three-byte key. */
  lemma ShortExpiredKeyPanics()
    ensures var cfg := EmptyConfig.(enabled := true, expiresAt := "2020-01-01T00:00:00Z");
      GetKeyAsWritten(map["abc" := cfg], "abc", (s: string) => Some(0), 1).Panicked?
  {
    var cfg := EmptyConfig.(enabled := true, expiresAt := "2020-01-01T00:00:00Z");
    assert Utf8Len("abc") == 3;
    assert Expired(cfg, (s: string) => Some(0), 1);
  }

  /**
   * GetKey as intended: a missing, disabled or expired key is not found (an
   * expiry that does not parse never expires); otherwise the stored config is
   * returned. This is the lookup the rest of the model uses.
   */
  function GetKey(store: Store, apiKey: string, parseExpiry: ExpiryParser, now: int): (r: (APIKeyConfig, bool))
    ensures r.1 <==> apiKey in store && store[apiKey].enabled && !Expired(store[apiKey], parseExpiry, now)
    ensures r.1 ==> r.0 == store[apiKey]
    ensures !r.1 ==> r.0 == EmptyConfig
  {
    if apiKey !in store || !store[apiKey].enabled then (EmptyConfig, false)
    else if Expired(store[apiKey], parseExpiry, now) then (EmptyConfig, false)
    else (store[apiKey], true)
  }

  /** Wherever the code as written does not panic, the corrected lookup returns the same. */
  lemma GetKeyAgreesWithWritten(store: Store, apiKey: string, parseExpiry: ExpiryParser, now: int)
    ensures var w := GetKeyAsWritten(store, apiKey, parseExpiry, now);
      w.Returned? ==> GetKey(store, apiKey, parseExpiry, now) == (w.config, w.found)
    ensures Utf8Len(apiKey) >= 8 ==> GetKeyAsWritten(store, apiKey, parseExpiry, now).Returned?
  {
  }

  /** An unparsable or empty expiry never expires a key. */
  lemma UnparsableExpiryNeverExpires(store: Store, apiKey: string, parseExpiry: ExpiryParser, now: int)
    requires apiKey in store && store[apiKey].enabled
    requires store[apiKey].expiresAt == "" || parseExpiry(store[apiKey].expiresAt).None?
    ensures GetKey(store, apiKey, parseExpiry, now) == (store[apiKey], true)
  {
  }

  // ---------------------------------------------------------------------------
  // Updates
  // ---------------------------------------------------------------------------

  /** The entry AddKey stores: enabled, and stamped with `now` only if it had no creation time. */
  function Stamped(cfg: APIKeyConfig, now: string): APIKeyConfig {
    cfg.(createdAt := if cfg.createdAt == "" then now else cfg.createdAt, enabled := true)
  }

  /**
   * AddKey: stores the key enabled, fills the creation time from `now` (the
   * RFC 3339 rendering of the clock) only when empty, keeps every other field
   * and every other key.
   */
  function AddKey(store: Store, apiKey: string, cfg: APIKeyConfig, now: string): (r: Store)
    ensures apiKey in r && r[apiKey].enabled
    ensures r[apiKey].createdAt == (if cfg.createdAt == "" then now else cfg.createdAt)
    ensures r[apiKey].(enabled := cfg.enabled, createdAt := cfg.createdAt) == cfg
    ensures r.Keys == store.Keys + {apiKey}
    ensures forall k :: k in store && k != apiKey ==> r[k] == store[k]
  {
    store[apiKey := Stamped(cfg, now)]
  }

  /** RemoveKey: the key is gone and nothing else changes. */
  function RemoveKey(store: Store, apiKey: string): (r: Store)
    ensures r.Keys == store.Keys - {apiKey}
    ensures forall k :: k in r ==> r[k] == store[k]
  {
    map k | k in store && k != apiKey :: store[k]
  }

  /** DisableKey: a missing key changes nothing; a present one only loses its enabled flag. */
  function DisableKey(store: Store, apiKey: string): (r: Store)
    ensures apiKey !in store ==> r == store
    ensures r.Keys == store.Keys
    ensures apiKey in store ==> r[apiKey] == store[apiKey].(enabled := false)
    ensures forall k :: k in store && k != apiKey ==> r[k] == store[k]
  {
    if apiKey in store then store[apiKey := store[apiKey].(enabled := false)] else store
  }

  /** A key just added is found unless its own expiry has passed. */
  lemma AddThenGet(store: Store, apiKey: string, cfg: APIKeyConfig, created: string, parseExpiry: ExpiryParser, now: int)
    ensures var (got, found) := GetKey(AddKey(store, apiKey, cfg, created), apiKey, parseExpiry, now);
      (found <==> !Expired(cfg, parseExpiry, now)) && (found ==> got == Stamped(cfg, created))
  {
    var s := AddKey(store, apiKey, cfg, created);
    assert s[apiKey].expiresAt == cfg.expiresAt;
  }

  /** A removed or disabled key is never found; other keys look up as before. */
  lemma RemovedOrDisabledNotFound(store: Store, apiKey: string, other: string, parseExpiry: ExpiryParser, now: int)
    requires other != apiKey
    ensures !GetKey(RemoveKey(store, apiKey), apiKey, parseExpiry, now).1
    ensures !GetKey(DisableKey(store, apiKey), apiKey, parseExpiry, now).1
    ensures GetKey(RemoveKey(store, apiKey), other, parseExpiry, now) == GetKey(store, other, parseExpiry, now)
    ensures GetKey(DisableKey(store, apiKey), other, parseExpiry, now) == GetKey(store, other, parseExpiry, now)
  {
  }

  // ---------------------------------------------------------------------------
  // Listing
  // ---------------------------------------------------------------------------

  /**
   * `order` lists every key of the store exactly once: the order in which Go's
   * map iteration happens to visit them.
   */
  predicate Enumerates(order: seq<string>, store: Store) {
    (forall k :: k in store ==> k in order) && (forall k :: k in order ==> k in store)
    && (forall i, j :: 0 <= i < j < |order| ==> order[i] != order[j])
  }

  /** A list without repetitions has as many elements as its set. */
  lemma {:induction false} DistinctCardinality(order: seq<string>)
    requires forall i, j :: 0 <= i < j < |order| ==> order[i] != order[j]
    ensures |set k | k in order| == |order|
    decreases |order|
  {
    if |order| > 0 {
      var tail := order[1..];
      DistinctCardinality(tail);
      assert (set k | k in order) == (set k | k in tail) + {order[0]};
      forall j | 0 <= j < |tail|
        ensures tail[j] != order[0]
      {
        assert tail[j] == order[j + 1];
      }
    } else {
      assert (set k | k in order) == {};
    }
  }

  /**
   * ListKeys: one masked entry per stored key, in the given iteration order.
   */
  function ListKeys(store: Store, order: seq<string>): (r: seq<seq<byte>>)
    requires Enumerates(order, store)
    ensures |r| == |order| == |store|
    ensures forall i :: 0 <= i < |r| ==> r[i] == Mask(order[i]) && order[i] in store
  {
    DistinctCardinality(order);
    assert (set k | k in order) == store.Keys;
    seq(|order|, i requires 0 <= i < |order| => Mask(order[i]))
  }
}
