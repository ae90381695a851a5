/**
 * Intent identity and cache. A process-wide map from idempotency key to
 * entry, with lazy expiry ten minutes after the last write, and the
 * resolver that derives a request's idempotency key and reference and
 * records the reference in the map.
 *
 * The promise and response an entry may hold are opaque to this code and
 * appear as the type parameters P and R. The clock is the explicit `now`
 * parameter of every operation (one reading per call); the idempotency-key
 * hash is the function `keyOf` fixed when the cache is created; the fresh
 * reference generator is the `freshReference` argument of the resolver.
 */
module Intent {
  import opened Wrappers
  import opened Types
  import opened JsBuiltins

  /** INTENT_CACHE_TTL_MS: ten minutes, in milliseconds. */
  const TtlMs: int := 10 * 60 * 1000

  // ---------------------------------------------------------------------------
  // Checkout options and the canonical payload
  // ---------------------------------------------------------------------------

  /** Record<string, unknown>, as for metadata and custom fields; the values
      are modelled as strings. */
  type Record = map<string, string>

  /** The fields of ReevitCheckoutConfig that the identity resolver reads. */
  datatype CheckoutConfig = CheckoutConfig(
    publicKey: Option<string>,
    amount: int,
    currency: string,
    email: Option<string>,
    phone: Option<string>,
    customerName: Option<string>,
    reference: Option<string>,
    idempotencyKey: Option<string>,
    metadata: Option<Record>,
    customFields: Option<Record>,
    paymentLinkCode: Option<string>,
    paymentMethods: Option<seq<PaymentMethod>>)

  /** IntentIdentityOptions; `chosenMethod` is the options' `method`. */
  datatype IdentityOptions = IdentityOptions(
    config: CheckoutConfig,
    chosenMethod: Option<PaymentMethod>,
    preferredProvider: Option<string>,
    allowedProviders: Option<seq<string>>,
    publicKey: Option<string>)

  /** The record that buildIdempotencyPayload hands to the key hash;
      `reference` is `None` when the record has no `reference` property. */
  datatype IdempotencyPayload = IdempotencyPayload(
    amount: int,
    currency: string,
    email: string,
    phone: string,
    customerName: string,
    paymentLinkCode: string,
    paymentMethods: seq<PaymentMethod>,
    metadata: Record,
    customFields: Record,
    methodName: string,
    preferredProvider: string,
    allowedProviders: seq<string>,
    publicKey: string,
    reference: Option<string>)

  /** `s || ''`. */
  function OrEmpty(s: Option<string>): (r: string)
    ensures Truthy(s) ==> r == s.value
    ensures !Truthy(s) ==> r == ""
  {
    if Truthy(s) then s.value else ""
  }

  /** `x || d` for an array or object, which is truthy whenever present. */
  function OrDefault<T>(x: Option<T>, d: T): (r: T)
    ensures x.Some? ==> r == x.value
    ensures x.None? ==> r == d
  {
    if x.Some? then x.value else d
  }

  /** buildIdempotencyPayload: amount and currency as given, every missing
      optional field as `''`, `[]` or `{}`, the caller's public key before the
      configuration's, and a `reference` exactly when the configuration has a
      non-empty one. */
  function BuildIdempotencyPayload(o: IdentityOptions): (p: IdempotencyPayload)
    ensures p.amount == o.config.amount && p.currency == o.config.currency
    ensures p.reference.Some? <==> Truthy(o.config.reference)
    ensures p.reference.Some? ==> p.reference == o.config.reference
    ensures Truthy(o.publicKey) ==> p.publicKey == o.publicKey.value
    ensures !Truthy(o.publicKey) ==> p.publicKey == OrEmpty(o.config.publicKey)
    // each optional field defaults on its own, whatever the others hold
    ensures Truthy(o.config.email) ==> p.email == o.config.email.value
    ensures !Truthy(o.config.email) ==> p.email == ""
    ensures Truthy(o.config.phone) ==> p.phone == o.config.phone.value
    ensures !Truthy(o.config.phone) ==> p.phone == ""
    ensures Truthy(o.config.customerName) ==> p.customerName == o.config.customerName.value
    ensures !Truthy(o.config.customerName) ==> p.customerName == ""
    ensures Truthy(o.config.paymentLinkCode) ==> p.paymentLinkCode == o.config.paymentLinkCode.value
    ensures !Truthy(o.config.paymentLinkCode) ==> p.paymentLinkCode == ""
    ensures Truthy(o.preferredProvider) ==> p.preferredProvider == o.preferredProvider.value
    ensures !Truthy(o.preferredProvider) ==> p.preferredProvider == ""
    ensures !Truthy(o.publicKey) && !Truthy(o.config.publicKey) ==> p.publicKey == ""
    ensures o.config.paymentMethods.Some? ==> p.paymentMethods == o.config.paymentMethods.value
    ensures o.config.paymentMethods.None? ==> p.paymentMethods == []
    ensures o.config.metadata.Some? ==> p.metadata == o.config.metadata.value
    ensures o.config.metadata.None? ==> p.metadata == map[]
    ensures o.config.customFields.Some? ==> p.customFields == o.config.customFields.value
    ensures o.config.customFields.None? ==> p.customFields == map[]
    ensures o.allowedProviders.Some? ==> p.allowedProviders == o.allowedProviders.value
    ensures o.allowedProviders.None? ==> p.allowedProviders == []
    ensures o.chosenMethod.Some? ==> p.methodName == MethodName(o.chosenMethod.value) && p.methodName != ""
    ensures o.chosenMethod.None? ==> p.methodName == ""
  {
    var c := o.config;
    IdempotencyPayload(
      c.amount,
      c.currency,
      OrEmpty(c.email),
      OrEmpty(c.phone),
      OrEmpty(c.customerName),
      OrEmpty(c.paymentLinkCode),
      OrDefault(c.paymentMethods, []),
      OrDefault(c.metadata, map[]),
      OrDefault(c.customFields, map[]),
      if o.chosenMethod.Some? then MethodName(o.chosenMethod.value) else "",
      OrEmpty(o.preferredProvider),
      OrDefault(o.allowedProviders, []),
      if Truthy(o.publicKey) then o.publicKey.value else OrEmpty(c.publicKey),
      if Truthy(c.reference) then c.reference else None)
  }

  /** With every optional field missing, the payload carries the defaults. */
  lemma PayloadDefaults(o: IdentityOptions)
    requires o.config.email == o.config.phone == o.config.customerName == None
    requires o.config.paymentLinkCode == o.config.publicKey == o.config.reference == None
    requires o.config.paymentMethods == None && o.config.metadata == None && o.config.customFields == None
    requires o.chosenMethod == None && o.preferredProvider == None
    requires o.allowedProviders == None && o.publicKey == None
    ensures BuildIdempotencyPayload(o) ==
              IdempotencyPayload(o.config.amount, o.config.currency, "", "", "", "", [], map[], map[],
                                 "", "", [], "", None)
  {
  }

  /** The payload distinguishes the checkout's method: two options that differ
      only in the chosen method give different payloads. */
  lemma PayloadSeesMethod(o: IdentityOptions, m1: PaymentMethod, m2: PaymentMethod)
    requires m1 != m2
    ensures BuildIdempotencyPayload(o.(chosenMethod := Some(m1))) != BuildIdempotencyPayload(o.(chosenMethod := Some(m2)))
  {
    MethodNameInjective(m1, m2);
    assert BuildIdempotencyPayload(o.(chosenMethod := Some(m1))).methodName == MethodName(m1);
  }

  /** The payload keeps the order of the configured payment methods: it does
      not sort them, so two orderings of the same methods give different
      payloads. */
  lemma PayloadKeepsMethodOrder(o: IdentityOptions)
    requires o.config.paymentMethods == Some([Card, MobileMoney])
    ensures BuildIdempotencyPayload(o) !=
              BuildIdempotencyPayload(o.(config := o.config.(paymentMethods := Some([MobileMoney, Card]))))
  {
    assert BuildIdempotencyPayload(o).paymentMethods[0] == Card;
  }

  /** The idempotency key: the configuration's when it is a non-empty
      string, otherwise the hash of the canonical payload. */
  function IdempotencyKeyFor(keyOf: IdempotencyPayload -> string, o: IdentityOptions): (key: string)
    ensures Truthy(o.config.idempotencyKey) ==> key == o.config.idempotencyKey.value
    ensures !Truthy(o.config.idempotencyKey) ==> key == keyOf(BuildIdempotencyPayload(o))
  {
    if Truthy(o.config.idempotencyKey) then o.config.idempotencyKey.value
    else keyOf(BuildIdempotencyPayload(o))
  }

  /** Without an explicit key, options that agree on everything but the
      configuration's own idempotency key and the payload-irrelevant fields get
      the same derived key. */
  lemma DerivedKeyDeterministic(keyOf: IdempotencyPayload -> string, o1: IdentityOptions, o2: IdentityOptions)
    requires !Truthy(o1.config.idempotencyKey) && !Truthy(o2.config.idempotencyKey)
    requires BuildIdempotencyPayload(o1) == BuildIdempotencyPayload(o2)
    ensures IdempotencyKeyFor(keyOf, o1) == IdempotencyKeyFor(keyOf, o2)
  {
  }

  // ---------------------------------------------------------------------------
  // Cache entries and their updates
  // ---------------------------------------------------------------------------

  /** IntentCacheEntry. */
  datatype Entry<P, R> = Entry(
    promise: Option<P>,
    response: Option<R>,
    expiresAt: int,
    reference: Option<string>)

  /** One property of a Partial<IntentCacheEntry>: missing from the object, or
      present with a value (`None` for an explicit `undefined`). */
  datatype Field<T> = Missing | Present(value: Option<T>)

  /** Partial<IntentCacheEntry> as the core writes it; a written `expiresAt`
      would always be replaced, so it is left out. */
  datatype Update<P, R> = Update(promise: Field<P>, response: Field<R>, reference: Field<string>)

  /** `{ reference }`, as the resolver writes it. */
  function ReferenceUpdate<P, R>(reference: string): Update<P, R> {
    Update(Missing, Missing, Present(Some(reference)))
  }

  /** `{ promise }`, as cacheIntentPromise writes it. */
  function PromiseUpdate<P, R>(promise: P): Update<P, R> {
    Update(Present(Some(promise)), Missing, Missing)
  }

  /** `{ response, promise: undefined }`, as cacheIntentResponse writes it. */
  function ResponseUpdate<P, R>(response: R): Update<P, R> {
    Update(Present(None), Present(Some(response)), Missing)
  }

  /** The value of one property after `{ ...existing, ...update }`. */
  function Spread<T>(f: Field<T>, existing: Option<T>): (v: Option<T>)
    ensures f.Present? ==> v == f.value
    ensures f.Missing? ==> v == existing
  {
    match f
    case Missing => existing
    case Present(v) => v
  }

  /** The entry under `key` unless it is missing or `expiresAt <= now`. */
  function LiveEntry<P, R>(m: map<string, Entry<P, R>>, key: string, now: int): (e: Option<Entry<P, R>>)
    ensures e.Some? <==> key in m && now < m[key].expiresAt
    ensures e.Some? ==> e.value == m[key]
  {
    if key in m && m[key].expiresAt > now then Some(m[key]) else None
  }

  /** `{ ...existing, ...update, expiresAt: now + TTL }`: a property the
      update does not mention comes from the live existing entry, or is
      absent when there is none; the expiry is always pushed to now + TTL. */
  function Merge<P, R>(existing: Option<Entry<P, R>>, u: Update<P, R>, now: int): (e: Entry<P, R>)
    ensures e.expiresAt == now + TtlMs
    ensures u.promise.Present? ==> e.promise == u.promise.value
    ensures u.response.Present? ==> e.response == u.response.value
    ensures u.reference.Present? ==> e.reference == u.reference.value
    ensures u.promise.Missing? ==> e.promise == if existing.Some? then existing.value.promise else None
    ensures u.response.Missing? ==> e.response == if existing.Some? then existing.value.response else None
    ensures u.reference.Missing? ==> e.reference == if existing.Some? then existing.value.reference else None
  {
    Entry(
      Spread(u.promise, if existing.Some? then existing.value.promise else None),
      Spread(u.response, if existing.Some? then existing.value.response else None),
      now + TtlMs,
      Spread(u.reference, if existing.Some? then existing.value.reference else None))
  }

  // ---------------------------------------------------------------------------
  // The map's operations, as functions of the map
  // ---------------------------------------------------------------------------

  /** pruneIntentCache: exactly the entries with `expiresAt > now` survive,
      each of them untouched. */
  function Live<P, R>(m: map<string, Entry<P, R>>, now: int): (r: map<string, Entry<P, R>>)
    ensures forall k :: k in r <==> k in m && m[k].expiresAt > now
    ensures forall k :: k in r ==> r[k] == m[k]
  {
    map k | k in m && m[k].expiresAt > now :: m[k]
  }

  /** setIntentCacheEntryInternal: the written key holds the merged entry,
      which expires at now + TTL; every other key is as it was. */
  function Store<P, R>(m: map<string, Entry<P, R>>, key: string, u: Update<P, R>, now: int): (r: map<string, Entry<P, R>>)
    ensures key in r && r[key].expiresAt == now + TtlMs
    ensures r[key] == Merge(LiveEntry(m, key, now), u, now)
    ensures forall k :: k != key ==> (k in r <==> k in m)
    ensures forall k :: k != key && k in r ==> r[k] == m[k]
  {
    m[key := Merge(LiveEntry(m, key, now), u, now)]
  }

  /** Pruning twice at the same time is pruning once. */
  lemma PruneIdempotent<P, R>(m: map<string, Entry<P, R>>, now: int)
    ensures Live(Live(m, now), now) == Live(m, now)
  {
  }

  /** A lookup sees the same entry before and after a prune at the same time. */
  lemma LookupIgnoresPrune<P, R>(m: map<string, Entry<P, R>>, key: string, now: int)
    ensures LiveEntry(Live(m, now), key, now) == LiveEntry(m, key, now)
  {
  }

  /** An entry written at time t is live exactly before t + TTL. */
  lemma ExpiresAfterTtl<P, R>(m: map<string, Entry<P, R>>, key: string, u: Update<P, R>, t: int, later: int)
    ensures LiveEntry(Store(m, key, u, t), key, later).Some? <==> later < t + TtlMs
  {
  }

  /** An expired entry contributes nothing to a write: the written entry is
      built from the update alone, so a stale reference is not brought back. */
  lemma ExpiredEntryForgotten<P, R>(m: map<string, Entry<P, R>>, key: string, u: Update<P, R>, now: int)
    requires key in m && m[key].expiresAt <= now
    ensures Store(m, key, u, now)[key] == Merge(None, u, now)
    ensures u.reference.Missing? ==> Store(m, key, u, now)[key].reference == None
  {
  }

  /** cacheIntentResponse stores the response and drops any promise, keeping
      the reference; an entry read back before it expires has no promise. */
  lemma ResponseClearsPromise<P, R>(m: map<string, Entry<P, R>>, key: string, response: R, t: int, later: int)
    requires later < t + TtlMs
    ensures var e := LiveEntry(Store(m, key, ResponseUpdate(response), t), key, later);
            e.Some? && e.value.promise == None && e.value.response == Some(response)
    ensures var live := LiveEntry(m, key, t);
            Store(m, key, ResponseUpdate(response), t)[key].reference == if live.Some? then live.value.reference else None
  {
  }

  /** cacheIntentPromise keeps the live entry's response and reference: an
      entry that already has a response then holds a promise as well. */
  lemma PromiseKeepsResponse<P, R>(m: map<string, Entry<P, R>>, key: string, promise: P, now: int)
    requires key in m && m[key].expiresAt > now
    ensures Store(m, key, PromiseUpdate(promise), now)[key] ==
              Entry(Some(promise), m[key].response, now + TtlMs, m[key].reference)
  {
  }

  /** A response followed by a promise, both within the TTL, leaves the entry
      holding both. */
  lemma ResponseThenPromiseHoldsBoth<P, R>(m: map<string, Entry<P, R>>, key: string, response: R, promise: P, t1: int, t2: int)
    requires t2 < t1 + TtlMs
    ensures var e := Store(Store(m, key, ResponseUpdate(response), t1), key, PromiseUpdate(promise), t2)[key];
            e.promise == Some(promise) && e.response == Some(response)
  {
  }

  // ---------------------------------------------------------------------------
  // The resolver, as a function of the map
  // ---------------------------------------------------------------------------

  /** `options.config.reference || existing?.reference || generateReference()`. */
  function ChooseReference<P, R>(configured: Option<string>, existing: Option<Entry<P, R>>, freshRef: string): (r: string)
    ensures Truthy(configured) ==> r == configured.value
    ensures !Truthy(configured) && existing.Some? && Truthy(existing.value.reference) ==> r == existing.value.reference.value
    ensures !Truthy(configured) && !(existing.Some? && Truthy(existing.value.reference)) ==> r == freshRef
    ensures freshRef != "" ==> r != ""
  {
    if Truthy(configured) then configured.value
    else if existing.Some? && Truthy(existing.value.reference) then existing.value.reference.value
    else freshRef
  }

  /** What resolveIntentIdentity returns, with the map it leaves behind. */
  datatype Resolution<P, R> = Resolution(
    idempotencyKey: string,
    reference: string,
    cacheEntry: Entry<P, R>,
    cache: map<string, Entry<P, R>>)

  /** resolveIntentIdentity: prune, pick the key, pick the reference from the
      configuration, the live cached entry or the fresh one, and write it
      back. The result's entry is the one stored under the key, holding the
      returned reference; every other key is as the prune left it. */
  function Resolve<P, R>(m: map<string, Entry<P, R>>, keyOf: IdempotencyPayload -> string,
                         o: IdentityOptions, now: int, freshRef: string): (res: Resolution<P, R>)
    ensures res.idempotencyKey == IdempotencyKeyFor(keyOf, o)
    ensures res.idempotencyKey in res.cache && res.cache[res.idempotencyKey] == res.cacheEntry
    ensures res.cacheEntry.reference == Some(res.reference)
    ensures res.cacheEntry.expiresAt == now + TtlMs
    ensures forall k :: k != res.idempotencyKey ==> (k in res.cache <==> k in m && m[k].expiresAt > now)
    ensures forall k :: k != res.idempotencyKey && k in res.cache ==> res.cache[k] == m[k]
  {
    var pruned := Live(m, now);
    var key := IdempotencyKeyFor(keyOf, o);
    var reference := ChooseReference(o.config.reference, LiveEntry(pruned, key, now), freshRef);
    var cache := Store(pruned, key, ReferenceUpdate(reference), now);
    Resolution(key, reference, cache[key], cache)
  }

  /** The resolver's reference: the configuration's when non-empty, else the
      live cached one when non-empty, else the fresh one; the written entry
      keeps the live entry's promise and response. */
  lemma ResolveChoosesReference<P, R>(m: map<string, Entry<P, R>>, keyOf: IdempotencyPayload -> string,
                                      o: IdentityOptions, now: int, freshRef: string)
    ensures var res := Resolve(m, keyOf, o, now, freshRef);
            var live := LiveEntry(m, res.idempotencyKey, now);
            && (Truthy(o.config.reference) ==> res.reference == o.config.reference.value)
            && (!Truthy(o.config.reference) && live.Some? && Truthy(live.value.reference) ==>
                  res.reference == live.value.reference.value)
            && (!Truthy(o.config.reference) && !(live.Some? && Truthy(live.value.reference)) ==>
                  res.reference == freshRef)
            && res.cacheEntry.promise == (if live.Some? then live.value.promise else None)
            && res.cacheEntry.response == (if live.Some? then live.value.response else None)
  {
    LookupIgnoresPrune(m, IdempotencyKeyFor(keyOf, o), now);
  }

  /** Reference stickiness: a second resolution of the same options, made
      before the first one's entry expires, returns the same key and the same
      reference, whatever the fresh reference offered the second time. */
  lemma {:induction false} ReferenceSticky<P, R>(m: map<string, Entry<P, R>>, keyOf: IdempotencyPayload -> string,
                                                 o: IdentityOptions, t1: int, t2: int, fresh1: string, fresh2: string)
    requires fresh1 != ""
    requires t2 < t1 + TtlMs
    ensures var first := Resolve(m, keyOf, o, t1, fresh1);
            var second := Resolve(first.cache, keyOf, o, t2, fresh2);
            second.idempotencyKey == first.idempotencyKey && second.reference == first.reference
  {
    var first := Resolve(m, keyOf, o, t1, fresh1);
    var key := first.idempotencyKey;
    ResolveChoosesReference(m, keyOf, o, t1, fresh1);
    assert first.reference != "";
    ResolveChoosesReference(first.cache, keyOf, o, t2, fresh2);
    assert LiveEntry(first.cache, key, t2) == Some(first.cacheEntry);
  }

  // ---------------------------------------------------------------------------
  // The module-level cache
  // ---------------------------------------------------------------------------

  /** The process-wide `intentCache` and the functions that use it. */
  class IntentCache<P, R> {
    var entries: map<string, Entry<P, R>>

    /** generateIdempotencyKey: a deterministic function of the payload. */
    const keyOf: IdempotencyPayload -> string

    constructor (keyOf: IdempotencyPayload -> string)
      ensures entries == map[] && this.keyOf == keyOf
    {
      entries := map[];
      this.keyOf := keyOf;
    }

    /** pruneIntentCache: delete, one by one, every entry with
        `expiresAt <= now`. */
    method Prune(now: int)
      modifies this
      ensures entries == Live(old(entries), now)
    {
      var pending := entries.Keys;
      while pending != {}
        invariant pending <= old(entries).Keys
        invariant forall k :: k in entries <==> k in old(entries) && (k in pending || old(entries)[k].expiresAt > now)
        invariant forall k :: k in entries ==> entries[k] == old(entries)[k]
        decreases pending
      {
        var k :| k in pending;
        if entries[k].expiresAt <= now {
          entries := entries - {k};
        }
        pending := pending - {k};
      }
      assert entries.Keys == Live(old(entries), now).Keys;
    }

    /** getIntentCacheEntryInternal: the live entry, or nothing; an expired
        entry is deleted on the way, and only then does the map change. */
    method GetInternal(key: string, now: int) returns (e: Option<Entry<P, R>>)
      modifies this
      ensures e == LiveEntry(old(entries), key, now)
      ensures e.Some? <==> key in old(entries) && old(entries)[key].expiresAt > now
      ensures entries == if key in old(entries) && old(entries)[key].expiresAt <= now
                         then old(entries) - {key} else old(entries)
    {
      if key !in entries {
        return None;
      }
      var entry := entries[key];
      if entry.expiresAt <= now {
        entries := entries - {key};
        return None;
      }
      return Some(entry);
    }

    /** setIntentCacheEntryInternal: merge the update into the live entry,
        store the result with a fresh expiry and return it. */
    method SetInternal(key: string, update: Update<P, R>, now: int) returns (e: Entry<P, R>)
      modifies this
      ensures entries == Store(old(entries), key, update, now)
      ensures e == entries[key] && e.expiresAt == now + TtlMs
      ensures forall k :: k != key ==> (k in entries <==> k in old(entries))
      ensures forall k :: k != key && k in entries ==> entries[k] == old(entries)[k]
    {
      var existing := GetInternal(key, now);
      e := Merge(existing, update, now);
      entries := entries[key := e];
    }

    /** resolveIntentIdentity. */
    method ResolveIdentity(options: IdentityOptions, now: int, freshReference: string)
      returns (idempotencyKey: string, reference: string, cacheEntry: Entry<P, R>)
      modifies this
      ensures Resolution(idempotencyKey, reference, cacheEntry, entries) ==
                Resolve(old(entries), keyOf, options, now, freshReference)
      ensures idempotencyKey == IdempotencyKeyFor(keyOf, options)
      ensures idempotencyKey in entries && entries[idempotencyKey] == cacheEntry
      ensures cacheEntry.reference == Some(reference) && cacheEntry.expiresAt == now + TtlMs
    {
      Prune(now);
      idempotencyKey := IdempotencyKeyFor(keyOf, options);
      var existing := GetInternal(idempotencyKey, now);
      reference := ChooseReference(options.config.reference, existing, freshReference);
      cacheEntry := SetInternal(idempotencyKey, ReferenceUpdate(reference), now);
    }

    /** getIntentCacheEntry: prune, then look the key up. */
    method GetEntry(key: string, now: int) returns (e: Option<Entry<P, R>>)
      modifies this
      ensures e == LiveEntry(old(entries), key, now)
      ensures entries == Live(old(entries), now)
    {
      Prune(now);
      e := GetInternal(key, now);
    }

    /** cacheIntentPromise: attach the in-flight promise, keeping the live
        entry's response and reference. */
    method CachePromise(key: string, promise: P, now: int) returns (e: Entry<P, R>)
      modifies this
      ensures entries == Store(old(entries), key, PromiseUpdate(promise), now)
      ensures e == entries[key]
      ensures e.promise == Some(promise) && e.expiresAt == now + TtlMs
      ensures var live := LiveEntry(old(entries), key, now);
              && e.response == (if live.Some? then live.value.response else None)
              && e.reference == (if live.Some? then live.value.reference else None)
    {
      e := SetInternal(key, PromiseUpdate(promise), now);
    }

    /** cacheIntentResponse: store the response and drop the promise, keeping
        the live entry's reference. */
    method CacheResponse(key: string, response: R, now: int) returns (e: Entry<P, R>)
      modifies this
      ensures entries == Store(old(entries), key, ResponseUpdate(response), now)
      ensures e == entries[key]
      ensures e.response == Some(response) && e.promise == None && e.expiresAt == now + TtlMs
      ensures var live := LiveEntry(old(entries), key, now);
              e.reference == (if live.Some? then live.value.reference else None)
    {
      e := SetInternal(key, ResponseUpdate(response), now);
    }

    /** clearIntentCacheEntry: delete the key, whatever its state. */
    method Clear(key: string)
      modifies this
      ensures entries == old(entries) - {key}
      ensures key !in entries
      ensures forall k :: k != key ==> (k in entries <==> k in old(entries))
    {
      entries := entries - {key};
    }
  }
}
