/** registry/directory/directory.go: the cache agrees with the registry's provider set. */
module DirectoryLaws {
  import opened Wrappers
  import opened Urls
  import opened Overrides
  import opened Events
  import opened DirectorySpec

  // ---- snapshots ----

  lemma {:induction false} ToAddIs(cache: map<string, Invoker>, es: seq<Event>)
    ensures Keys(ToAdd(cache, es)) == Keys(es) - cache.Keys
  {
    if es != [] {
      var front, e := es[..|es| - 1], es[|es| - 1];
      ToAddIs(cache, front);
      KeysOfAppend(front, [e]);
      assert es == front + [e];
      KeysOfAppend(ToAdd(cache, front), if e.key in cache then [] else [e]);
    }
  }

  lemma KeysOfAppend(a: seq<Event>, b: seq<Event>)
    ensures Keys(a + b) == Keys(a) + Keys(b)
  {
    forall i | 0 <= i < |a| ensures a[i].key in Keys(a + b) {
      assert (a + b)[i] == a[i];
    }
    forall i | 0 <= i < |b| ensures b[i].key in Keys(a + b) {
      assert (a + b)[|a| + i] == b[i];
    }
  }

  /** What adding events may change: cache, attempts and referred invokers, in this way. */
  ghost predicate Added(d: Dir, d': Dir, keys: set<string>, dial: Dial) {
    && d.attempts <= d'.attempts
    && d.cache.Keys <= d'.cache.Keys <= d.cache.Keys + keys
    && (forall k :: k in d.cache && k !in keys ==> d'.cache[k] == d.cache[k])
    && ((forall n :: d.attempts <= n < d'.attempts ==> dial(n)) ==> d'.cache.Keys == d.cache.Keys + keys)
    && d'.(cache := d.cache, attempts := d.attempts, referred := d.referred) == d
  }

  lemma CacheOneAdds(d: Dir, key: string, url: Url, dial: Dial)
    ensures Added(d, CacheOne(d, key, url, dial).0, {key}, dial)
  {
  }

  lemma AddedTwice(d: Dir, d1: Dir, d2: Dir, keys: set<string>, more: set<string>, dial: Dial)
    requires Added(d, d1, keys, dial) && Added(d1, d2, more, dial)
    ensures Added(d, d2, keys + more, dial)
  {
  }

  lemma {:induction false} AddAllAdds(d: Dir, es: seq<Event>, dial: Dial)
    ensures Added(d, AddAll(d, es, dial).0, Keys(es), dial)
  {
    if es != [] {
      var front, e := es[..|es| - 1], es[|es| - 1];
      AddAllAdds(d, front, dial);
      var d1 := AddAll(d, front, dial).0;
      CacheOneAdds(d1, e.key, e.service, dial);
      AddedTwice(d, d1, AddAll(d, es, dial).0, Keys(front), {e.key}, dial);
      KeysOfAppend(front, [e]);
      assert es == front + [e] && [e][0] == e;
    }
  }

  /** After a snapshot the cache holds only listed keys, listed keys that were cached keep their
      invoker, and if every Refer made on the way succeeded, exactly the listed keys are cached,
      whatever the cache held before. */
  lemma SnapshotMakesCacheAgree(d: Dir, es: seq<Listed>, dial: Dial)
    requires Accepted(d, es)
    ensures var (d', es') := OnSnapshot(d, es, dial);
            && d'.cache.Keys <= Keys(es')
            && (forall k :: k in d.cache && k in Keys(es') ==> k in d'.cache && d'.cache[k] == d.cache[k])
            && ((forall n :: d.attempts <= n < d'.attempts ==> dial(n)) ==> d'.cache.Keys == Keys(es'))
  {
    var d0 := Overridden(d);
    var prepared := PreparedAll(d0, es);
    var d1 := Pruned(d0, Keys(prepared));
    var added := ToAdd(d1.cache, prepared);
    ToAddIs(d1.cache, prepared);
    AddAllAdds(d1, added, dial);
  }

  lemma {:induction false} NothingToAdd(cache: map<string, Invoker>, es: seq<Event>)
    requires Keys(es) <= cache.Keys
    ensures ToAdd(cache, es) == []
  {
    if es != [] {
      assert es[|es| - 1].key in Keys(es);
      KeysOfAppend(es[..|es| - 1], es[|es| - 1..]);
      assert es == es[..|es| - 1] + es[|es| - 1..];
      NothingToAdd(cache, es[..|es| - 1]);
    }
  }

  /** A snapshot that lists exactly the cached keys refers and destroys nothing. */
  lemma SnapshotOfCachedKeys(d: Dir, es: seq<Listed>, dial: Dial)
    requires Accepted(d, es) && Keys(PreparedAll(Overridden(d), es)) == d.cache.Keys
    ensures OnSnapshot(d, es, dial).0 == Overridden(d)
  {
    var d0 := Overridden(d);
    var prepared := PreparedAll(d0, es);
    NothingToAdd(d0.cache, prepared);
    PruneNothing(d0, Keys(prepared));
    assert AddAll(d0, [], dial) == (d0, {});
  }

  lemma PruneNothing(d: Dir, keys: set<string>)
    requires keys == d.cache.Keys
    ensures Pruned(d, keys) == d && Schedule(d, Unlisted(d.cache, keys) + {}) == d
  {
    assert Pruned(d, keys).cache == d.cache;
    assert Unlisted(d.cache, keys) == {};
    assert d.scheduled + {} == d.scheduled;
  }

  lemma PreparedKeys(d: Dir, d': Dir, es: seq<Listed>, es': seq<Listed>)
    requires |es| == |es'| && forall i :: 0 <= i < |es| ==> Prepared(d, es[i]).key == Prepared(d', es'[i]).key
    ensures Keys(PreparedAll(d, es)) == Keys(PreparedAll(d', es'))
  {
    hide Prepared;
    var a, b := PreparedAll(d, es), PreparedAll(d', es');
    assert forall i :: 0 <= i < |a| ==> a[i].key == b[i].key;
  }

  lemma {:induction false} KeySurvivesMerging(d: Dir, e: Event, k: nat)
    requires Keyed(e) == e
    ensures KeyOf(MergedTimes(d, e, k)) == KeyOf(e) == e.key == MergedTimes(d, e, k).key
  {
    hide CacheKey, Resolved;
    KeyIsCached(e, e.service);
    if k > 0 {
      KeySurvivesMerging(d, e, k - 1);
    }
  }

  /** The same objects listed again, in the states `es'`. */
  function Relisted(es: seq<Listed>, es': seq<Event>): (r: seq<Listed>)
    requires |es| == |es'|
    ensures |r| == |es| && forall i :: 0 <= i < |r| ==> r[i] == Listed(es'[i], es[i].times)
  {
    seq(|es|, i requires 0 <= i < |es| => Listed(es'[i], es[i].times))
  }

  /** Repeating a snapshot, with new events for the same provider URLs or with the very same
      events again, leaves cache, attempts and all invokers as they are. */
  lemma RepeatedSnapshotIsSilent(d: Dir, es: seq<Listed>, dial: Dial)
    requires Accepted(d, es)
    requires forall n :: d.attempts <= n < OnSnapshot(d, es, dial).0.attempts ==> dial(n)
    ensures var (d', es') := OnSnapshot(d, es, dial);
            && Accepted(d', es) && OnSnapshot(d', es, dial).0 == Overridden(d')
            && (Accepted(d', Relisted(es, es')) ==> OnSnapshot(d', Relisted(es, es'), dial).0 == Overridden(d'))
  {
    hide OnSnapshot, PreparedAll, MergedTimes, CacheKey;
    var (d', es') := OnSnapshot(d, es, dial);
    SnapshotMakesCacheAgree(d, es, dial);
    SnapshotKeepsRules(d, es, dial);
    assert es' == PreparedAll(Overridden(d), es) by { SnapshotPrepares(d, es, dial); }
    forall i, k | 0 <= i < |es| && 0 <= k < es[i].times ensures Acceptable(MergedTimes(d', es[i].event, k)) {
      MergedAlike(d, d', es[i].event, k);
    }
    forall i | 0 <= i < |es| ensures Prepared(Overridden(d), es[i]) == Prepared(Overridden(d'), es[i]) {
      MergedAlike(Overridden(d), Overridden(d'), es[i].event, es[i].times);
    }
    PreparedKeys(Overridden(d), Overridden(d'), es, es);
    SnapshotOfCachedKeys(d', es, dial);
    var again := Relisted(es, es');
    if Accepted(d', again) {
      forall i | 0 <= i < |es| ensures Prepared(Overridden(d), es[i]).key == Prepared(Overridden(d'), again[i]).key {
        KeyedTwice(MergedTimes(Overridden(d), es[i].event, es[i].times));
        KeySurvivesMerging(Overridden(d'), es'[i], es[i].times);
      }
      PreparedKeys(Overridden(d), Overridden(d'), es, again);
      SnapshotOfCachedKeys(d', again, dial);
    }
  }

  lemma SnapshotPrepares(d: Dir, es: seq<Listed>, dial: Dial)
    requires Accepted(d, es)
    ensures OnSnapshot(d, es, dial).1 == PreparedAll(Overridden(d), es)
  {
  }

  lemma SnapshotKeepsRules(d: Dir, es: seq<Listed>, dial: Dial)
    requires Accepted(d, es)
    ensures var d' := OnSnapshot(d, es, dial).0;
            && Rules(d') == Rules(d) && d'.reference == d.reference && d'.localIp == d.localIp
            && d'.origin == d.origin
  {
    var d1 := Pruned(Overridden(d), Keys(PreparedAll(Overridden(d), es)));
    AddAllAdds(d1, ToAdd(d1.cache, PreparedAll(Overridden(d), es)), dial);
  }

  // ---- keys ----

  /** What a caller can check of a provider URL: it brings its own interface, group and version
      wherever the reference would otherwise supply a different one. */
  predicate BringsItsOwnKey(raw: Url, reference: Url) {
    && (Get(raw.params, GROUP) != "" || Get(reference.params, GROUP) == "")
    && (Get(raw.params, VERSION) != "" || Get(reference.params, VERSION) == "")
    && (Get(raw.params, INTERFACE) != "" || Get(reference.params, INTERFACE) in {"", Service(raw)})
  }

  lemma KeyNamesAreOrdinary(reference: Url)
    ensures forall k :: k in {GROUP, VERSION, INTERFACE} ==>
              !ReferenceWins(reference, k) && k != TIMESTAMP && k != REMOTE_TIMESTAMP
    ensures IsConditionKey(GROUP) && IsConditionKey(VERSION)
    ensures GROUP != VERSION && GROUP != INTERFACE && VERSION != INTERFACE
  {
    assert GROUP[0] == 'g' && VERSION[0] == 'v' && INTERFACE[0] == 'i';
    assert TIMESTAMP[0] == 't' && REMOTE_TIMESTAMP[0] == 'r' && LOADBALANCE[0] == 'l' && CLUSTER[0] == 'c' &&
             RETRIES[0] == 'r' && TIMEOUT[0] == 't';
    var ks := MethodTimeoutKeys(reference.base.methods);
    assert forall i :: 0 <= i < |ks| ==> ks[i][0] == 'm';
  }

  lemma ResolvedKeepsBase(d: Dir, raw: Url)
    ensures Resolved(d, raw).base == raw.base
  {
    hide ApplyAll;
    RulesKeepBase(Rules(d), Merged(raw, d.reference), d.localIp);
  }

  /** Merging fills a key part from the reference exactly when the provider has none; rules that
      do not name the interface leave all three parts alone. */
  lemma ResolvedKeyParts(d: Dir, raw: Url)
    requires forall r :: r in Rules(d) ==> INTERFACE !in Payload(r)
    ensures Resolved(d, raw).base == raw.base
    ensures forall k :: k in {GROUP, VERSION, INTERFACE} ==>
              Get(Resolved(d, raw).params, k) ==
              if Get(raw.params, k) != "" then Get(raw.params, k) else Get(d.reference.params, k)
  {
    hide ApplyAll, Merged, Payload, ReferenceWins, IsConditionKey;
    ResolvedKeepsBase(d, raw);
    var merged := Merged(raw, d.reference);
    var rules := Rules(d);
    KeyNamesAreOrdinary(d.reference);
    RulesKeepAddressAndConditions(rules, merged, d.localIp, GROUP);
    RulesKeepAddressAndConditions(rules, merged, d.localIp, VERSION);
    assert rules[..|rules|] == rules;
    assert forall j :: 0 <= j < |rules| ==> rules[j] in Rules(d);
    UntouchedUnlessCarried(rules, merged, d.localIp, |rules|, INTERFACE);
    MergeReads(raw, d.reference, GROUP);
    MergeReads(raw, d.reference, VERSION);
    MergeReads(raw, d.reference, INTERFACE);
  }

  /** What the last rule that applies and carries the setting says: one for the reference before one for
      the consumer, one for the consumer before a configurator. */
  function RuledReading(d: Dir, u: Url, key: string, otherwise: string): string {
    var a := LastCarrier(d.configurators, u, d.localIp, key);
    var b := LastCarrier(d.consumerRules, u, d.localIp, key);
    var c := LastCarrier(d.referenceRules, u, d.localIp, key);
    if c >= 0 then Get(Payload(d.referenceRules[c]), key)
    else if b >= 0 then Get(Payload(d.consumerRules[b]), key)
    else if a >= 0 then Get(Payload(d.configurators[a]), key)
    else otherwise
  }

  lemma RulesRead(d: Dir, u: Url, key: string)
    requires Undisturbed(Rules(d))
    ensures Get(ApplyAll(Rules(d), u, d.localIp).params, key) == RuledReading(d, u, key, Get(u.params, key))
  {
    hide Carries, LastCarrier, Undisturbed, ApplyAll, Payload;
    var rules := Rules(d);
    var a := LastCarrier(d.configurators, u, d.localIp, key);
    var b := LastCarrier(d.consumerRules, u, d.localIp, key);
    var c := LastCarrier(d.referenceRules, u, d.localIp, key);
    LastCarrierIsLast(d.configurators, u, d.localIp, key);
    LastCarrierIsLast(d.consumerRules, u, d.localIp, key);
    LastCarrierIsLast(d.referenceRules, u, d.localIp, key);
    var m, n := |d.configurators|, |d.configurators| + |d.consumerRules|;
    assert forall i :: m <= i < n ==> rules[i] == d.consumerRules[i - m];
    assert forall i :: n <= i < |rules| ==> rules[i] == d.referenceRules[i - n];
    var last := if c >= 0 then n + c else if b >= 0 then m + b else a;
    CarriesKey(rules, u, d.localIp, last, key);
    LastMatchingRuleWins(rules, u, d.localIp, last, key);
  }

  /** A setting of a provider reads as the rules say, and without any as it reads when merged with the
      reference. */
  lemma ResolvedReads(d: Dir, raw: Url, key: string)
    requires Undisturbed(Rules(d))
    ensures Get(Resolved(d, raw).params, key) ==
            RuledReading(d, Merged(raw, d.reference), key, MergedReading(raw, d.reference, key))
  {
    hide RuledReading, Undisturbed, ApplyAll, Merged, MergedReading;
    RulesRead(d, Merged(raw, d.reference), key);
    MergeReads(raw, d.reference, key);
  }

  /** The cache key survives merging and overriding for every provider URL that brings its own
      key; and when no part contains '&', only for those. */
  lemma CacheKeySurvives(d: Dir, raw: Url)
    requires forall r :: r in Rules(d) ==> INTERFACE !in Payload(r)
    ensures BringsItsOwnKey(raw, d.reference) ==> CacheKey(Resolved(d, raw)) == CacheKey(raw)
    ensures AmpersandFree(raw) && AmpersandFree(Resolved(d, raw)) && CacheKey(Resolved(d, raw)) == CacheKey(raw) ==>
              BringsItsOwnKey(raw, d.reference)
  {
    ResolvedKeyParts(d, raw);
    var u := Resolved(d, raw);
    if BringsItsOwnKey(raw, d.reference) {
      assert Service(u) == Service(raw);
    }
    if AmpersandFree(raw) && AmpersandFree(u) && CacheKey(u) == CacheKey(raw) {
      CacheKeyDecidesParts(u, raw);
    }
  }

  function FreshEvent(action: EventType, raw: Url): Event {
    Event(action, raw, "", false)
  }

  /** The directory after an Add of a provider it accepts: the provider's invoker sits under the
      key of the resolved URL, if it is cached at all. */
  lemma AddThenDel(d: Dir, raw: Url, dial: Dial)
    requires IsProvider(raw) && ProtocolAccepted(d, raw)
    ensures var d1 := OnNotify(d, FreshEvent(Add, raw), dial).0;
            var d2 := OnNotify(d1, FreshEvent(Del, raw), dial).0;
            var key := CacheKey(Resolved(d, raw));
            && (dial(d.attempts) ==> key in d1.cache)
            && d1.cache - {key} == d.cache - {key}
            && d2.cache == d1.cache - {CacheKey(raw)}
  {
    hide CacheKey, ApplyAll, Merged;
    var (dc, u) := Converted(d, raw);
    var (d0, chosen) := Chosen(Overridden(dc), u);
    assert chosen == Some(raw) && Rules(d0) == Rules(d) && d0.reference == d.reference && d0.localIp == d.localIp;
    assert Resolved(d0, raw) == Resolved(d, raw);
    assert KeyOf(Refreshed(FreshEvent(Add, raw), Resolved(d, raw))) == CacheKey(Resolved(d, raw));
  }

  /** Del after Add of one provider URL removes what Add cached if, and for parts without '&' only
      if, the URL brings its own key. Otherwise its invoker stays cached for a provider that is gone. */
  lemma DelUndoesAdd(d: Dir, raw: Url, dial: Dial)
    requires IsProvider(raw) && ProtocolAccepted(d, raw)
    requires forall r :: r in Rules(d) ==> INTERFACE !in Payload(r)
    requires dial(d.attempts)
    ensures var d1 := OnNotify(d, FreshEvent(Add, raw), dial).0;
            var d2 := OnNotify(d1, FreshEvent(Del, raw), dial).0;
            var key := CacheKey(Resolved(d, raw));
            && (BringsItsOwnKey(raw, d.reference) ==> d2.cache == d.cache - {key})
            && (!BringsItsOwnKey(raw, d.reference) && AmpersandFree(raw) && AmpersandFree(Resolved(d, raw)) ==>
                  key in d2.cache && d2.cache[key] == d1.cache[key])
  {
    AddThenDel(d, raw, dial);
    CacheKeySurvives(d, raw);
  }
}
