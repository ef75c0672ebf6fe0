/** registry/directory/directory.go: what the cached invokers are made from, after whole runs of registry events. */
module DirectoryContents {
  import opened Wrappers
  import opened Urls
  import opened UrlObjects
  import opened Overrides
  import opened Events
  import opened DirectorySpec
  import opened DirectoryLaws
  import opened DirectoryRuns

  // ---- one event ----

  /** The URL an Add or Update brings: its provider's, or the last provider's, merged and overridden. */
  function Brought(d: Dir, e: Event): Option<Url> {
    var d1 := Converting(d, e.service);
    if Offer(d.reference, d1.origin) == {} then None else Some(Resolved(d1, d1.origin.value))
  }

  predicate Serves(d: Dir, u: Url) {
    d.reference.base.protocol in {"", u.base.protocol}
  }

  /** A provider's event brings that provider. A rule brings the last provider again, and applies to
      it at once, after the older configurators; a router brings the last provider unchanged. */
  lemma WhatAnEventBrings(d: Dir, e: Event)
    requires e.action == Add || e.action == Update
    ensures var u := e.service;
            var isRule := u.base.protocol == "override" || Get(u.params, "category") == "configurators";
            var isRouter := u.base.protocol == "router" || Get(u.params, "category") == "category";
            var d' := if isRule then d.(configurators := d.configurators + [u]) else d;
            Brought(d, e) ==
            if isRule || isRouter then
              if d.origin.Some? && Serves(d, d.origin.value) then Some(Resolved(d', d.origin.value)) else None
            else if Serves(d, u) then Some(Resolved(d, u)) else None
  {
    hide CacheKey, ApplyAll, Merged;
    var u := e.service;
    assert CATEGORY == "category";
    var d1 := Converting(d, u);
    assert Rules(d1) == Rules(if IsOverride(u) then d.(configurators := d.configurators + [u]) else d);
    assert d1.reference == d.reference && d1.localIp == d.localIp;
  }

  /** The event also turns the rules, its own among them, on the directory's URL. */
  lemma DirectoryUrlReads(d: Dir, e: Event, dial: Dial, key: string)
    requires (e.action == Add || e.action == Update) && Undisturbed(Rules(Converting(d, e.service)))
    ensures var d1 := if IsOverride(e.service) then d.(configurators := d.configurators + [e.service]) else d;
            Get(OnNotify(d, e, dial).0.directoryUrl.params, key) ==
            RuledReading(d1, d.directoryUrl, key, Get(d.directoryUrl.params, key))
  {
    hide CacheKey, ApplyAll, Merged, RuledReading, Undisturbed, SameUrl;
    var d1 := if IsOverride(e.service) then d.(configurators := d.configurators + [e.service]) else d;
    assert Rules(d1) == Rules(Converting(d, e.service));
    RulesRead(d1, d.directoryUrl, key);
  }

  lemma ProviderBrings(d: Dir, e: Event)
    requires e == FreshEvent(Add, e.service) && IsProvider(e.service) && ProtocolAccepted(d, e.service)
    ensures Brought(d, e) == Some(Resolved(d, e.service))
    ensures KeyOf(Refreshed(e, Resolved(d, e.service))) == CacheKey(Resolved(d, e.service))
  {
    hide CacheKey, Resolved, Brought;
    WhatAnEventBrings(d, e);
  }

  predicate IsThere(d: Dir, key: string, url: Url) {
    key in d.cache && SameUrl(url, d.cache[key].url)
  }

  /** Only cache, attempts, referred and destroyed invokers, the directory's own URL, the configurators
      and the last provider can change. */
  ghost predicate SameBut(d: Dir, d': Dir) {
    && d'.reference == d.reference && d'.localIp == d.localIp && d'.scheduled == d.scheduled
    && d'.consumerRules == d.consumerRules && d'.referenceRules == d.referenceRules
  }

  lemma AddCachesOne(d: Dir, e: Event, dial: Dial)
    requires (e.action == Add || e.action == Update) && Brought(d, e).Some?
    ensures var url := Brought(d, e).value;
            var (d2, old') := CacheOne(Converting(d, e.service), KeyOf(Refreshed(e, url)), url, dial);
            OnNotify(d, e, dial).0 == Destroy(d2, AsSet(old'))
  {
    hide KeyOf, Resolved, ApplyAll, CacheOne;
  }

  lemma ConvertingKeeps(d: Dir, u: Url)
    ensures var d1 := Converting(d, u);
            && SameBut(d, d1) && d1.cache == d.cache && d1.attempts == d.attempts
            && d1.referred == d.referred && d1.destroyed == d.destroyed
  {
    hide ApplyAll;
  }

  /** An Add or Update refers nothing exactly if the same URL is there under its key. Otherwise, if Refer
      succeeds, the new invoker takes the key and the one it displaces is destroyed; and if it fails,
      the old one stays. */
  lemma AddReplacesTheChanged(d: Dir, e: Event, dial: Dial)
    requires (e.action == Add || e.action == Update) && Brought(d, e).Some?
    ensures var d', url := OnNotify(d, e, dial).0, Brought(d, e).value;
            var key := KeyOf(Refreshed(e, url));
            && SameBut(d, d')
            && (d'.attempts == d.attempts <==> IsThere(d, key, url))
            && (IsThere(d, key, url) ==>
                  d'.cache == d.cache && d'.referred == d.referred && d'.destroyed == d.destroyed)
            && (!IsThere(d, key, url) && dial(d.attempts) ==>
                  && d'.cache == d.cache[key := Invoker(d.attempts, url)]
                  && d'.referred == d.referred + {Invoker(d.attempts, url)}
                  && d'.destroyed == d.destroyed + (if key in d.cache then {d.cache[key]} else {}))
            && (!IsThere(d, key, url) && !dial(d.attempts) ==>
                  d'.cache == d.cache && d'.referred == d.referred && d'.destroyed == d.destroyed)
            && (IsThere(d, key, url) || dial(d.attempts) ==> IsThere(d', key, url))
  {
    hide KeyOf, Converting, SameUrl, OnNotify, Brought;
    AddCachesOne(d, e, dial);
    ConvertingKeeps(d, e.service);
    SameAsItself(Brought(d, e).value);
  }

  lemma SameAsItself(u: Url)
    ensures SameUrl(u, u)
  {
  }

  /** One that brings nothing leaves the cache alone. */
  lemma NothingBrought(d: Dir, e: Event, dial: Dial)
    requires (e.action == Add || e.action == Update) && Brought(d, e).None?
    ensures var d' := OnNotify(d, e, dial).0;
            && SameBut(d, d') && d'.cache == d.cache && d'.attempts == d.attempts
            && d'.referred == d.referred && d'.destroyed == d.destroyed
  {
    hide CacheKey, Resolved, ApplyAll, CacheOne;
  }

  /** Providers at different addresses do not displace each other, whatever the rules say. */
  lemma TwoAddressesAreBothCached(d: Dir, a: Url, b: Url, dial: Dial)
    requires IsProvider(a) && ProtocolAccepted(d, a) && IsProvider(b) && ProtocolAccepted(d, b)
    requires PlainAddress(a.base) && PlainAddress(b.base) && (a.base.ip != b.base.ip || a.base.port != b.base.port)
    requires AmpersandFree(Resolved(d, a)) && AmpersandFree(Resolved(d, b)) && forall n :: dial(n)
    ensures var d1 := OnNotify(d, FreshEvent(Add, a), dial).0;
            var d2 := OnNotify(d1, FreshEvent(Add, b), dial).0;
            var k, l := CacheKey(Resolved(d, a)), CacheKey(Resolved(d, b));
            && k != l && IsThere(d1, k, Resolved(d, a)) && IsThere(d2, l, Resolved(d, b))
            && k in d2.cache && d2.cache[k] == d1.cache[k]
            && d2.cache.Keys == d.cache.Keys + {k, l}
  {
    hide CacheKey, Resolved, ApplyAll, SameUrl, OnNotify, PlainAddress, AmpersandFree;
    var e, f := FreshEvent(Add, a), FreshEvent(Add, b);
    var d1 := OnNotify(d, e, dial).0;
    ProviderBrings(d, e);
    AddReplacesTheChanged(d, e, dial);
    AddKeepsRules(d, e, dial);
    SameResolved(d, d1, b);
    ProviderBrings(d1, f);
    AddReplacesTheChanged(d1, f, dial);
    ResolvedKeepsBase(d, a);
    ResolvedKeepsBase(d, b);
    CacheKeysAreEqual(Resolved(d, a), Resolved(d, b));
  }

  lemma AddKeepsRules(d: Dir, e: Event, dial: Dial)
    requires (e.action == Add || e.action == Update) && IsProvider(e.service)
    ensures var d' := OnNotify(d, e, dial).0;
            Rules(d') == Rules(d) && d'.reference == d.reference && d'.localIp == d.localIp
  {
    hide CacheKey, Resolved, ApplyAll, SameUrl;
  }

  lemma SameResolved(d: Dir, d': Dir, raw: Url)
    requires Rules(d') == Rules(d) && d'.reference == d.reference && d'.localIp == d.localIp
    ensures Resolved(d', raw) == Resolved(d, raw)
  {
  }

  // ---- whole runs ----

  /** For every key the URL last announced for it, and how many Refers there have been. */
  datatype Wish = Wish(urls: map<string, Url>, tries: nat)

  /** The last URL wins, unless it differs from the one before it and cannot be referred. */
  function Wished(w: Wish, key: string, url: Url, dial: Dial): Wish {
    var known := key in w.urls && SameUrl(url, w.urls[key]);
    Wish(if known || dial(w.tries) then w.urls[key := url] else w.urls, if known then w.tries else w.tries + 1)
  }

  /** In the order of the snapshot, for the keys that were not there before it. */
  function WishedAll(w: Wish, before: set<string>, es: seq<Event>, dial: Dial): Wish {
    if es == [] then w
    else
      var w1 := WishedAll(w, before, es[..|es| - 1], dial);
      var e := es[|es| - 1];
      if e.key in before then w1 else Wished(w1, e.key, e.service, dial)
  }

  function WishedBy(d: Dir, w: Wish, step: Step, dial: Dial): Wish {
    match step
    case Notify(e) =>
      (match e.action
       case Add | Update =>
         var url := Brought(d, e);
         if url.None? then w else Wished(w, KeyOf(Refreshed(e, url.value)), url.value, dial)
       case Del => w.(urls := w.urls - {KeyOf(e)})
       case Other => w)
    case NotifyAll(es) =>
      var listed := PreparedAll(Overridden(d), es);
      var kept := map k | k in w.urls && k in Keys(listed) :: w.urls[k];
      WishedAll(w.(urls := kept), kept.Keys, listed, dial)
    case DestroyRuns(_) => w
    case RulesChange(_, _) => w
  }

  function WishedInTheEnd(d: Dir, w: Wish, steps: seq<Step>, dial: Dial): Wish
    requires IsRun(d, steps, dial)
    decreases steps
  {
    if steps == [] then w
    else WishedInTheEnd(Next(d, steps[0], dial), WishedBy(d, w, steps[0], dial), steps[1..], dial)
  }

  /** Exactly the wished keys are cached, each with an invoker that shows what the wished URL shows. */
  ghost predicate Fulfils(cache: map<string, Invoker>, attempts: nat, w: Wish) {
    && cache.Keys == w.urls.Keys && attempts == w.tries
    && forall k :: k in cache ==> SameUrl(w.urls[k], cache[k].url)
  }

  lemma CacheOneFulfils(d: Dir, key: string, url: Url, dial: Dial, w: Wish)
    requires Fulfils(d.cache, d.attempts, w)
    ensures var d' := CacheOne(d, key, url, dial).0; Fulfils(d'.cache, d'.attempts, Wished(w, key, url, dial))
  {
    hide ToMap;
  }

  lemma {:induction false} AddAllFulfils(d: Dir, cache: map<string, Invoker>, es: seq<Event>, dial: Dial, w: Wish)
    requires Fulfils(d.cache, d.attempts, w)
    ensures var d' := AddAll(d, ToAdd(cache, es), dial).0;
            Fulfils(d'.cache, d'.attempts, WishedAll(w, cache.Keys, es, dial))
  {
    hide CacheOne, Wished, Fulfils;
    if es != [] {
      var front, e := es[..|es| - 1], es[|es| - 1];
      AddAllFulfils(d, cache, front, dial, w);
      var added := ToAdd(cache, front);
      if e.key !in cache {
        CacheOneFulfils(AddAll(d, added, dial).0, e.key, e.service, dial, WishedAll(w, cache.Keys, front, dial));
        assert (added + [e])[..|added|] == added;
      } else {
        assert added + [] == added;
      }
    }
  }

  lemma AddFulfils(d: Dir, e: Event, dial: Dial, w: Wish)
    requires Fulfils(d.cache, d.attempts, w) && (e.action == Add || e.action == Update)
    ensures var d' := OnNotify(d, e, dial).0; Fulfils(d'.cache, d'.attempts, WishedBy(d, w, Notify(e), dial))
  {
    hide KeyOf, Converting, OnNotify, Brought, CacheOne, Wished, Fulfils;
    if Brought(d, e).None? {
      NothingBrought(d, e, dial);
    } else {
      var url, d1 := Brought(d, e).value, Converting(d, e.service);
      AddCachesOne(d, e, dial);
      ConvertingKeeps(d, e.service);
      CacheOneFulfils(d1, KeyOf(Refreshed(e, url)), url, dial, w);
    }
  }

  lemma DelFulfils(d: Dir, e: Event, dial: Dial, w: Wish)
    requires Fulfils(d.cache, d.attempts, w) && (e.action == Del || e.action == Other)
    ensures var d' := OnNotify(d, e, dial).0; Fulfils(d'.cache, d'.attempts, WishedBy(d, w, Notify(e), dial))
  {
    hide KeyOf, SameUrl;
  }

  lemma SnapshotFulfils(d: Dir, es: seq<Listed>, dial: Dial, w: Wish)
    requires Fulfils(d.cache, d.attempts, w) && Accepted(d, es)
    ensures var d' := OnSnapshot(d, es, dial).0; Fulfils(d'.cache, d'.attempts, WishedBy(d, w, NotifyAll(es), dial))
  {
    hide PreparedAll, SameUrl, ToAdd, AddAll, WishedAll, Keys, ApplyAll;
    var d0 := Overridden(d);
    var listed := PreparedAll(d0, es);
    var d1 := Pruned(d0, Keys(listed));
    var kept := w.(urls := map k | k in w.urls && k in Keys(listed) :: w.urls[k]);
    assert Fulfils(d1.cache, d1.attempts, kept);
    AddAllFulfils(d1, d1.cache, listed, dial, kept);
  }

  lemma StepFulfils(d: Dir, step: Step, dial: Dial, w: Wish)
    requires Fulfils(d.cache, d.attempts, w) && Enabled(d, step)
    ensures var d' := Next(d, step, dial); Fulfils(d'.cache, d'.attempts, WishedBy(d, w, step, dial))
  {
    hide OnNotify, OnSnapshot, Fulfils, Accepted, Brought, KeyOf, PreparedAll, WishedAll, Wished;
    match step
    case Notify(e) =>
      if e.action == Add || e.action == Update {
        AddFulfils(d, e, dial, w);
      } else {
        DelFulfils(d, e, dial, w);
      }
    case NotifyAll(es) => SnapshotFulfils(d, es, dial, w);
    case DestroyRuns(_) =>
    case RulesChange(_, _) =>
  }

  /** After any run, whatever Refers succeeded, every cached invoker shows what the URL last
      announced under its key shows. */
  lemma {:induction false} CachedUrlsAreTheLatest(d: Dir, steps: seq<Step>, dial: Dial, w: Wish)
    requires IsRun(d, steps, dial) && Fulfils(d.cache, d.attempts, w)
    ensures var f := Final(d, steps, dial); Fulfils(f.cache, f.attempts, WishedInTheEnd(d, w, steps, dial))
    decreases steps
  {
    hide WishedBy, Next, Enabled, Fulfils;
    if steps != [] {
      StepFulfils(d, steps[0], dial, w);
      CachedUrlsAreTheLatest(Next(d, steps[0], dial), steps[1..], dial, WishedBy(d, w, steps[0], dial));
    }
  }

  /** In particular from the start on, and in every setting of every cached URL. */
  lemma CachedSettingsAreTheLatest(d: Dir, steps: seq<Step>, dial: Dial, key: string, name: string)
    requires Initial(d) && IsRun(d, steps, dial)
    ensures var f, w := Final(d, steps, dial), WishedInTheEnd(d, Wish(map[], 0), steps, dial);
            && (key in f.cache <==> key in w.urls)
            && (key in f.cache ==>
                  && f.cache[key].url.base.ip == w.urls[key].base.ip
                  && f.cache[key].url.base.port == w.urls[key].base.port
                  && Shown(f.cache[key].url, name) == Shown(w.urls[key], name))
  {
    hide Shown, Final, WishedInTheEnd, SameUrl;
    CachedUrlsAreTheLatest(d, steps, dial, Wish(map[], 0));
    var f, w := Final(d, steps, dial), WishedInTheEnd(d, Wish(map[], 0), steps, dial);
    if key in f.cache {
      SameUrlsShowTheSame(w.urls[key], f.cache[key].url);
    }
  }
}
