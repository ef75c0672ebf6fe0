/** registry/directory/directory.go: what one registry notification does to the invoker cache. */
module DirectorySpec {
  import opened Wrappers
  import opened Urls
  import opened UrlObjects
  import opened Overrides
  import opened Events

  /** `id` is the number of the Refer attempt that made the invoker, so no two are the same. */
  datatype Invoker = Invoker(id: nat, url: Url)

  /** The outcome of each Refer attempt, by number; arbitrary. */
  type Dial = nat -> bool

  /** The directory's fields, and which invokers were ever referred, are waiting for their
      Destroy goroutine, or have been destroyed. */
  datatype Dir = Dir(
    reference: Url, localIp: string, directoryUrl: Url,
    configurators: seq<Url>, consumerRules: seq<Url>, referenceRules: seq<Url>,
    origin: Option<Url>, cache: map<string, Invoker>, attempts: nat,
    referred: set<Invoker>, scheduled: set<Invoker>, destroyed: set<Invoker>)

  function Held(cache: map<string, Invoker>): set<Invoker> {
    set k | k in cache :: cache[k]
  }

  ghost predicate Injective(cache: map<string, Invoker>) {
    forall k, l :: k in cache && l in cache && cache[k] == cache[l] ==> k == l
  }

  function Rules(d: Dir): seq<Url> {
    d.configurators + d.consumerRules + d.referenceRules
  }

  /** A provider URL as the consumer will use it: merged with the reference, then overridden. */
  function Resolved(d: Dir, raw: Url): Url {
    ApplyAll(Rules(d), Merged(raw, d.reference), d.localIp)
  }

  predicate IsOverride(u: Url) {
    u.base.protocol == "override" || GetParam(u, CATEGORY, "providers") == "configurators"
  }

  predicate IsRouter(u: Url) {
    u.base.protocol == "router" || GetParam(u, CATEGORY, "providers") == "category"
  }

  predicate IsProvider(u: Url) {
    !IsOverride(u) && !IsRouter(u)
  }

  function Overridden(d: Dir): Dir {
    d.(directoryUrl := ApplyAll(Rules(d), d.directoryUrl, d.localIp))
  }

  /** doCacheInvoker: keeps an equal invoker, else refers a new one; the displaced one is returned. */
  function CacheOne(d: Dir, key: string, url: Url, dial: Dial): (Dir, Option<Invoker>) {
    if key in d.cache && SameUrl(url, d.cache[key].url) then (d, None)
    else if !dial(d.attempts) then (d.(attempts := d.attempts + 1), None)
    else
      var i := Invoker(d.attempts, url);
      (d.(attempts := d.attempts + 1, referred := d.referred + {i}, cache := d.cache[key := i]),
       if key in d.cache then Some(d.cache[key]) else None)
  }

  function AsSet(i: Option<Invoker>): set<Invoker> {
    if i.Some? then {i.value} else {}
  }

  function Destroy(d: Dir, gone: set<Invoker>): Dir {
    d.(destroyed := d.destroyed + gone)
  }

  function Schedule(d: Dir, gone: set<Invoker>): Dir {
    d.(scheduled := d.scheduled + gone)
  }

  // ---- one event ----

  function Converted(d: Dir, u: Url): (Dir, Option<Url>) {
    (if IsOverride(u) then d.(configurators := d.configurators + [u]) else d,
     if IsProvider(u) then Some(u) else None)
  }

  /** The URL to cache: the event's own, or for an override event the last provider seen. */
  function Chosen(d: Dir, u: Option<Url>): (Dir, Option<Url>) {
    if u.None? && d.origin.Some? then (d, d.origin) else (d.(origin := u), u)
  }

  predicate ProtocolAccepted(d: Dir, u: Url) {
    u.base.protocol == d.reference.base.protocol || d.reference.base.protocol == ""
  }

  function CacheInvoker(d: Dir, u: Option<Url>, e: Event, dial: Dial): (Dir, Event, Option<Invoker>) {
    var (d1, chosen) := Chosen(Overridden(d), u);
    if chosen.Some? && ProtocolAccepted(d1, chosen.value) then
      var url := Resolved(d1, chosen.value);
      var e1 := Keyed(Refreshed(e, url));
      var (d2, old') := CacheOne(d1, e1.key, url, dial);
      (d2, e1, old')
    else (d1, e, None)
  }

  function Uncached(d: Dir, key: string): (Dir, Option<Invoker>) {
    (d.(cache := d.cache - {key}), if key in d.cache then Some(d.cache[key]) else None)
  }

  function CacheByEvent(d: Dir, e: Event, dial: Dial): (Dir, Event, Option<Invoker>) {
    match e.action
    case Add | Update => var (d1, u) := Converted(d, e.service); CacheInvoker(d1, u, e, dial)
    case Del => var (d1, old') := Uncached(d, KeyOf(e)); (d1, Keyed(e), old')
    case Other => (d, e, None)
  }

  function OnNotify(d: Dir, e: Event, dial: Dial): (Dir, Event) {
    var (d1, e1, old') := CacheByEvent(d, e, dial);
    (Destroy(d1, AsSet(old')), e1)
  }

  // ---- a full snapshot ----

  /** An event of a snapshot, and how often the snapshot lists that same event object. */
  datatype Listed = Listed(event: Event, times: nat)

  function MergedOnce(d: Dir, e: Event): Event {
    Refreshed(e, Resolved(d, e.service))
  }

  function MergedTimes(d: Dir, e: Event, k: nat): Event {
    if k == 0 then e else MergedOnce(d, MergedTimes(d, e, k - 1))
  }

  /** Merging does not depend on the fields that steps without rule changes update. */
  lemma {:induction false} MergedAlike(d: Dir, d': Dir, e: Event, k: nat)
    requires Rules(d') == Rules(d) && d'.reference == d.reference && d'.localIp == d.localIp
    ensures MergedTimes(d', e, k) == MergedTimes(d, e, k)
  {
    if k > 0 {
      MergedAlike(d, d', e, k - 1);
    }
  }

  predicate Acceptable(e: Event) {
    e.action == Update && IsProvider(e.service)
  }

  /** Anything but a provider update makes the code panic, each time an event has its turn. */
  predicate Accepted(d: Dir, es: seq<Listed>) {
    forall i, k :: 0 <= i < |es| && 0 <= k < es[i].times ==> Acceptable(MergedTimes(d, es[i].event, k))
  }

  lemma AcceptedAlike(d: Dir, d': Dir, es: seq<Listed>)
    requires Rules(d') == Rules(d) && d'.reference == d.reference && d'.localIp == d.localIp
    ensures Accepted(d', es) <==> Accepted(d, es)
  {
    hide MergedTimes, Acceptable;
    forall i, k | 0 <= i < |es| && 0 <= k < es[i].times
      ensures MergedTimes(d', es[i].event, k) == MergedTimes(d, es[i].event, k)
    {
      MergedAlike(d, d', es[i].event, k);
    }
  }

  function Prepared(d: Dir, e: Listed): Event {
    Keyed(MergedTimes(d, e.event, e.times))
  }

  function PreparedAll(d: Dir, es: seq<Listed>): (r: seq<Event>)
    ensures |r| == |es| && forall i :: 0 <= i < |r| ==> r[i] == Prepared(d, es[i])
  {
    seq(|es|, i requires 0 <= i < |es| => Prepared(d, es[i]))
  }

  function Keys(es: seq<Event>): set<string> {
    set i | 0 <= i < |es| :: es[i].key
  }

  function Pruned(d: Dir, keys: set<string>): Dir {
    d.(cache := map k | k in d.cache && k in keys :: d.cache[k])
  }

  function Unlisted(cache: map<string, Invoker>, keys: set<string>): set<Invoker> {
    set k | k in cache && k !in keys :: cache[k]
  }

  function ToAdd(cache: map<string, Invoker>, es: seq<Event>): seq<Event> {
    if es == [] then []
    else
      var e := es[|es| - 1];
      ToAdd(cache, es[..|es| - 1]) + if e.key in cache then [] else [e]
  }

  function AddAll(d: Dir, es: seq<Event>, dial: Dial): (Dir, set<Invoker>) {
    if es == [] then (d, {})
    else
      var (d1, gone) := AddAll(d, es[..|es| - 1], dial);
      var (d2, old') := CacheOne(d1, es[|es| - 1].key, es[|es| - 1].service, dial);
      (d2, gone + AsSet(old'))
  }

  function OnSnapshot(d: Dir, es: seq<Listed>, dial: Dial): (Dir, seq<Event>)
    requires Accepted(d, es)
  {
    var d0 := Overridden(d);
    var prepared := PreparedAll(d0, es);
    var d1 := Pruned(d0, Keys(prepared));
    var (d2, displaced) := AddAll(d1, ToAdd(d1.cache, prepared), dial);
    (Schedule(d2, Unlisted(d0.cache, Keys(prepared)) + displaced), prepared)
  }

  // ---- the lifetime invariant ----

  /** Every invoker ever referred is in exactly one place: cached under one key, in limbo inside
      the current step, waiting for its Destroy, or destroyed. */
  ghost predicate Accounted(cache: map<string, Invoker>, limbo: set<Invoker>, scheduled: set<Invoker>,
                            destroyed: set<Invoker>, referred: set<Invoker>, attempts: nat)
  {
    && Injective(cache)
    && referred == Held(cache) + limbo + scheduled + destroyed
    && Held(cache) !! limbo !! scheduled !! destroyed
    && (forall i :: i in referred ==> i.id < attempts)
    && (forall i, j :: i in referred && j in referred && i.id == j.id ==> i == j)
  }

  ghost predicate Inv(d: Dir, limbo: set<Invoker>) {
    Accounted(d.cache, limbo, d.scheduled, d.destroyed, d.referred, d.attempts)
  }

  lemma HeldAfterStore(cache: map<string, Invoker>, key: string, i: Invoker, old': Option<Invoker>)
    requires Injective(cache)
    requires old' == if key in cache then Some(cache[key]) else None
    requires i !in Held(cache)
    ensures Held(cache[key := i]) == Held(cache) - AsSet(old') + {i}
  {
    var cache' := cache[key := i];
    assert cache'[key] == i;
    forall j | j in Held(cache) - AsSet(old') ensures j in Held(cache') {
      var k :| k in cache && cache[k] == j;
      assert cache'[k] == j;
    }
  }

  lemma StoreKeepsAccount(cache: map<string, Invoker>, limbo: set<Invoker>, scheduled: set<Invoker>,
                          destroyed: set<Invoker>, referred: set<Invoker>, key: string, i: Invoker,
                            old': Option<Invoker>)
    requires Accounted(cache, limbo, scheduled, destroyed, referred, i.id)
    requires old' == if key in cache then Some(cache[key]) else None
    ensures Accounted(cache[key := i], limbo + AsSet(old'), scheduled, destroyed, referred + {i}, i.id + 1)
  {
    assert i !in referred;
    HeldAfterStore(cache, key, i, old');
    assert old'.Some? ==> old'.value in Held(cache);
    assert forall k :: k in cache ==> cache[k] in Held(cache);
  }

  lemma CacheOneKeepsInv(d: Dir, key: string, url: Url, dial: Dial, limbo: set<Invoker>)
    requires Inv(d, limbo)
    ensures var (d', old') := CacheOne(d, key, url, dial); Inv(d', limbo + AsSet(old'))
  {
    var (d', old') := CacheOne(d, key, url, dial);
    assert limbo + {} == limbo;
    if d'.referred != d.referred {
      StoreKeepsAccount(d.cache, limbo, d.scheduled, d.destroyed, d.referred, key, Invoker(d.attempts, url), old');
    }
  }

  lemma UncacheKeepsInv(d: Dir, key: string)
    requires Inv(d, {})
    ensures var (d', old') := Uncached(d, key); Inv(d', AsSet(old'))
  {
    var (d', old') := Uncached(d, key);
    forall j | j in Held(d.cache) - AsSet(old') ensures j in Held(d'.cache) {
      var k :| k in d.cache && d.cache[k] == j;
      assert d'.cache[k] == j;
    }
    assert Held(d'.cache) == Held(d.cache) - AsSet(old');
    assert old'.Some? ==> old'.value in Held(d.cache);
  }

  lemma PruneKeepsInv(d: Dir, keys: set<string>)
    requires Inv(d, {})
    ensures Inv(Pruned(d, keys), Unlisted(d.cache, keys))
  {
    var d' := Pruned(d, keys);
    forall j | j in Held(d.cache)
      ensures j in Held(d'.cache) + Unlisted(d.cache, keys)
    {
      var k :| k in d.cache && d.cache[k] == j;
      assert k in keys ==> d'.cache[k] == j;
    }
    assert Held(d.cache) == Held(d'.cache) + Unlisted(d.cache, keys);
  }

  lemma {:induction false} AddAllKeepsInv(d: Dir, es: seq<Event>, dial: Dial, limbo: set<Invoker>)
    requires Inv(d, limbo)
    ensures var (d', gone) := AddAll(d, es, dial); Inv(d', limbo + gone)
  {
    if es == [] {
      assert limbo + {} == limbo;
    } else {
      var e := es[|es| - 1];
      var (d1, gone) := AddAll(d, es[..|es| - 1], dial);
      AddAllKeepsInv(d, es[..|es| - 1], dial, limbo);
      CacheOneKeepsInv(d1, e.key, e.service, dial, limbo + gone);
      var (d2, old') := CacheOne(d1, e.key, e.service, dial);
      assert limbo + gone + AsSet(old') == limbo + (gone + AsSet(old'));
    }
  }

  lemma CacheInvokerKeepsInv(d: Dir, u: Option<Url>, e: Event, dial: Dial)
    requires Inv(d, {})
    ensures var (d', _, old') := CacheInvoker(d, u, e, dial); Inv(d', AsSet(old'))
  {
    var (d1, chosen) := Chosen(Overridden(d), u);
    assert Inv(d1, {});
    if chosen.Some? && ProtocolAccepted(d1, chosen.value) {
      var url := Resolved(d1, chosen.value);
      CacheOneKeepsInv(d1, KeyOf(Refreshed(e, url)), url, dial, {});
      assert forall x: set<Invoker> :: {} + x == x;
    }
  }

  lemma RetireKeepsInv(d: Dir, gone: set<Invoker>)
    requires Inv(d, gone)
    ensures Inv(Destroy(d, gone), {}) && Inv(Schedule(d, gone), {})
  {
  }

  lemma NotifyKeepsInv(d: Dir, e: Event, dial: Dial)
    requires Inv(d, {})
    ensures Inv(OnNotify(d, e, dial).0, {})
  {
    var (d1, e1, old') := CacheByEvent(d, e, dial);
    match e.action {
      case Add | Update => CacheInvokerKeepsInv(Converted(d, e.service).0, Converted(d, e.service).1, e, dial);
      case Del => UncacheKeepsInv(d, KeyOf(e));
      case Other =>
    }
    RetireKeepsInv(d1, AsSet(old'));
  }

  lemma SnapshotKeepsInv(d: Dir, es: seq<Listed>, dial: Dial)
    requires Inv(d, {}) && Accepted(d, es)
    ensures Inv(OnSnapshot(d, es, dial).0, {})
  {
    var d0 := Overridden(d);
    var prepared := PreparedAll(d0, es);
    var keys := Keys(prepared);
    var d1 := Pruned(d0, keys);
    PruneKeepsInv(d0, keys);
    AddAllKeepsInv(d1, ToAdd(d1.cache, prepared), dial, Unlisted(d0.cache, keys));
    var (d2, displaced) := AddAll(d1, ToAdd(d1.cache, prepared), dial);
    RetireKeepsInv(d2, Unlisted(d0.cache, keys) + displaced);
  }

  // ---- whole runs ----

  datatype Step =
    | Notify(event: Event)
    | NotifyAll(events: seq<Listed>)
    | DestroyRuns(invoker: Invoker)
    | RulesChange(consumer: seq<Url>, reference: seq<Url>)

  predicate Enabled(d: Dir, s: Step) {
    match s
    case NotifyAll(es) => Accepted(d, es)
    case DestroyRuns(i) => i in d.scheduled
    case _ => true
  }

  function Next(d: Dir, s: Step, dial: Dial): Dir
    requires Enabled(d, s)
  {
    match s
    case Notify(e) => OnNotify(d, e, dial).0
    case NotifyAll(es) => OnSnapshot(d, es, dial).0
    case DestroyRuns(i) => d.(scheduled := d.scheduled - {i}, destroyed := d.destroyed + {i})
    case RulesChange(c, r) => d.(consumerRules := c, referenceRules := r)
  }

  predicate IsRun(d: Dir, steps: seq<Step>, dial: Dial)
    decreases steps
  {
    steps == [] || (Enabled(d, steps[0]) && IsRun(Next(d, steps[0], dial), steps[1..], dial))
  }

  function Final(d: Dir, steps: seq<Step>, dial: Dial): Dir
    requires IsRun(d, steps, dial)
    decreases steps
  {
    if steps == [] then d else Final(Next(d, steps[0], dial), steps[1..], dial)
  }

  predicate Initial(d: Dir) {
    d.cache == map[] && d.attempts == 0 && d.referred == d.scheduled == d.destroyed == {}
  }

  lemma {:induction false} RunKeepsInv(d: Dir, steps: seq<Step>, dial: Dial)
    requires Inv(d, {}) && IsRun(d, steps, dial)
    ensures Inv(Final(d, steps, dial), {})
    decreases steps
  {
    if steps != [] {
      match steps[0] {
        case Notify(e) => NotifyKeepsInv(d, e, dial);
        case NotifyAll(es) => SnapshotKeepsInv(d, es, dial);
        case DestroyRuns(i) =>
        case RulesChange(c, r) =>
      }
      RunKeepsInv(Next(d, steps[0], dial), steps[1..], dial);
    }
  }

  /** After any run the invokers referred and neither destroyed nor about to be are exactly the
      cached ones, one per key, and no cached invoker is destroyed or about to be. */
  lemma NoLeakNoDeadInvoker(d: Dir, steps: seq<Step>, dial: Dial)
    requires Initial(d) && IsRun(d, steps, dial)
    ensures var f := Final(d, steps, dial);
            && f.referred - f.destroyed - f.scheduled == Held(f.cache)
            && Held(f.cache) !! f.destroyed && Held(f.cache) !! f.scheduled
            && (forall k, l :: k in f.cache && l in f.cache && k != l ==> f.cache[k].id != f.cache[l].id)
  {
    assert Held(d.cache) == {};
    RunKeepsInv(d, steps, dial);
    var f := Final(d, steps, dial);
    forall k, l | k in f.cache && l in f.cache && k != l
      ensures f.cache[k].id != f.cache[l].id
    {
      assert f.cache[k] in Held(f.cache) && f.cache[l] in Held(f.cache);
    }
  }
}
