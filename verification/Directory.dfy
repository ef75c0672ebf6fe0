/** registry/directory/directory.go: the consumer's directory, which turns registry events into
    a map of invokers. Each Notify and each NotifyAll is one step. */
module Directory {
  import opened Wrappers
  import opened Urls
  import opened UrlObjects
  import opened Overrides
  import opened Events
  import opened DirectorySpec
  import opened Publishing

  ghost function States(events: seq<ServiceEvent>): (r: seq<Event>)
    reads set e | e in events
    ensures |r| == |events|
  {
    seq(|events|, i requires 0 <= i < |events| reads set e | e in events => events[i].State())
  }

  /** The events of a snapshot, with how often each object is listed. */
  ghost function Listing(events: seq<ServiceEvent>): (r: seq<Listed>)
    reads set e | e in events
    ensures |r| == |events|
    ensures forall i :: 0 <= i < |r| ==> r[i] == Listed(events[i].State(), multiset(events)[events[i]])
  {
    seq(|events|, i requires 0 <= i < |events| reads set e | e in events =>
      Listed(events[i].State(), multiset(events)[events[i]]))
  }

  class RegistryDirectory {
    const reference: Url
    const localIp: string
    const routersRegistered: bool
    const dial: Dial

    var directoryUrl: Url
    var configurators: seq<Url>
    var consumerRules: seq<Url>
    var referenceRules: seq<Url>
    var cacheOriginUrl: Option<Url>
    var cacheInvokersMap: map<string, Invoker>
    var cacheInvokers: seq<Entry>
    var attempts: nat

    ghost var referred: set<Invoker>
    ghost var scheduled: set<Invoker>
    ghost var destroyed: set<Invoker>
    ghost var log: seq<Act>

    ghost function View(): Dir
      reads this
    {
      Dir(reference, localIp, directoryUrl, configurators, consumerRules, referenceRules,
          cacheOriginUrl, cacheInvokersMap, attempts, referred, scheduled, destroyed)
    }

    /** What callers see are invokers of the cache, each in one entry. */
    ghost predicate PublishedAgrees()
      reads `cacheInvokers, `cacheInvokersMap
    {
      IsPublication(cacheInvokers, Held(cacheInvokersMap), routersRegistered)
    }

    /** The log is safe, ends with the published list and shows the destroyed invokers. */
    ghost predicate LogAgrees()
      reads `cacheInvokers, `log, `destroyed
    {
      SafeLog(log) && Showing(log) == cacheInvokers && DestroyedIn(log) == destroyed
    }

    ghost predicate Valid()
      reads this
    {
      Inv(View(), {}) && PublishedAgrees() && LogAgrees()
    }

    /** What only publishing and destroying change. */
    ghost function Shown(): (seq<Entry>, seq<Act>, set<Invoker>)
      reads `cacheInvokers, `log, `destroyed
    {
      (cacheInvokers, log, destroyed)
    }

    constructor (directoryUrl: Url, reference: Url, localIp: string, routersRegistered: bool, dial: Dial)
      ensures Valid() && Initial(View())
    {
      this.directoryUrl, this.reference, this.localIp := directoryUrl, reference, localIp;
      this.routersRegistered, this.dial := routersRegistered, dial;
      configurators, consumerRules, referenceRules, cacheOriginUrl := [], [], [], None;
      cacheInvokersMap, cacheInvokers, attempts := map[], [], 0;
      referred, scheduled, destroyed, log := {}, {}, {}, [];
      new;
      assert Held(cacheInvokersMap) == {};
      assert multiset(Flatten([])) == multiset(Held(cacheInvokersMap)) && GroupsIn({}) == {};
    }

    /** No published invoker has been destroyed or is about to be. */
    lemma PublishedIsAlive(e: Entry, i: Invoker)
      requires Valid() && e in cacheInvokers && i in Members(e)
      ensures i in referred && i !in destroyed && i !in scheduled
    {
      assert IsGrouping(cacheInvokers, Held(cacheInvokersMap));
      PublishedIsHeld(cacheInvokers, Held(cacheInvokersMap), e, i);
    }

    /** overrideUrl: the three lists of rules in turn. */
    method OverrideUrl(target: URL)
      modifies target
      ensures target.Value() == ApplyAll(Rules(View()), old(target.Value()), localIp)
    {
      DoOverrideUrl(configurators, localIp, target);
      DoOverrideUrl(consumerRules, localIp, target);
      DoOverrideUrl(referenceRules, localIp, target);
      ApplyInTurn(configurators + consumerRules, referenceRules, old(target.Value()), localIp);
      ApplyInTurn(configurators, consumerRules, old(target.Value()), localIp);
    }

    method OverrideDirectoryUrl()
      modifies this
      ensures View() == Overridden(old(View()))
      ensures Shown() == old(Shown())
    {
      var target := new URL(directoryUrl);
      OverrideUrl(target);
      directoryUrl := Url(target.base, target.params);
    }

    method Resolve(raw: Url) returns (u: Url)
      ensures u == Resolved(View(), raw)
    {
      var service := new URL(raw);
      var ref := new URL(reference);
      var merged := MergeURL(service, ref);
      OverrideUrl(merged);
      u := Url(merged.base, merged.params);
    }

    /** Protocol.Refer: a new invoker, or nothing when the provider cannot be dialled. */
    method Refer(url: Url) returns (r: Option<Invoker>)
      modifies this
      ensures r == if dial(old(attempts)) then Some(Invoker(old(attempts), url)) else None
      ensures View() == old(View()).(attempts := old(attempts) + 1,
                                     referred := if r.Some? then old(referred) + {r.value} else old(referred))
      ensures Shown() == old(Shown())
    {
      r := if dial(attempts) then Some(Invoker(attempts, url)) else None;
      referred := if r.Some? then referred + {r.value} else referred;
      attempts := attempts + 1;
    }

    method DoCacheInvoker(newUrl: Url, event: ServiceEvent) returns (old': Option<Invoker>)
      modifies this, event
      ensures event.State() == Keyed(old(event.State()))
      ensures (View(), old') == CacheOne(old(View()), KeyOf(old(event.State())), newUrl, dial)
      ensures Shown() == old(Shown())
      ensures var key, before := KeyOf(old(event.State())), old(cacheInvokersMap);
              && (attempts == old(attempts) <==> key in before && SameUrlBut(newUrl, before[key].url, []))
              && (if attempts != old(attempts) && dial(old(attempts)) then
                    && cacheInvokersMap == before[key := Invoker(old(attempts), newUrl)]
                    && old' == (if key in before then Some(before[key]) else None)
                  else cacheInvokersMap == before && old'.None?)
    {
      var key := event.Key();
      if key !in cacheInvokersMap {
        var newInvoker := Refer(newUrl);
        if newInvoker.Some? {
          cacheInvokersMap := cacheInvokersMap[key := newInvoker.value];
        }
        return None;
      }
      var cached := cacheInvokersMap[key];
      NothingExcluded(newUrl, cached.url);
      var same := IsEquals(newUrl, cached.url, []);
      if same {
        return None;
      }
      var newInvoker := Refer(newUrl);
      if newInvoker.Some? {
        cacheInvokersMap := cacheInvokersMap[key := newInvoker.value];
        return Some(cached);
      }
      return None;
    }

    method UncacheInvokerWithKey(key: string) returns (old': Option<Invoker>)
      modifies `cacheInvokersMap
      ensures (View(), old') == Uncached(old(View()), key)
    {
      old' := None;
      if key in cacheInvokersMap {
        old' := Some(cacheInvokersMap[key]);
      }
      cacheInvokersMap := cacheInvokersMap - {key};
    }

    method ConvertUrl(u: Url) returns (ret: Option<Url>)
      modifies `configurators
      ensures (View(), ret) == Converted(old(View()), u)
    {
      ret := Some(u);
      if u.base.protocol == "override" || Urls.GetParam(u, CATEGORY, "providers") == "configurators" {
        configurators := configurators + [u];
        ret := None;
      } else if u.base.protocol == "router" || Urls.GetParam(u, CATEGORY, "providers") == "category" {
        ret := None;
      }
    }

    method CacheInvokerFor(u: Option<Url>, event: ServiceEvent) returns (old': Option<Invoker>)
      modifies this, event
      ensures (View(), event.State(), old') == CacheInvoker(old(View()), u, old(event.State()), dial)
      ensures Shown() == old(Shown())
    {
      OverrideDirectoryUrl();
      var url := u;
      if u.None? && cacheOriginUrl.Some? {
        url := cacheOriginUrl;
      } else {
        cacheOriginUrl := u;
      }
      if url.None? {
        return None;
      }
      if url.value.base.protocol == reference.base.protocol || reference.base.protocol == "" {
        var newUrl := Resolve(url.value);
        event.Update(newUrl);
        old' := DoCacheInvoker(newUrl, event);
        return;
      }
      return None;
    }

    method CacheInvokerByEvent(event: ServiceEvent) returns (old': Option<Invoker>)
      modifies this, event
      ensures (View(), event.State(), old') == CacheByEvent(old(View()), old(event.State()), dial)
      ensures Shown() == old(Shown())
    {
      match event.action {
        case Add | Update =>
          var u := ConvertUrl(event.service);
          old' := CacheInvokerFor(u, event);
        case Del =>
          var key := event.Key();
          old' := UncacheInvokerWithKey(key);
        case Other =>
          old' := None;
      }
    }

    method SetNewInvokers()
      requires Injective(cacheInvokersMap) && LogAgrees() && Held(cacheInvokersMap) !! destroyed
      modifies `cacheInvokers, `log
      ensures PublishedAgrees() && LogAgrees() && View() == old(View())
      ensures log == old(log) + [Publish(cacheInvokers)]
    {
      cacheInvokers := ToGroupInvokers(cacheInvokersMap, routersRegistered);
      OnlyHeldArePublished(cacheInvokers, cacheInvokersMap, routersRegistered, destroyed);
      PublishIsSafe(log, cacheInvokers);
      log := log + [Publish(cacheInvokers)];
    }

    /** Invoker.Destroy of an invoker that is no longer published. */
    method DestroyOne(i: Invoker)
      requires LogAgrees() && PublishedAgrees() && i !in Held(cacheInvokersMap)
      modifies `destroyed, `log
      ensures LogAgrees() && View() == DirectorySpec.Destroy(old(View()), {i})
      ensures log == old(log) + [Destroys(i)]
    {
      OnlyHeldArePublished(cacheInvokers, cacheInvokersMap, routersRegistered, {i});
      DestroyIsSafe(log, i);
      destroyed := destroyed + {i};
      log := log + [Destroys(i)];
    }

    /** Notify, also with no event. First the new list is published, then the displaced invoker is
        destroyed. */
    method RefreshInvokers(event: ServiceEvent?)
      requires Valid()
      modifies this, event
      ensures Valid()
      ensures event == null ==> View() == old(View()) && log == old(log) + [Publish(cacheInvokers)]
      ensures event != null ==> (View(), event.State()) == OnNotify(old(View()), old(event.State()), dial)
      ensures event != null ==>
                log == old(log) + [Publish(cacheInvokers)] +
                Destructions(CacheByEvent(old(View()), old(event.State()), dial).2)
    {
      hide CacheByEvent, OnNotify, SafeLog, IsPublication, Showing, DestroyedIn, Injective;
      if event == null {
        InvIsApart(View(), {});
        SetNewInvokers();
        return;
      }
      ghost var d, e := View(), event.State();
      var old' := CacheInvokerByEvent(event);
      NotifyKeepsInv(d, e, dial);
      DisplacedIsNotHeld(d, e, dial);
      InvIsApart(View(), AsSet(old'));
      SetNewInvokers();
      if old'.Some? {
        DestroyOne(old'.value);
      } else {
        assert destroyed + {} == destroyed && log + [] == log;
      }
    }

    /** A change in the configuration center: new rules, and the list is published again. */
    method Process(consumer: seq<Url>, reference: seq<Url>)
      requires Valid()
      modifies this
      ensures Valid() && View() == Next(old(View()), RulesChange(consumer, reference), dial)
    {
      hide SafeLog, Showing, DestroyedIn, IsPublication;
      consumerRules, referenceRules := consumer, reference;
      SetNewInvokers();
    }

    /** One of the goroutines that a snapshot started. */
    method DestroyGoroutine(i: Invoker)
      requires Valid() && i in scheduled
      modifies this
      ensures Valid() && View() == Next(old(View()), DestroyRuns(i), dial)
    {
      hide Inv, SafeLog, Showing, DestroyedIn, IsPublication;
      ScheduledIsNotHeld(View(), i, dial);
      scheduled := scheduled - {i};
      DestroyOne(i);
    }

    /** One turn at the head of NotifyAll. A wrong action panics, and so does merging the nil URL
        that an override or router event is converted to. */
    method PrepareEvent(event: ServiceEvent) returns (panicked: bool)
      modifies `configurators, event
      ensures panicked <==> !Acceptable(old(event.State()))
      ensures !panicked ==> configurators == old(configurators)
      ensures !panicked ==> event.State() == MergedOnce(old(View()), old(event.State()))
    {
      hide Resolved;
      if event.action != Update {
        return true;
      }
      var newUrl := ConvertUrl(event.service);
      if newUrl.None? {
        return true;
      }
      var resolved := Resolve(newUrl.value);
      event.Update(resolved);
      return false;
    }

    /** The checks and merges at the head of NotifyAll; an event object listed again has another turn. */
    method PrepareEvents(events: seq<ServiceEvent>) returns (panicked: bool)
      modifies `configurators, set e | e in events
      ensures panicked <==> !Accepted(old(View()), old(Listing(events)))
      ensures !panicked ==> configurators == old(configurators)
      ensures !panicked ==> MergedBy(old(View()), events, old(Listing(events)), |events|)
    {
      hide MergedOnce, MergedTimes, Accepted, Acceptable, MergedBy, AcceptedUpTo, AreMerged, Alike;
      ghost var d, es := View(), Listing(events);
      NoneMerged(d, events, es);
      for n := 0 to |events|
        invariant configurators == old(configurators)
        invariant MergedBy(d, events, es, n) && AcceptedUpTo(d, events, es, n)
      {
        ghost var before := States(events);
        ghost var c := TurnComes(d, events, es, n);
        MustBeAcceptable(d, es, n, c);
        StatesAreMerged(d, events, es, n);
        panicked := PrepareEvent(events[n]);
        if panicked {
          return;
        }
        TurnTaken(d, events, before, es, n, c);
      }
      AllTurnsTaken(d, events, es);
      return false;
    }

    /** invokerCacheKey: an event not yet updated is merged with the reference first. */
    method InvokerCacheKey(event: ServiceEvent) returns (key: string)
      modifies event
      ensures var e := old(event.State());
              var merged := if e.updated then e else Refreshed(e, Merged(e.service, reference));
              key == KeyOf(merged) && event.State() == Keyed(merged)
    {
      hide CacheKey, Merged;
      if !event.updated {
        var service := new URL(event.service);
        var ref := new URL(reference);
        var newUrl := MergeURL(service, ref);
        event.Update(Url(newUrl.base, newUrl.params));
      }
      key := event.Key();
    }

    method EventMatched(key: string, events: seq<ServiceEvent>, ghost rs: seq<Event>) returns (matched: bool)
      requires Tracks(events, rs)
      modifies set e | e in events
      ensures Tracks(events, rs)
      ensures matched <==> exists i :: 0 <= i < |rs| && KeyOf(rs[i]) == key
    {
      hide CacheKey;
      for n := 0 to |events|
        invariant Tracks(events, rs)
        invariant forall i :: 0 <= i < n ==> KeyOf(rs[i]) != key
      {
        KeyedTwice(rs[n]);
        var k := InvokerCacheKey(events[n]);
        if k == key {
          return true;
        }
      }
      return false;
    }

    /** Drops every cached invoker whose key no event of the snapshot has. */
    method PruneCache(events: seq<ServiceEvent>, ghost rs: seq<Event>, ghost keys: set<string>)
      returns (oldInvokers: seq<Invoker>)
      requires Tracks(events, rs)
      requires forall k :: k in keys <==> exists i :: 0 <= i < |rs| && KeyOf(rs[i]) == k
      modifies `cacheInvokersMap, set e | e in events
      ensures Tracks(events, rs)
      ensures View() == Pruned(old(View()), keys)
      ensures forall x :: x in oldInvokers <==> x in Unlisted(old(cacheInvokersMap), keys)
    {
      hide KeyOf, Tracks;
      oldInvokers := [];
      var todo := cacheInvokersMap.Keys;
      ghost var cache, gone := cacheInvokersMap, {};
      while todo != {}
        invariant Tracks(events, rs) && todo <= cache.Keys
        invariant cacheInvokersMap == map k | k in cache && (k in todo || k in keys) :: cache[k]
        invariant gone == set k | k in cache && k !in todo && k !in keys :: cache[k]
        invariant forall x :: x in oldInvokers <==> x in gone
      {
        var k :| k in todo;
        var matched := EventMatched(k, events, rs);
        if !matched {
          assert k !in keys;
          var invoker := UncacheInvokerWithKey(k);
          oldInvokers := oldInvokers + [invoker.value];
          gone := gone + {cache[k]};
        } else {
          assert k in keys;
        }
        todo := todo - {k};
      }
    }

    method EventsToAdd(events: seq<ServiceEvent>, ghost keyed: seq<Event>)
      returns (addEvents: seq<ServiceEvent>, ghost adds: seq<Event>)
      requires |events| == |keyed| && KeyedUpTo(events, keyed, 0)
      modifies set e | e in events
      ensures InStates(events, keyed) && InStates(addEvents, adds)
      ensures (forall e :: e in addEvents ==> e in events) && forall i :: 0 <= i < |adds| ==> Keyed(adds[i]) == adds[i]
      ensures adds == ToAdd(cacheInvokersMap, keyed)
    {
      hide Keyed, KeyOf, KeyedUpTo, ToAdd, InStates;
      addEvents, adds := [], [];
      ghost var picked: seq<nat> := [];
      ToAddNone(cacheInvokersMap, keyed);
      for n := 0 to |events|
        invariant KeyedUpTo(events, keyed, n)
        invariant |picked| == |addEvents| == |adds| && Picks(events, keyed, n, picked, addEvents, adds)
        invariant adds == ToAdd(cacheInvokersMap, keyed[..n])
      {
        ghost var before := States(events);
        KeyedBefore(events, keyed, n);
        var key := events[n].Key();
        KeyTaken(events, before, keyed, n);
        ToAddStep(cacheInvokersMap, keyed, n);
        if key !in cacheInvokersMap {
          addEvents, adds, picked := addEvents + [events[n]], adds + [keyed[n]], picked + [n];
        }
      }
      PickedAreKeyed(events, keyed, picked, addEvents, adds);
      assert keyed[..|events|] == keyed;
    }

    method AddInvokers(addEvents: seq<ServiceEvent>, ghost adds: seq<Event>) returns (oldInvokers: seq<Invoker>)
      requires InStates(addEvents, adds) && forall i :: 0 <= i < |adds| ==> Keyed(adds[i]) == adds[i]
      modifies this, set e | e in addEvents
      ensures Shown() == old(Shown()) && forall e :: e in addEvents ==> e.State() == old(e.State())
      ensures View() == AddAll(old(View()), adds, dial).0
      ensures forall x :: x in oldInvokers <==> x in AddAll(old(View()), adds, dial).1
    {
      oldInvokers := [];
      for n := 0 to |addEvents|
        invariant InStates(addEvents, adds) && Shown() == old(Shown())
        invariant View() == AddAll(old(View()), adds[..n], dial).0
        invariant forall x :: x in oldInvokers <==> x in AddAll(old(View()), adds[..n], dial).1
      {
        assert adds[..n + 1][..n] == adds[..n] && adds[n] == addEvents[n].State();
        var oldInvoker := DoCacheInvoker(addEvents[n].service, addEvents[n]);
        if oldInvoker.Some? {
          oldInvokers := oldInvokers + [oldInvoker.value];
        }
      }
      assert adds[..|addEvents|] == adds;
    }

    /** The part of NotifyAll that runs under the register lock. */
    method UpdateCache(events: seq<ServiceEvent>, ghost rs: seq<Event>, ghost prepared: seq<Event>)
      returns (oldInvokers: seq<Invoker>)
      requires Tracks(events, rs) && |prepared| == |rs| && forall i :: 0 <= i < |rs| ==> prepared[i] == Keyed(rs[i])
      modifies this, set e | e in events
      ensures InStates(events, prepared) && Shown() == old(Shown())
      ensures var d1 := Pruned(old(View()), Keys(prepared));
              var (d2, displaced) := AddAll(d1, ToAdd(d1.cache, prepared), dial);
              View() == d2 && forall x :: x in oldInvokers <==>
                x in Unlisted(old(cacheInvokersMap), Keys(prepared)) + displaced
    {
      hide Keyed, KeyOf, AddAll, ToAdd, Pruned, Unlisted, Tracks, KeyedUpTo, Keys;
      KeysAre(rs, prepared);
      var gone := PruneCache(events, rs, Keys(prepared));
      TrackedAreReady(events, rs, prepared);
      var addEvents, adds := EventsToAdd(events, prepared);
      var displaced := AddInvokers(addEvents, adds);
      oldInvokers := gone + displaced;
    }

    /** The rest of NotifyAll, after the events have been prepared: the displaced invokers are handed to
        goroutines after the new list is published. */
    method ReplaceCache(events: seq<ServiceEvent>, ghost d: Dir, ghost es: seq<Listed>)
      requires Inv(d, {}) && Accepted(d, es) && View() == Overridden(d) && LogAgrees()
      requires MergedBy(View(), events, es, |events|)
      modifies this, set e | e in events
      ensures Valid() && (View(), States(events)) == OnSnapshot(d, es, dial)
      ensures log == old(log) + [Publish(cacheInvokers)]
    {
      hide CacheKey, AddAll, ToAdd, Pruned, Unlisted, Resolved, OnSnapshot, Accepted, MergedTimes, ApplyAll, Held;
      hide Inv, SafeLog, Showing, DestroyedIn, IsPublication, Injective, Tracks, MergedBy, Overridden, Keys, InStates;
      ghost var rs, prepared := States(events), PreparedAll(View(), es);
      MergedIsTracked(View(), events, es);
      var oldInvokers := UpdateCache(events, rs, prepared);
      ghost var d2, retired := View(), set x | x in oldInvokers;
      SnapshotIs(d, es, dial, d2, retired);
      SetNewInvokers();
      scheduled := scheduled + retired;
      StatesAre(events, prepared);
    }

    /** NotifyAll. */
    method RefreshAllInvokers(events: seq<ServiceEvent>) returns (panicked: bool)
      requires Valid()
      modifies this, set e | e in events
      ensures Valid()
      ensures panicked <==> !Accepted(old(View()), old(Listing(events)))
      ensures panicked ==> cacheInvokersMap == old(cacheInvokersMap) && Shown() == old(Shown())
      ensures !panicked ==> (View(), States(events)) == OnSnapshot(old(View()), old(Listing(events)), dial)
      ensures !panicked ==> log == old(log) + [Publish(cacheInvokers)]
    {
      hide ApplyAll, OnSnapshot, Accepted, MergedBy, Inv, SafeLog, Showing, DestroyedIn, IsPublication, Held;
      ghost var d, es := View(), Listing(events);
      OverrideDirectoryUrl();
      AcceptedAlike(d, View(), es);
      panicked := PrepareEvents(events);
      if panicked {
        SameAccount(d, View());
        return;
      }
      ReplaceCache(events, d, es);
    }
  }

  lemma StatesAre(events: seq<ServiceEvent>, es: seq<Event>)
    requires InStates(events, es)
    ensures States(events) == es
  {
  }

  function Destructions(displaced: Option<Invoker>): seq<Act> {
    if displaced.Some? then [Destroys(displaced.value)] else []
  }

  lemma OnlyHeldArePublished(
    list: seq<Entry>, cache: map<string, Invoker>, routersRegistered: bool, gone: set<Invoker>)
    requires IsPublication(list, Held(cache), routersRegistered) && Held(cache) !! gone
    ensures forall i :: i in Flatten(list) ==> i !in gone
  {
    forall i | i in Flatten(list) ensures i !in gone {
      assert i in multiset(Flatten(list));
    }
  }

  /** The invoker an event displaces is no longer cached, and was not destroyed before. */
  lemma DisplacedIsNotHeld(d: Dir, e: Event, dial: Dial)
    requires Inv(d, {})
    ensures var (d', _, old') := CacheByEvent(d, e, dial);
            Inv(d', AsSet(old')) && OnNotify(d, e, dial) ==
              (DirectorySpec.Destroy(d', AsSet(old')), CacheByEvent(d, e, dial).1)
  {
    match e.action {
      case Add | Update => CacheInvokerKeepsInv(Converted(d, e.service).0, Converted(d, e.service).1, e, dial);
      case Del => UncacheKeepsInv(d, KeyOf(e));
      case Other =>
    }
  }

  lemma InvIsApart(d: Dir, limbo: set<Invoker>)
    requires Inv(d, limbo)
    ensures Injective(d.cache) && Held(d.cache) !! d.destroyed && Held(d.cache) !! limbo
  {
  }

  lemma SameAccount(d: Dir, d': Dir)
    requires Inv(d, {}) && d' == d.(directoryUrl := d'.directoryUrl, configurators := d'.configurators)
    ensures Inv(d', {})
  {
  }

  lemma ScheduledIsNotHeld(d: Dir, i: Invoker, dial: Dial)
    requires Inv(d, {}) && i in d.scheduled
    ensures Inv(Next(d, DestroyRuns(i), dial), {}) && i !in Held(d.cache)
  {
  }

  // ---- events that have had their turn ----

  /** After `n` turns every event has been merged as often as it was listed so far. */
  ghost predicate MergedBy(d: Dir, events: seq<ServiceEvent>, es: seq<Listed>, n: nat)
    reads set e | e in events
  {
    && |es| == |events| && n <= |events| && Alike(events, es)
    && forall i :: 0 <= i < |events| ==>
      events[i].State() == MergedTimes(d, es[i].event, multiset(events[..n])[events[i]])
  }

  ghost predicate Alike(events: seq<ServiceEvent>, es: seq<Listed>) {
    && |es| == |events|
    && (forall i :: 0 <= i < |events| ==> es[i].times == multiset(events)[events[i]])
    && (forall i, j :: 0 <= i < |events| && 0 <= j < |events| && events[i] == events[j] ==> es[i] == es[j])
  }

  ghost predicate AcceptedUpTo(d: Dir, events: seq<ServiceEvent>, es: seq<Listed>, n: nat) {
    && |es| == |events| && n <= |events|
    && forall i, k :: 0 <= i < |events| && 0 <= k < multiset(events[..n])[events[i]] ==>
      Acceptable(MergedTimes(d, es[i].event, k))
  }

  lemma NoneMerged(d: Dir, events: seq<ServiceEvent>, es: seq<Listed>)
    requires es == Listing(events)
    ensures MergedBy(d, events, es, 0) && AcceptedUpTo(d, events, es, 0)
  {
    assert multiset(events[..0]) == multiset{};
  }

  lemma CountStep<T>(s: seq<T>, n: nat, x: T)
    requires n < |s|
    ensures multiset(s[..n + 1])[x] == multiset(s[..n])[x] + if s[n] == x then 1 else 0
  {
    assert s[..n + 1] == s[..n] + [s[n]];
  }

  lemma CountLess<T>(s: seq<T>, n: nat)
    requires n < |s|
    ensures multiset(s[..n])[s[n]] < multiset(s)[s[n]]
  {
    assert s == s[..n] + ([s[n]] + s[n + 1..]);
  }

  lemma TurnComes(d: Dir, events: seq<ServiceEvent>, es: seq<Listed>, n: nat) returns (c: nat)
    requires n < |events| && MergedBy(d, events, es, n)
    ensures c == multiset(events[..n])[events[n]] < es[n].times && events[n].State() == MergedTimes(d, es[n].event, c)
  {
    c := multiset(events[..n])[events[n]];
    CountLess(events, n);
  }

  lemma MustBeAcceptable(d: Dir, es: seq<Listed>, n: nat, c: nat)
    requires n < |es| && c < es[n].times
    ensures Acceptable(MergedTimes(d, es[n].event, c)) || !Accepted(d, es)
  {
  }

  lemma StatesAreMerged(d: Dir, events: seq<ServiceEvent>, es: seq<Listed>, n: nat)
    requires MergedBy(d, events, es, n)
    ensures Alike(events, es) && AreMerged(d, events, States(events), es, n)
  {
    hide MergedTimes;
  }

  ghost predicate AreMerged(d: Dir, events: seq<ServiceEvent>, states: seq<Event>, es: seq<Listed>, n: nat) {
    && |es| == |events| == |states| && n <= |events|
    && forall i :: 0 <= i < |events| ==> states[i] == MergedTimes(d, es[i].event, multiset(events[..n])[events[i]])
  }

  lemma TurnTaken(d: Dir, events: seq<ServiceEvent>, before: seq<Event>, es: seq<Listed>, n: nat, c: nat)
    requires n < |events| && Alike(events, es) && AreMerged(d, events, before, es, n) && AcceptedUpTo(d, events, es, n)
    requires c == multiset(events[..n])[events[n]] && Acceptable(MergedTimes(d, es[n].event, c))
    requires forall i :: 0 <= i < |events| ==>
               events[i].State() == if events[i] == events[n] then MergedOnce(d, before[n]) else before[i]
    ensures MergedBy(d, events, es, n + 1) && AcceptedUpTo(d, events, es, n + 1)
  {
    hide Acceptable, MergedOnce, MergedTimes, AcceptedUpTo;
    MergeMore(d, es[n].event, c);
    forall i | 0 <= i < |events|
      ensures events[i].State() == MergedTimes(d, es[i].event, multiset(events[..n + 1])[events[i]])
    {
      CountStep(events, n, events[i]);
    }
    OneMoreAccepted(d, events, es, n);
  }

  lemma OneMoreAccepted(d: Dir, events: seq<ServiceEvent>, es: seq<Listed>, n: nat)
    requires n < |events| && Alike(events, es) && AcceptedUpTo(d, events, es, n)
    requires Acceptable(MergedTimes(d, es[n].event, multiset(events[..n])[events[n]]))
    ensures AcceptedUpTo(d, events, es, n + 1)
  {
    hide Acceptable, MergedTimes;
    forall i, k | 0 <= i < |events| && 0 <= k < multiset(events[..n + 1])[events[i]]
      ensures Acceptable(MergedTimes(d, es[i].event, k))
    {
      CountStep(events, n, events[i]);
    }
  }

  lemma MergeMore(d: Dir, e: Event, c: nat)
    ensures MergedTimes(d, e, c + 1) == MergedOnce(d, MergedTimes(d, e, c))
  {
  }

  lemma AllTurnsTaken(d: Dir, events: seq<ServiceEvent>, es: seq<Listed>)
    requires Alike(events, es) && AcceptedUpTo(d, events, es, |events|)
    ensures Accepted(d, es)
  {
    hide Acceptable, MergedTimes;
    assert events[..|events|] == events;
  }

  /** Merged events are ready to be keyed. */
  lemma MergedIsTracked(d: Dir, events: seq<ServiceEvent>, es: seq<Listed>)
    requires MergedBy(d, events, es, |events|)
    ensures var rs, prepared := States(events), PreparedAll(d, es);
            && Tracks(events, rs) && |prepared| == |rs|
            && forall i :: 0 <= i < |rs| ==> prepared[i] == Keyed(rs[i])
  {
    hide Keyed, MergedOnce;
    assert events[..|events|] == events;
    forall i | 0 <= i < |events| ensures events[i].State().updated {
      assert events[i] in multiset(events);
      MergedIsUpdated(d, es[i].event, multiset(events)[events[i]]);
    }
  }

  lemma MergedIsUpdated(d: Dir, e: Event, k: nat)
    requires k > 0
    ensures MergedTimes(d, e, k).updated
  {
  }

  // ---- events that have been asked for their key ----

  /** The first `n` events have their keys, and all will be in the states `keyed` with them. */
  ghost predicate KeyedUpTo(events: seq<ServiceEvent>, keyed: seq<Event>, n: nat)
    reads set e | e in events
  {
    && |events| == |keyed| && n <= |events|
    && (forall i :: 0 <= i < n ==> events[i].State() == keyed[i])
    && (forall i :: 0 <= i < |events| ==> Keyed(events[i].State()) == keyed[i] == Keyed(keyed[i]))
  }

  lemma KeysAre(rs: seq<Event>, prepared: seq<Event>)
    requires |prepared| == |rs| && forall i :: 0 <= i < |rs| ==> prepared[i] == Keyed(rs[i])
    ensures forall k :: k in Keys(prepared) <==> exists i :: 0 <= i < |rs| && KeyOf(rs[i]) == k
  {
    hide KeyOf;
    forall i | 0 <= i < |rs| ensures prepared[i].key == KeyOf(rs[i]) {
    }
  }

  lemma TrackedAreReady(events: seq<ServiceEvent>, rs: seq<Event>, prepared: seq<Event>)
    requires Tracks(events, rs) && |prepared| == |rs| && forall i :: 0 <= i < |rs| ==> prepared[i] == Keyed(rs[i])
    ensures |events| == |prepared| && KeyedUpTo(events, prepared, 0)
  {
    hide CacheKey;
    forall i | 0 <= i < |rs| ensures Keyed(events[i].State()) == prepared[i] && Keyed(prepared[i]) == prepared[i] {
      KeyedTwice(rs[i]);
    }
    ReadyToKey(events, prepared);
  }

  lemma ReadyToKey(events: seq<ServiceEvent>, keyed: seq<Event>)
    requires |events| == |keyed|
    requires forall i :: 0 <= i < |events| ==> Keyed(events[i].State()) == keyed[i] && Keyed(keyed[i]) == keyed[i]
    ensures KeyedUpTo(events, keyed, 0)
  {
    hide Keyed;
  }

  lemma KeyedBefore(events: seq<ServiceEvent>, keyed: seq<Event>, n: nat)
    requires n < |events| && KeyedUpTo(events, keyed, n)
    ensures Keyed(events[n].State()) == keyed[n] && KeyOf(events[n].State()) == keyed[n].key
    ensures AreKeyed(States(events), keyed, n) && SameForSame(events, keyed)
  {
  }

  ghost predicate AreKeyed(states: seq<Event>, keyed: seq<Event>, n: nat) {
    && |states| == |keyed| && n <= |states|
    && (forall i :: 0 <= i < n ==> states[i] == keyed[i])
    && (forall i :: 0 <= i < |states| ==> Keyed(states[i]) == keyed[i] == Keyed(keyed[i]))
  }

  ghost predicate SameForSame(events: seq<ServiceEvent>, keyed: seq<Event>) {
    |events| == |keyed| && forall i, j :: 0 <= i < |events| && 0 <= j < |events| && events[i] == events[j] ==>
      keyed[i] == keyed[j]
  }

  lemma KeyTaken(events: seq<ServiceEvent>, before: seq<Event>, keyed: seq<Event>, n: nat)
    requires n < |events| && |before| == |events| && AreKeyed(before, keyed, n) && SameForSame(events, keyed)
    requires forall i :: 0 <= i < |events| ==>
               events[i].State() == if events[i] == events[n] then keyed[n] else before[i]
    ensures KeyedUpTo(events, keyed, n + 1)
  {
    hide Keyed;
  }

  /** The events picked so far, by position. */
  ghost predicate Picks(
    events: seq<ServiceEvent>, keyed: seq<Event>, n: nat,
    picked: seq<nat>, addEvents: seq<ServiceEvent>, adds: seq<Event>)
  {
    && |events| == |keyed| && n <= |events| && |picked| == |addEvents| == |adds|
    && forall i :: 0 <= i < |picked| ==>
      picked[i] < n && addEvents[i] == events[picked[i]] && adds[i] == keyed[picked[i]]
  }

  lemma PickedAreKeyed(
    events: seq<ServiceEvent>, keyed: seq<Event>, picked: seq<nat>, addEvents: seq<ServiceEvent>, adds: seq<Event>)
    requires KeyedUpTo(events, keyed, |events|) && Picks(events, keyed, |events|, picked, addEvents, adds)
    ensures InStates(events, keyed) && InStates(addEvents, adds)
    ensures (forall e :: e in addEvents ==> e in events) && forall i :: 0 <= i < |adds| ==> Keyed(adds[i]) == adds[i]
  {
    hide Keyed;
  }

  lemma ToAddNone(cache: map<string, Invoker>, keyed: seq<Event>)
    ensures ToAdd(cache, keyed[..0]) == []
  {
  }

  lemma ToAddStep(cache: map<string, Invoker>, keyed: seq<Event>, n: nat)
    requires n < |keyed|
    ensures ToAdd(cache, keyed[..n + 1]) == ToAdd(cache, keyed[..n]) + if keyed[n].key in cache then [] else [keyed[n]]
  {
    assert keyed[..n + 1][..n] == keyed[..n];
  }

  lemma SnapshotIs(d: Dir, es: seq<Listed>, dial: Dial, d2: Dir, retired: set<Invoker>)
    requires Accepted(d, es) && Inv(d, {})
    requires var d0 := Overridden(d);
             var prepared := PreparedAll(d0, es);
             var d1 := Pruned(d0, Keys(prepared));
             var added := AddAll(d1, ToAdd(d1.cache, prepared), dial);
             d2 == added.0 && forall x :: x in retired <==> x in Unlisted(d0.cache, Keys(prepared)) + added.1
    ensures OnSnapshot(d, es, dial) == (Schedule(d2, retired), PreparedAll(Overridden(d), es))
    ensures Inv(Schedule(d2, retired), {}) && Injective(d2.cache) && Held(d2.cache) !! d2.destroyed
  {
    var d0 := Overridden(d);
    var prepared := PreparedAll(d0, es);
    var d1 := Pruned(d0, Keys(prepared));
    assert retired == Unlisted(d0.cache, Keys(prepared)) + AddAll(d1, ToAdd(d1.cache, prepared), dial).1;
    SnapshotKeepsInv(d, es, dial);
  }

  ghost predicate InStates(events: seq<ServiceEvent>, es: seq<Event>)
    reads set e | e in events
  {
    |events| == |es| && forall i :: 0 <= i < |es| ==> events[i].State() == es[i]
  }

  /** Event `i` is in state `rs[i]`, with its key perhaps filled in. */
  ghost predicate Tracks(events: seq<ServiceEvent>, rs: seq<Event>)
    reads set e | e in events
  {
    && |events| == |rs|
    && (forall i :: 0 <= i < |events| ==>
      rs[i].updated && (events[i].State() == rs[i] || events[i].State() == Keyed(rs[i])))
    && (forall i, j :: 0 <= i < |events| && 0 <= j < |events| && events[i] == events[j] ==> rs[i] == rs[j])
  }
}
