/** registry/directory/directory.go: which keys are cached after whole runs of registry events. */
module DirectoryRuns {
  import opened Wrappers
  import opened Urls
  import opened Overrides
  import opened Events
  import opened DirectorySpec
  import opened DirectoryLaws

  /** No rule names the interface. */
  ghost predicate PlainRules(rules: seq<Url>) {
    forall r :: r in rules ==> INTERFACE !in Payload(r)
  }

  /** A provider URL with its own key, a router URL, or a rule that does not name the interface. */
  ghost predicate IsPlain(reference: Url, u: Url) {
    && (IsProvider(u) ==> BringsItsOwnKey(u, reference))
    && (IsOverride(u) ==> INTERFACE !in Payload(u))
  }

  /** The step brings new events for such URLs, or rules that do not name the interface. */
  ghost predicate IsPlainStep(reference: Url, s: Step) {
    match s
    case Notify(e) => e == FreshEvent(e.action, e.service) && IsPlain(reference, e.service)
    case NotifyAll(es) =>
      forall i :: 0 <= i < |es| ==>
        es[i].event == FreshEvent(Update, es[i].event.service) && BringsItsOwnKey(es[i].event.service, reference)
    case DestroyRuns(_) => true
    case RulesChange(c, r) => PlainRules(c) && PlainRules(r)
  }

  function ListedKeys(es: seq<Listed>): set<string> {
    set i | 0 <= i < |es| :: CacheKey(es[i].event.service)
  }

  // ---- what the events announce ----

  /** The keys announced so far, and the provider URL that came last in an event of its own. */
  datatype Seen = Seen(keys: set<string>, origin: Option<Url>)

  function Latest(origin: Option<Url>, u: Url): Option<Url> {
    if IsProvider(u) then Some(u) else origin
  }

  /** The key of a URL the directory takes; one of another protocol is passed over. */
  function Offer(reference: Url, u: Option<Url>): set<string> {
    if u.Some? && (u.value.base.protocol == reference.base.protocol || reference.base.protocol == "")
    then {CacheKey(u.value)} else {}
  }

  /** Added or listed and not deleted since; a rule or router event announces the last provider again. */
  function Announced(reference: Url, s: Seen, step: Step): Seen {
    match step
    case Notify(e) =>
      (match e.action
       case Add | Update =>
         var latest := Latest(s.origin, e.service);
         Seen(s.keys + Offer(reference, latest), latest)
       case Del => s.(keys := s.keys - {CacheKey(e.service)})
       case Other => s)
    case NotifyAll(es) => s.(keys := ListedKeys(es))
    case DestroyRuns(_) => s
    case RulesChange(_, _) => s
  }

  function AnnouncedBy(reference: Url, s: Seen, steps: seq<Step>): Seen
    decreases steps
  {
    if steps == [] then s else AnnouncedBy(reference, Announced(reference, s, steps[0]), steps[1..])
  }

  // ---- keys ----

  lemma OwnKeySurvives(d: Dir, raw: Url)
    requires PlainRules(Rules(d)) && BringsItsOwnKey(raw, d.reference)
    ensures CacheKey(Resolved(d, raw)) == CacheKey(raw) && BringsItsOwnKey(Resolved(d, raw), d.reference)
  {
    hide CacheKey, Resolved, Service;
    CacheKeySurvives(d, raw);
    ResolvedKeyParts(d, raw);
  }

  lemma {:induction false} OwnKeySurvivesMerges(d: Dir, raw: Url, k: nat)
    requires PlainRules(Rules(d)) && BringsItsOwnKey(raw, d.reference)
    ensures var m := MergedTimes(d, FreshEvent(Update, raw), k);
            m.key == "" && CacheKey(m.service) == CacheKey(raw) && BringsItsOwnKey(m.service, d.reference)
  {
    hide CacheKey, Resolved, BringsItsOwnKey;
    if k > 0 {
      OwnKeySurvivesMerges(d, raw, k - 1);
      OwnKeySurvives(d, MergedTimes(d, FreshEvent(Update, raw), k - 1).service);
    }
  }

  lemma PreparedKeysAreListed(d: Dir, es: seq<Listed>)
    requires PlainRules(Rules(d)) && IsPlainStep(d.reference, NotifyAll(es))
    ensures Keys(PreparedAll(d, es)) == ListedKeys(es)
  {
    hide CacheKey, BringsItsOwnKey, MergedTimes, PlainRules;
    var prepared := PreparedAll(d, es);
    forall i | 0 <= i < |es| ensures prepared[i].key == CacheKey(es[i].event.service) {
      OwnKeySurvivesMerges(d, es[i].event.service, es[i].times);
    }
  }

  // ---- one step ----

  ghost predicate Agrees(d: Dir, reference: Url, s: Seen) {
    && d.cache.Keys == s.keys && d.origin == s.origin && d.reference == reference && PlainRules(Rules(d))
    && (s.origin.Some? ==> BringsItsOwnKey(s.origin.value, reference))
  }

  /** The directory when an Add or Update has been converted and the URL to cache chosen. */
  function Converting(d: Dir, u: Url): Dir {
    Chosen(Overridden(Converted(d, u).0), Converted(d, u).1).0
  }

  lemma ConvertingKeepsRulesPlain(d: Dir, u: Url)
    requires PlainRules(Rules(d)) && (IsOverride(u) ==> INTERFACE !in Payload(u))
    ensures PlainRules(Rules(Converting(d, u)))
    ensures var d1 := Converting(d, u);
            && d1.cache == d.cache && d1.reference == d.reference && d1.attempts == d.attempts
            && d1.origin == Latest(d.origin, u) == Chosen(Overridden(Converted(d, u).0), Converted(d, u).1).1
  {
    hide Payload, ApplyAll;
    var c := Converted(d, u).0;
    assert forall r :: r in Rules(c) ==> r in Rules(d) || (IsOverride(u) && r == u);
    assert Rules(Converting(d, u)) == Rules(c);
  }

  /** An Add or Update caches what it offers and touches no other key. */
  lemma AddOffers(d: Dir, e: Event, dial: Dial)
    requires e == FreshEvent(e.action, e.service) && (e.action == Add || e.action == Update) && dial(d.attempts)
    ensures var d', d1 := OnNotify(d, e, dial).0, Converting(d, e.service);
            && d'.cache.Keys == d.cache.Keys +
                 (if Offer(d.reference, d1.origin) == {} then {} else {CacheKey(Resolved(d1, d1.origin.value))})
            && d'.origin == d1.origin && d'.reference == d.reference && Rules(d') == Rules(d1)
  {
    hide CacheKey, Resolved, ApplyAll, CacheOne;
    var d1 := Converting(d, e.service);
    if Offer(d.reference, d1.origin) != {} {
      var url := Resolved(d1, d1.origin.value);
      OneCached(d1, CacheKey(url), url, dial);
    }
  }

  lemma OneCached(d: Dir, key: string, url: Url, dial: Dial)
    requires dial(d.attempts)
    ensures var d' := CacheOne(d, key, url, dial).0;
            && d'.cache.Keys == d.cache.Keys + {key}
            && d'.origin == d.origin && d'.reference == d.reference && Rules(d') == Rules(d)
  {
  }

  lemma AddKeepsAgreement(d: Dir, e: Event, dial: Dial, s: Seen)
    requires Agrees(d, d.reference, s) && IsPlainStep(d.reference, Notify(e)) && dial(d.attempts)
    requires e.action == Add || e.action == Update
    ensures Agrees(OnNotify(d, e, dial).0, d.reference, Announced(d.reference, s, Notify(e)))
  {
    hide CacheKey, Resolved, BringsItsOwnKey, PlainRules, Converting, OnNotify, Rules;
    var d1 := Converting(d, e.service);
    ConvertingKeepsRulesPlain(d, e.service);
    AddOffers(d, e, dial);
    if Offer(d.reference, d1.origin) != {} {
      OwnKeySurvives(d1, d1.origin.value);
    }
  }

  lemma DelKeepsAgreement(d: Dir, e: Event, dial: Dial, s: Seen)
    requires Agrees(d, d.reference, s) && IsPlainStep(d.reference, Notify(e)) && (e.action == Del || e.action == Other)
    ensures Agrees(OnNotify(d, e, dial).0, d.reference, Announced(d.reference, s, Notify(e)))
  {
    hide CacheKey, BringsItsOwnKey, Payload;
    var d' := OnNotify(d, e, dial).0;
    assert d'.cache.Keys == if e.action == Del then d.cache.Keys - {CacheKey(e.service)} else d.cache.Keys;
    assert Rules(d') == Rules(d);
  }

  lemma SnapshotKeepsAgreement(d: Dir, es: seq<Listed>, dial: Dial, s: Seen)
    requires Agrees(d, d.reference, s) && IsPlainStep(d.reference, NotifyAll(es)) && Accepted(d, es)
    requires forall n :: dial(n)
    ensures Agrees(OnSnapshot(d, es, dial).0, d.reference, Announced(d.reference, s, NotifyAll(es)))
  {
    hide CacheKey, OnSnapshot, MergedTimes, Prepared, BringsItsOwnKey, ApplyAll;
    SnapshotKeepsRules(d, es, dial);
    SnapshotMakesCacheAgree(d, es, dial);
    SnapshotPrepares(d, es, dial);
    PreparedKeysAreListed(Overridden(d), es);
  }

  lemma QuietStepKeepsAgreement(d: Dir, step: Step, dial: Dial, s: Seen)
    requires Agrees(d, d.reference, s) && IsPlainStep(d.reference, step) && Enabled(d, step)
    requires step.DestroyRuns? || step.RulesChange?
    ensures Agrees(Next(d, step, dial), d.reference, Announced(d.reference, s, step))
  {
    hide Payload;
  }

  lemma StepKeepsAgreement(d: Dir, step: Step, dial: Dial, s: Seen)
    requires Agrees(d, d.reference, s) && IsPlainStep(d.reference, step) && Enabled(d, step) && forall n :: dial(n)
    ensures Agrees(Next(d, step, dial), d.reference, Announced(d.reference, s, step))
  {
    hide CacheKey, OnSnapshot, OnNotify, Announced, Accepted, Agrees, IsPlainStep;
    match step
    case Notify(e) =>
      if e.action == Add || e.action == Update {
        AddKeepsAgreement(d, e, dial, s);
      } else {
        DelKeepsAgreement(d, e, dial, s);
      }
    case NotifyAll(es) => SnapshotKeepsAgreement(d, es, dial, s);
    case DestroyRuns(_) => QuietStepKeepsAgreement(d, step, dial, s);
    case RulesChange(_, _) => QuietStepKeepsAgreement(d, step, dial, s);
  }

  // ---- whole runs ----

  ghost predicate IsPlainRun(d: Dir, steps: seq<Step>, dial: Dial) {
    IsRun(d, steps, dial) && (forall n :: dial(n)) && forall i :: 0 <= i < |steps| ==>
      IsPlainStep(d.reference, steps[i])
  }

  /** After any run of such steps, with every Refer successful, the cached keys are exactly the
      announced ones. */
  lemma {:induction false} CachedKeysAreTheAnnounced(d: Dir, steps: seq<Step>, dial: Dial, s: Seen)
    requires IsPlainRun(d, steps, dial) && Agrees(d, d.reference, s)
    ensures Agrees(Final(d, steps, dial), d.reference, AnnouncedBy(d.reference, s, steps))
    decreases steps
  {
    hide IsPlainStep, Announced, Next, Enabled, Agrees;
    if steps != [] {
      StepKeepsAgreement(d, steps[0], dial, s);
      AgreementKeepsReference(d, steps[0], dial, s);
      CachedKeysAreTheAnnounced(Next(d, steps[0], dial), steps[1..], dial, Announced(d.reference, s, steps[0]));
    }
  }

  lemma AgreementKeepsReference(d: Dir, step: Step, dial: Dial, s: Seen)
    requires Enabled(d, step) && Agrees(Next(d, step, dial), d.reference, Announced(d.reference, s, step))
    ensures Next(d, step, dial).reference == d.reference
  {
    hide Next;
  }

  // ---- rule events and deleted providers ----

  /** The provider keys in the registry: what rule and router events do not touch. */
  function Present(reference: Url, s: Seen, step: Step): Seen {
    if IsRuleEvent(step) then s else Announced(reference, s, step)
  }

  predicate IsRuleEvent(step: Step) {
    step.Notify? && (step.event.action == Add || step.event.action == Update) && !IsProvider(step.event.service)
  }

  /** At every moment of the run the cached keys are those of the providers present. */
  ghost predicate AlwaysAgrees(d: Dir, steps: seq<Step>, dial: Dial, s: Seen)
    requires IsRun(d, steps, dial)
    decreases steps
  {
    && d.cache.Keys == s.keys
    && (steps != [] ==> AlwaysAgrees(Next(d, steps[0], dial), steps[1..], dial, Present(d.reference, s, steps[0])))
  }

  /** At every rule or router event the provider that came last is still present. */
  predicate RulesFindTheirProvider(reference: Url, s: Seen, steps: seq<Step>)
    decreases steps
  {
    steps == [] ||
    ((IsRuleEvent(steps[0]) ==> Offer(reference, s.origin) <= s.keys) &&
     RulesFindTheirProvider(reference, Present(reference, s, steps[0]), steps[1..]))
  }

  lemma RuleEventOffers(reference: Url, s: Seen, step: Step)
    requires IsRuleEvent(step)
    ensures Announced(reference, s, step) == Seen(s.keys + Offer(reference, s.origin), s.origin)
  {
  }

  /** The cached keys are those of the providers present at every moment, if and only if at every rule
      or router event the provider that came last is still present. */
  lemma {:induction false} RulesMayCacheTheDeleted(d: Dir, steps: seq<Step>, dial: Dial, s: Seen)
    requires IsPlainRun(d, steps, dial) && Agrees(d, d.reference, s)
    ensures AlwaysAgrees(d, steps, dial, s) <==> RulesFindTheirProvider(d.reference, s, steps)
    decreases steps
  {
    hide IsPlainStep, Announced, Next, Enabled, Offer, IsRuleEvent;
    if steps != [] {
      var step := steps[0];
      var d', s' := Next(d, step, dial), Announced(d.reference, s, step);
      StepKeepsAgreement(d, step, dial, s);
      if IsRuleEvent(step) {
        RuleEventOffers(d.reference, s, step);
        if Offer(d.reference, s.origin) <= s.keys {
          assert s' == s;
          RulesMayCacheTheDeleted(d', steps[1..], dial, s');
        }
      } else {
        RulesMayCacheTheDeleted(d', steps[1..], dial, s');
      }
    }
  }

  /** Such a run: a provider is added and deleted, a rule comes, and the provider is cached again. */
  lemma DeletedProviderIsCachedAgain(d: Dir, raw: Url, rule: Url, dial: Dial)
    requires d.cache == map[] && d.origin == None && PlainRules(Rules(d)) && forall n :: dial(n)
    requires IsProvider(raw) && ProtocolAccepted(d, raw) && BringsItsOwnKey(raw, d.reference)
    requires IsOverride(rule) && INTERFACE !in Payload(rule)
    ensures var steps := [Notify(FreshEvent(Add, raw)), Notify(FreshEvent(Del, raw)), Notify(FreshEvent(Add, rule))];
            IsRun(d, steps, dial) && Final(d, steps, dial).cache.Keys == {CacheKey(raw)}
  {
    hide CacheKey, OnNotify, BringsItsOwnKey, Payload, PlainRules, IsOverride, IsRouter;
    var steps := [Notify(FreshEvent(Add, raw)), Notify(FreshEvent(Del, raw)), Notify(FreshEvent(Add, rule))];
    NotificationsRun(d, steps, dial);
    var s0 := Seen({}, None);
    var key := CacheKey(raw);
    assert !IsOverride(raw) && !IsProvider(rule);
    CachedKeysAreTheAnnounced(d, steps, dial, s0);
    assert Offer(d.reference, Some(raw)) == {key};
    assert Announced(d.reference, s0, steps[0]) == Seen({key}, Some(raw));
    assert Announced(d.reference, Seen({key}, Some(raw)), steps[1]) == Seen({}, Some(raw));
    assert Announced(d.reference, Seen({}, Some(raw)), steps[2]) == Seen({key}, Some(raw));
    ThreeAnnounced(d.reference, s0, steps);
  }

  lemma {:induction false} NotificationsRun(d: Dir, steps: seq<Step>, dial: Dial)
    requires forall i :: 0 <= i < |steps| ==> steps[i].Notify?
    ensures IsRun(d, steps, dial)
    decreases steps
  {
    hide OnNotify;
    if steps != [] {
      NotificationsRun(Next(d, steps[0], dial), steps[1..], dial);
    }
  }

  lemma ThreeAnnounced(reference: Url, s: Seen, steps: seq<Step>)
    requires |steps| == 3
    ensures AnnouncedBy(reference, s, steps) ==
            Announced(reference, Announced(reference, Announced(reference, s, steps[0]), steps[1]), steps[2])
  {
    hide Announced;
    assert steps[1..][0] == steps[1] && steps[1..][1..] == [steps[2]] && [steps[2]][1..] == [];
    var s2 := Announced(reference, Announced(reference, s, steps[0]), steps[1]);
    assert AnnouncedBy(reference, s2, [steps[2]]) == Announced(reference, s2, steps[2]);
  }
}
