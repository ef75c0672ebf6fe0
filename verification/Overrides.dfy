/** config_center/configurator/override.go: override rules and what they do to a URL. */
module Overrides {
  import opened Strings
  import opened Wrappers
  import opened Urls
  import opened UrlObjects

  const CATEGORY := "category"
  const CHECK := "check"
  const ENABLED := "enabled"
  const APPLICATION := "application"
  const SIDE := "side"
  const CONFIG_VERSION := "configVersion"
  const COMPATIBLE_CONFIG := "compatible_config"
  const OVERRIDE_PROVIDERS := "providerAddresses"
  const ANY := "*"
  const ANYHOST := "0.0.0.0"
  const CONDITION_KEYS: set<string> :=
    {CATEGORY, CHECK, ENABLED, GROUP, VERSION, APPLICATION, SIDE, CONFIG_VERSION, COMPATIBLE_CONFIG}

  // ---- when a rule applies ----

  /** Conditions a rule states as parameters: its `~` keys, its application and its side. */
  predicate Tested(key: string) {
    HasPrefix(key, "~") || key == APPLICATION || key == SIDE
  }

  predicate ConditionHolds(rule: Url, u: Url, key: string) {
    var v := Get(rule.params, key);
    v == "" || v == ANY || v == Get(u.params, TrimPrefix(key, "~"))
  }

  predicate ApplicationMatches(rule: Url, u: Url) {
    var wanted := Urls.GetParam(rule, APPLICATION, rule.base.username);
    wanted == "" || wanted == ANY || wanted == Urls.GetParam(u, APPLICATION, u.base.username)
  }

  predicate ConditionsHold(rule: Url, u: Url) {
    ApplicationMatches(rule, u) && forall k :: k in rule.params && Tested(k) ==> ConditionHolds(rule, u, k)
  }

  predicate HostMatches(rule: Url, u: Url, host: string) {
    var providers := Get(rule.params, OVERRIDE_PROVIDERS);
    && (rule.base.ip == ANYHOST || host == rule.base.ip)
    && (providers == "" || Contains(providers, u.base.location) || Contains(providers, ANYHOST))
  }

  /** The host a rule is compared with, or None when it does not concern this URL. */
  function HostFor(rule: Url, u: Url, localIp: string): Option<string> {
    var side := Get(u.params, SIDE);
    if Get(rule.params, CONFIG_VERSION) != "" then
      if side == Get(rule.params, SIDE) && side == "consumer" && rule.base.port == "0" then Some(localIp)
      else if side == Get(rule.params, SIDE) && side == "provider" && rule.base.port == u.base.port then Some(u.base.ip)
      else None
    else if rule.base.port != "0" then
      if u.base.port == rule.base.port then Some(u.base.ip) else None
    else if side == "consumer" then Some(localIp)
    else Some(ANYHOST)
  }

  predicate Matches(rule: Url, u: Url, localIp: string) {
    && Urls.GetParam(rule, ENABLED, "true") != "false" && rule.base.location != ""
    && var host := HostFor(rule, u, localIp);
    host.Some? && HostMatches(rule, u, host.value) && ConditionsHold(rule, u)
  }

  // ---- what a rule does ----

  predicate IsConditionKey(key: string) {
    key in CONDITION_KEYS || HasPrefix(key, "~")
  }

  /** The settings a rule carries: its parameters without the conditions. */
  function Payload(rule: Url): Params {
    map k | k in rule.params && !IsConditionKey(k) :: [rule.params[k][0]]
  }

  function Configured(rule: Url, u: Url, localIp: string): Url {
    if Matches(rule, u, localIp) then Url(u.base, u.params + Payload(rule)) else u
  }

  /** doOverrideUrl: the rules one after another. */
  function ApplyAll(rules: seq<Url>, u: Url, localIp: string): Url {
    if rules == [] then u
    else Configured(rules[|rules| - 1], ApplyAll(rules[..|rules| - 1], u, localIp), localIp)
  }

  class OverrideConfigurator {
    const configuratorUrl: Url
    const localIp: string

    constructor (rule: Url, localIp: string)
      ensures configuratorUrl == rule && this.localIp == localIp
    {
      configuratorUrl, this.localIp := rule, localIp;
    }

    method Configure(url: URL)
      modifies url
      ensures url.Value() == Configured(configuratorUrl, old(url.Value()), localIp)
    {
      var c := configuratorUrl;
      if Urls.GetParam(c, ENABLED, "true") == "false" || c.base.location == "" {
        return;
      }
      if Get(c.params, CONFIG_VERSION) != "" {
        var currentSide, configuratorSide := url.GetParam(SIDE, ""), Get(c.params, SIDE);
        if currentSide == configuratorSide && currentSide == "consumer" && c.base.port == "0" {
          ConfigureIfMatch(localIp, url);
        } else if currentSide == configuratorSide && currentSide == "provider" && c.base.port == url.base.port {
          ConfigureIfMatch(url.base.ip, url);
        }
      } else {
        ConfigureDeprecated(url);
      }
    }

    method ConfigureDeprecated(url: URL)
      requires Urls.GetParam(configuratorUrl, ENABLED, "true") != "false" && configuratorUrl.base.location != ""
      requires Get(configuratorUrl.params, CONFIG_VERSION) == ""
      modifies url
      ensures url.Value() == Configured(configuratorUrl, old(url.Value()), localIp)
    {
      if configuratorUrl.base.port != "0" {
        if url.base.port == configuratorUrl.base.port {
          ConfigureIfMatch(url.base.ip, url);
        }
      } else if url.GetParam(SIDE, "") == "consumer" {
        ConfigureIfMatch(localIp, url);
      } else {
        ConfigureIfMatch(ANYHOST, url);
      }
    }

    method ConfigureIfMatch(host: string, url: URL)
      modifies url
      ensures url.params ==
              if HostMatches(configuratorUrl, old(url.Value()), host) &&
                ConditionsHold(configuratorUrl, old(url.Value()))
              then old(url.params) + Payload(configuratorUrl) else old(url.params)
    {
      if ANYHOST == configuratorUrl.base.ip || host == configuratorUrl.base.ip {
        var providers := Get(configuratorUrl.params, OVERRIDE_PROVIDERS);
        if providers == "" || Contains(providers, url.base.location) || Contains(providers, ANYHOST) {
          ConfigureIfMatchInternal(url);
        }
      }
    }

    method ConfigureIfMatchInternal(url: URL)
      modifies url
      ensures url.params ==
              if ConditionsHold(configuratorUrl, old(url.Value()))
              then old(url.params) + Payload(configuratorUrl) else old(url.params)
    {
      var c := configuratorUrl;
      var configApp := Urls.GetParam(c, APPLICATION, c.base.username);
      var currentApp := url.GetParam(APPLICATION, url.base.username);
      if configApp == "" || configApp == ANY || configApp == currentApp {
        var conditionKeys, todo := CONDITION_KEYS, c.params.Keys;
        while todo != {}
          invariant todo <= c.params.Keys && url.Value() == old(url.Value())
          invariant conditionKeys == CONDITION_KEYS + (set k | k in c.params.Keys - todo && HasPrefix(k, "~"))
          invariant forall k :: k in c.params.Keys - todo && Tested(k) ==> ConditionHolds(c, url.Value(), k)
        {
          var k :| k in todo;
          var value := Get(c.params, k);
          if HasPrefix(k, "~") || k == APPLICATION || k == SIDE {
            conditionKeys := conditionKeys + {k};
            if value != "" && value != ANY && value != url.GetParam(TrimPrefix(k, "~"), "") {
              assert !ConditionHolds(c, url.Value(), k);
              return;
            }
          }
          todo := todo - {k};
        }
        var mine := new URL(c);
        var configUrl := mine.CloneExceptParams(conditionKeys);
        assert configUrl.params == Payload(c);
        url.SetParams(configUrl.params);
        assert FirstValues(Payload(c)) == Payload(c);
      }
    }
  }

  method DoOverrideUrl(configurators: seq<Url>, localIp: string, target: URL)
    modifies target
    ensures target.Value() == ApplyAll(configurators, old(target.Value()), localIp)
  {
    for i := 0 to |configurators|
      invariant target.Value() == ApplyAll(configurators[..i], old(target.Value()), localIp)
    {
      var v := new OverrideConfigurator(configurators[i], localIp);
      v.Configure(target);
      assert configurators[..i + 1][..i] == configurators[..i];
    }
    assert configurators[..|configurators|] == configurators;
  }

  // ---- laws ----

  lemma {:induction false} ApplyInTurn(a: seq<Url>, b: seq<Url>, u: Url, localIp: string)
    ensures ApplyAll(a + b, u, localIp) == ApplyAll(b, ApplyAll(a, u, localIp), localIp)
  {
    if b == [] {
      assert a + b == a;
    } else {
      var n := |b| - 1;
      ApplyInTurn(a, b[..n], u, localIp);
      assert (a + b)[..|a + b| - 1] == a + b[..n];
    }
  }

  /** Applying one rule twice is applying it once, also when it undoes its own `~` conditions. */
  lemma ConfigureIsIdempotent(rule: Url, u: Url, localIp: string)
    ensures Configured(rule, Configured(rule, u, localIp), localIp) == Configured(rule, u, localIp)
  {
    var p := Payload(rule);
    assert u.params + p + p == u.params + p;
  }

  /** Address fields and condition keys of the target never change. */
  lemma {:induction false} RulesKeepAddressAndConditions(rules: seq<Url>, u: Url, localIp: string, key: string)
    requires IsConditionKey(key)
    ensures var v := ApplyAll(rules, u, localIp);
            && v.base == u.base
            && (key in v.params <==> key in u.params)
            && (key in u.params ==> v.params[key] == u.params[key])
  {
    if rules != [] {
      RulesKeepAddressAndConditions(rules[..|rules| - 1], u, localIp, key);
    }
  }

  predicate ReallyTests(rule: Url, key: string) {
    key in rule.params && HasPrefix(key, "~") && Get(rule.params, key) !in {"", ANY}
  }

  /** A `~` condition of one rule that really tests something is not a setting of another. */
  ghost predicate Undisturbed(rules: seq<Url>) {
    forall i, j, k :: 0 <= i < |rules| && 0 <= j < |rules| && ReallyTests(rules[i], k) ==>
      TrimPrefix(k, "~") !in Payload(rules[j])
  }

  lemma RulesWithoutTildeAreUndisturbed(rules: seq<Url>)
    requires forall i, k :: 0 <= i < |rules| && k in rules[i].params ==> !HasPrefix(k, "~")
    ensures Undisturbed(rules)
  {
  }

  /** A rule sees a URL only through its base, its side and application and the names it tests. */
  lemma MatchesDependsOnTestedNames(rule: Url, u: Url, v: Url, localIp: string)
    requires u.base == v.base
    requires Get(u.params, SIDE) == Get(v.params, SIDE) && Get(u.params, APPLICATION) == Get(v.params, APPLICATION)
    requires forall k :: ReallyTests(rule, k) ==> Get(u.params, TrimPrefix(k, "~")) == Get(v.params, TrimPrefix(k, "~"))
    ensures Matches(rule, u, localIp) == Matches(rule, v, localIp)
  {
    assert HostFor(rule, u, localIp) == HostFor(rule, v, localIp);
    assert ApplicationMatches(rule, u) == ApplicationMatches(rule, v);
    assert TrimPrefix(SIDE, "~") == SIDE && TrimPrefix(APPLICATION, "~") == APPLICATION by {
      assert SIDE[0] == 's' && APPLICATION[0] == 'a';
    }
    forall k | k in rule.params && Tested(k)
      ensures ConditionHolds(rule, u, k) == ConditionHolds(rule, v, k)
    {
    }
  }

  /** The rules before the `n`-th do not change whether rule `i` applies. */
  lemma {:induction false} MatchesAreStable(rules: seq<Url>, u: Url, localIp: string, i: nat, n: nat)
    requires Undisturbed(rules) && i < |rules| && n <= |rules|
    ensures Matches(rules[i], ApplyAll(rules[..n], u, localIp), localIp) == Matches(rules[i], u, localIp)
  {
    var v := ApplyAll(rules[..n], u, localIp);
    RulesKeepAddressAndConditions(rules[..n], u, localIp, SIDE);
    RulesKeepAddressAndConditions(rules[..n], u, localIp, APPLICATION);
    forall k | ReallyTests(rules[i], k)
      ensures Get(u.params, TrimPrefix(k, "~")) == Get(v.params, TrimPrefix(k, "~"))
    {
      UntouchedUnlessCarried(rules, u, localIp, n, TrimPrefix(k, "~"));
    }
    MatchesDependsOnTestedNames(rules[i], u, v, localIp);
  }

  lemma {:induction false} UntouchedUnlessCarried(rules: seq<Url>, u: Url, localIp: string, n: nat, name: string)
    requires n <= |rules| && forall j :: 0 <= j < |rules| ==> name !in Payload(rules[j])
    ensures Get(ApplyAll(rules[..n], u, localIp).params, name) == Get(u.params, name)
  {
    if n > 0 {
      UntouchedUnlessCarried(rules, u, localIp, n - 1, name);
      assert rules[..n][..n - 1] == rules[..n - 1];
    }
  }

  predicate SameAt(key: string, p: Params, q: Params) {
    (key in p <==> key in q) && (key in p ==> p[key] == q[key])
  }

  predicate Carries(rule: Url, u: Url, localIp: string, key: string) {
    Matches(rule, u, localIp) && key in Payload(rule)
  }

  /** The last rule that applies to `u` and carries `key`, or -1. */
  function LastCarrier(rules: seq<Url>, u: Url, localIp: string, key: string): (c: int)
    ensures -1 <= c < |rules|
  {
    var n := |rules| - 1;
    if rules == [] then -1
    else if Carries(rules[n], u, localIp, key) then n
    else LastCarrier(rules[..n], u, localIp, key)
  }

  lemma {:induction false} LastCarrierIsLast(rules: seq<Url>, u: Url, localIp: string, key: string)
    ensures var c := LastCarrier(rules, u, localIp, key);
            && (c >= 0 ==> Carries(rules[c], u, localIp, key))
            && (forall i :: c < i < |rules| ==> !Carries(rules[i], u, localIp, key))
  {
    hide Carries;
    if rules != [] {
      LastCarrierIsLast(rules[..|rules| - 1], u, localIp, key);
    }
  }

  lemma {:induction false} LastCarrierDecides(rules: seq<Url>, u: Url, localIp: string, n: nat, key: string)
    requires Undisturbed(rules) && n <= |rules|
    ensures var v, c := ApplyAll(rules[..n], u, localIp), LastCarrier(rules[..n], u, localIp, key);
            if c >= 0 then key in Payload(rules[c]) && key in v.params && v.params[key] == Payload(rules[c])[key]
            else (key in v.params <==> key in u.params) && (key in u.params ==> v.params[key] == u.params[key])
  {
    if n > 0 {
      LastCarrierDecides(rules, u, localIp, n - 1, key);
      MatchesAreStable(rules, u, localIp, n - 1, n - 1);
      assert rules[..n][..n - 1] == rules[..n - 1];
    }
  }

  /** Each parameter ends with the value of the last rule that applies to the URL and carries it,
      and keeps its own if no rule does. */
  lemma LastMatchingRuleWins(rules: seq<Url>, u: Url, localIp: string, c: int, key: string)
    requires Undisturbed(rules) && -1 <= c < |rules|
    requires c >= 0 ==> Carries(rules[c], u, localIp, key)
    requires forall i :: c < i < |rules| ==> !Carries(rules[i], u, localIp, key)
    ensures var v := ApplyAll(rules, u, localIp);
            if c >= 0 then key in v.params && v.params[key] == Payload(rules[c])[key]
            else SameAt(key, v.params, u.params)
  {
    hide ApplyAll, Carries, Undisturbed;
    var d := LastCarrier(rules, u, localIp, key);
    LastCarrierIsLast(rules, u, localIp, key);
    assert c == d;
    assert rules[..|rules|] == rules;
    LastCarrierDecides(rules, u, localIp, |rules|, key);
    CarriesKey(rules, u, localIp, c, key);
  }

  lemma CarriesKey(rules: seq<Url>, u: Url, localIp: string, c: int, key: string)
    requires -1 <= c < |rules| && (c >= 0 ==> Carries(rules[c], u, localIp, key))
    ensures c >= 0 ==> key in Payload(rules[c])
  {
  }

  lemma {:induction false} RulesKeepBase(rules: seq<Url>, u: Url, localIp: string)
    ensures ApplyAll(rules, u, localIp).base == u.base
  {
    RulesKeepAddressAndConditions(rules, u, localIp, SIDE);
  }

  // ---- a list applied twice ----

  /** What a rule really tests is set by no rule from it on; rules before it may set it. */
  ghost predicate TestsComeLast(rules: seq<Url>) {
    forall i, j, k :: 0 <= i <= j < |rules| && ReallyTests(rules[i], k) ==> TrimPrefix(k, "~") !in Payload(rules[j])
  }

  lemma UndisturbedTestsComeLast(rules: seq<Url>)
    requires Undisturbed(rules)
    ensures TestsComeLast(rules)
  {
    hide ReallyTests, Payload, TrimPrefix;
  }

  /** The URL when rule `n` has its turn. */
  function Turn(rules: seq<Url>, u: Url, localIp: string, n: nat): Url
    requires n <= |rules|
  {
    ApplyAll(rules[..n], u, localIp)
  }

  lemma TurnStep(rules: seq<Url>, u: Url, localIp: string, n: nat)
    requires n < |rules|
    ensures Turn(rules, u, localIp, n + 1) == Configured(rules[n], Turn(rules, u, localIp, n), localIp)
  {
    hide Configured;
    assert rules[..n + 1][..n] == rules[..n];
  }

  /** Some rule before the `n`-th applied and carries `key`. */
  predicate SetBefore(rules: seq<Url>, u: Url, localIp: string, n: nat, key: string)
    requires n <= |rules|
  {
    n > 0 && (SetBefore(rules, u, localIp, n - 1, key) ||
              (Matches(rules[n - 1], Turn(rules, u, localIp, n - 1), localIp) && key in Payload(rules[n - 1])))
  }

  /** In the second pass a parameter already set again reads as in the first pass, any other as
      after all of it. */
  ghost predicate SecondPassAt(rules: seq<Url>, u: Url, localIp: string, n: nat, key: string)
    requires n <= |rules|
  {
    var once := ApplyAll(rules, u, localIp);
    SameAt(key, Turn(rules, once, localIp, n).params,
           if SetBefore(rules, u, localIp, n, key) then Turn(rules, u, localIp, n).params else once.params)
  }

  lemma {:induction false} UnsetFromHereOn(rules: seq<Url>, u: Url, localIp: string, n: nat, key: string)
    requires n <= |rules| && forall j :: n <= j < |rules| ==> key !in Payload(rules[j])
    ensures SameAt(key, Turn(rules, u, localIp, n).params, ApplyAll(rules, u, localIp).params)
    decreases |rules| - n
  {
    hide Payload, Matches;
    if n == |rules| {
      assert rules[..n] == rules;
    } else {
      hide Turn;
      TurnStep(rules, u, localIp, n);
      UnsetFromHereOn(rules, u, localIp, n + 1, key);
    }
  }

  lemma SameReading(key: string, p: Params, q: Params)
    requires SameAt(key, p, q)
    ensures Get(p, key) == Get(q, key)
  {
  }

  lemma TurnKeeps(rules: seq<Url>, u: Url, localIp: string, n: nat)
    requires n <= |rules|
    ensures var v := Turn(rules, u, localIp, n);
            v.base == u.base && Get(v.params, SIDE) == Get(u.params, SIDE) &&
              Get(v.params, APPLICATION) == Get(u.params, APPLICATION)
  {
    hide ApplyAll;
    assert IsConditionKey(SIDE) && IsConditionKey(APPLICATION);
    RulesKeepAddressAndConditions(rules[..n], u, localIp, SIDE);
    RulesKeepAddressAndConditions(rules[..n], u, localIp, APPLICATION);
  }

  /** So every rule applies in the second pass exactly if it did in the first. */
  lemma SecondPassMatches(rules: seq<Url>, u: Url, localIp: string, n: nat)
    requires TestsComeLast(rules) && n < |rules| && forall key :: SecondPassAt(rules, u, localIp, n, key)
    ensures Matches(rules[n], Turn(rules, u, localIp, n), localIp) ==
            Matches(rules[n], Turn(rules, ApplyAll(rules, u, localIp), localIp, n), localIp)
  {
    hide Matches, ApplyAll, Turn, SetBefore, Payload, ReallyTests, TrimPrefix;
    var once := ApplyAll(rules, u, localIp);
    var v, w := Turn(rules, u, localIp, n), Turn(rules, once, localIp, n);
    TurnKeeps(rules, u, localIp, n);
    TurnKeeps(rules, once, localIp, n);
    WholeTurn(rules, u, localIp);
    TurnKeeps(rules, u, localIp, |rules|);
    forall k | ReallyTests(rules[n], k) ensures Get(v.params, TrimPrefix(k, "~")) == Get(w.params, TrimPrefix(k, "~")) {
      var name := TrimPrefix(k, "~");
      UnsetFromHereOn(rules, u, localIp, n, name);
      assert SecondPassAt(rules, u, localIp, n, name);
      assert SameAt(name, v.params, w.params);
      SameReading(name, v.params, w.params);
    }
    MatchesDependsOnTestedNames(rules[n], v, w, localIp);
  }

  lemma WholeTurn(rules: seq<Url>, u: Url, localIp: string)
    ensures Turn(rules, u, localIp, |rules|) == ApplyAll(rules, u, localIp)
  {
    hide ApplyAll;
    assert rules[..|rules|] == rules;
  }

  lemma {:induction false} SecondPass(rules: seq<Url>, u: Url, localIp: string, n: nat)
    requires TestsComeLast(rules) && n <= |rules|
    ensures forall key :: SecondPassAt(rules, u, localIp, n, key)
    decreases n
  {
    hide Matches, ApplyAll, Payload, TestsComeLast;
    if n == 0 {
      NoTurnYet(rules, ApplyAll(rules, u, localIp), localIp);
    } else {
      hide Turn;
      var once := ApplyAll(rules, u, localIp);
      SecondPass(rules, u, localIp, n - 1);
      SecondPassMatches(rules, u, localIp, n - 1);
      TurnStep(rules, u, localIp, n - 1);
      TurnStep(rules, once, localIp, n - 1);
      forall key ensures SecondPassAt(rules, u, localIp, n, key) {
        assert SecondPassAt(rules, u, localIp, n - 1, key);
      }
    }
  }

  lemma NoTurnYet(rules: seq<Url>, u: Url, localIp: string)
    ensures Turn(rules, u, localIp, 0) == u
  {
  }

  /** Applying the whole list twice is applying it once, for every list in which no rule tests what
      it or a later rule sets. */
  lemma RuleListIsIdempotent(rules: seq<Url>, u: Url, localIp: string)
    requires TestsComeLast(rules)
    ensures ApplyAll(rules, ApplyAll(rules, u, localIp), localIp) == ApplyAll(rules, u, localIp)
  {
    hide Matches, ApplyAll, Payload, TestsComeLast, Turn;
    var once := ApplyAll(rules, u, localIp);
    var twice := ApplyAll(rules, once, localIp);
    WholeTurn(rules, u, localIp);
    WholeTurn(rules, once, localIp);
    SecondPass(rules, u, localIp, |rules|);
    forall key ensures SameAt(key, once.params, twice.params) {
      assert SecondPassAt(rules, u, localIp, |rules|, key);
    }
    SameEverywhere(once.params, twice.params);
    RulesKeepBase(rules, once, localIp);
  }

  lemma SameEverywhere(p: Params, q: Params)
    requires forall key :: SameAt(key, p, q)
    ensures p == q
  {
    assert forall key :: key in p ==> SameAt(key, p, q);
    assert forall key :: key in q ==> SameAt(key, p, q);
    assert p.Keys == q.Keys;
  }

  // ---- exactly when a list with one waiting rule is idempotent ----

  /** No rule of the list sets what `rule` really tests. */
  ghost predicate Steady(rule: Url, rules: seq<Url>) {
    forall r, k :: r in rules && ReallyTests(rule, k) ==> TrimPrefix(k, "~") !in Payload(r)
  }

  ghost predicate NoneSets(rules: seq<Url>, key: string) {
    forall r :: r in rules ==> key !in Payload(r)
  }

  /** `v` differs from `u` at most in what the rules set. */
  ghost predicate Reached(v: Url, u: Url, rules: seq<Url>) {
    v.base == u.base && forall key :: NoneSets(rules, key) ==> SameAt(key, v.params, u.params)
  }

  /** Everything a rule asks of a URL but its `~` conditions. */
  predicate Guards(rule: Url, u: Url, localIp: string) {
    && Urls.GetParam(rule, ENABLED, "true") != "false" && rule.base.location != ""
    && ApplicationMatches(rule, u)
    && (forall k :: k in {APPLICATION, SIDE} && k in rule.params ==> ConditionHolds(rule, u, k))
    && var host := HostFor(rule, u, localIp);
    host.Some? && HostMatches(rule, u, host.value)
  }

  ghost predicate Sees(rule: Url, p: Params) {
    forall k :: ReallyTests(rule, k) ==> Get(rule.params, k) == Get(p, TrimPrefix(k, "~"))
  }

  lemma MatchesIs(rule: Url, u: Url, localIp: string)
    ensures Matches(rule, u, localIp) <==> Guards(rule, u, localIp) && Sees(rule, u.params)
  {
    hide HostFor, HostMatches, ApplicationMatches;
    forall k | k in rule.params && HasPrefix(k, "~")
      ensures ConditionHolds(rule, u, k) <==>
              (ReallyTests(rule, k) ==> Get(rule.params, k) == Get(u.params, TrimPrefix(k, "~")))
    {
    }
  }

  lemma GuardsAreStable(rule: Url, rules: seq<Url>, u: Url, v: Url, localIp: string)
    requires Reached(v, u, rules)
    ensures Guards(rule, v, localIp) == Guards(rule, u, localIp)
  {
    assert IsConditionKey(SIDE) && IsConditionKey(APPLICATION);
    assert NoneSets(rules, SIDE) && NoneSets(rules, APPLICATION);
    assert SameAt(SIDE, v.params, u.params) && SameAt(APPLICATION, v.params, u.params);
    assert TrimPrefix(SIDE, "~") == SIDE && TrimPrefix(APPLICATION, "~") == APPLICATION by {
      assert SIDE[0] == 's' && APPLICATION[0] == 'a';
    }
  }

  lemma SteadyMatches(rule: Url, rules: seq<Url>, u: Url, v: Url, localIp: string)
    requires Steady(rule, rules) && Reached(v, u, rules)
    ensures Matches(rule, v, localIp) == Matches(rule, u, localIp)
  {
    hide Matches, Guards, ReallyTests, Payload, TrimPrefix;
    MatchesIs(rule, u, localIp);
    MatchesIs(rule, v, localIp);
    GuardsAreStable(rule, rules, u, v, localIp);
    forall k | ReallyTests(rule, k) ensures Get(v.params, TrimPrefix(k, "~")) == Get(u.params, TrimPrefix(k, "~")) {
      assert NoneSets(rules, TrimPrefix(k, "~"));
      SameReading(TrimPrefix(k, "~"), v.params, u.params);
    }
  }

  /** What the rules that apply to `u` set, taken together. */
  function Settings(rules: seq<Url>, u: Url, localIp: string): Params {
    if rules == [] then map[]
    else
      var last := rules[|rules| - 1];
      Settings(rules[..|rules| - 1], u, localIp) + if Matches(last, u, localIp) then Payload(last) else map[]
  }

  lemma ReachedFurther(v: Url, u: Url, rules: seq<Url>, rule: Url)
    requires Reached(v, u, rules) && rule in rules
    ensures Reached(Url(v.base, v.params + Payload(rule)), u, rules)
  {
    hide Payload;
    forall key | NoneSets(rules, key) ensures SameAt(key, v.params + Payload(rule), u.params) {
      assert SameAt(key, v.params, u.params);
    }
  }

  lemma {:induction false} SteadyRulesSet(part: seq<Url>, rules: seq<Url>, u: Url, v: Url, localIp: string)
    requires (forall r :: r in part ==> r in rules && Steady(r, rules)) && Reached(v, u, rules)
    ensures ApplyAll(part, v, localIp) == Url(v.base, v.params + Settings(part, u, localIp))
    ensures Reached(ApplyAll(part, v, localIp), u, rules)
    decreases part
  {
    hide Matches, Steady, Payload, Reached;
    if part == [] {
      assert v.params + map[] == v.params;
    } else {
      var front, last := part[..|part| - 1], part[|part| - 1];
      assert last in part;
      SteadyRulesSet(front, rules, u, v, localIp);
      var w := ApplyAll(front, v, localIp);
      SteadyMatches(last, rules, u, w, localIp);
      ReachedFurther(w, u, rules, last);
      var set0 := Settings(front, u, localIp);
      assert v.params + set0 + Payload(last) == v.params + (set0 + Payload(last));
      assert v.params + (set0 + map[]) == v.params + set0;
    }
  }

  /** The settings before the waiting rule, its own, and those after it. */
  datatype Around = Around(before: Params, own: Params, after: Params)

  /** What one pass makes of the parameters, if the waiting rule applies or not. */
  function Pass(p: Params, a: Around, applies: bool): Params {
    if applies then p + a.before + a.own + a.after else p + a.before + a.after
  }

  /** How `name` reads when the waiting rule has its second turn. */
  function ReadsAgain(p: Params, a: Around, name: string, applied: bool): string {
    if name in a.before then a.before[name][0]
    else if name in a.after then a.after[name][0]
    else if applied && name in a.own then a.own[name][0]
    else Get(p, name)
  }

  ghost predicate SeesAgain(rule: Url, p: Params, a: Around, applied: bool) {
    forall k :: ReallyTests(rule, k) ==> Get(rule.params, k) == ReadsAgain(p, a, TrimPrefix(k, "~"), applied)
  }

  lemma SecondLook(rule: Url, p: Params, a: Around, applied: bool)
    ensures Sees(rule, Pass(p, a, applied) + a.before) <==> SeesAgain(rule, p, a, applied)
  {
    hide ReallyTests, TrimPrefix, Pass, ReadsAgain;
    forall name ensures Get(Pass(p, a, applied) + a.before, name) == ReadsAgain(p, a, name, applied) {
      SecondReading(p, a, name, applied);
    }
  }

  lemma SecondReading(p: Params, a: Around, name: string, applied: bool)
    ensures Get(Pass(p, a, applied) + a.before, name) == ReadsAgain(p, a, name, applied)
  {
  }

  /** Lapsing shows no earlier setting that the rule had hidden. */
  predicate LapsesUnseen(a: Around) {
    forall k :: k in a.own && k in a.before && k !in a.after ==> a.own[k] == a.before[k]
  }

  /** Applying late sets nothing new. */
  predicate AddsNothing(p: Params, a: Around) {
    forall k :: k in a.own && k !in a.after ==> k in p + a.before && (p + a.before)[k] == a.own[k]
  }

  /** The guard: the waiting rule applies in both passes or in neither; or it lapses unseen; or it
      applies only in the second pass and sets nothing new. */
  predicate PassesAgree(p: Params, a: Around, first: bool, second: bool) {
    first == second || (if first then LapsesUnseen(a) else AddsNothing(p, a))
  }

  lemma PassTwice(p: Params, a: Around, first: bool, second: bool)
    ensures Pass(Pass(p, a, first), a, second) == Pass(p, a, first) <==> PassesAgree(p, a, first, second)
  {
    hide LapsesUnseen, AddsNothing, Pass;
    if first == second {
      PassAgain(p, a, first);
    } else if first {
      PassLapses(p, a);
    } else {
      PassAppliesLate(p, a);
    }
  }

  lemma PassAgain(p: Params, a: Around, applies: bool)
    ensures Pass(Pass(p, a, applies), a, applies) == Pass(p, a, applies)
  {
  }

  lemma PassLapses(p: Params, a: Around)
    ensures Pass(Pass(p, a, true), a, false) == Pass(p, a, true) <==> LapsesUnseen(a)
  {
    var once := Pass(p, a, true);
    var twice := Pass(once, a, false);
    if LapsesUnseen(a) {
      assert twice == once;
    } else {
      var k :| k in a.own && k in a.before && k !in a.after && a.own[k] != a.before[k];
      assert twice[k] == a.before[k] && once[k] == a.own[k];
    }
  }

  lemma PassAppliesLate(p: Params, a: Around)
    ensures Pass(Pass(p, a, false), a, true) == Pass(p, a, false) <==> AddsNothing(p, a)
  {
    var once := Pass(p, a, false);
    var twice := Pass(once, a, true);
    if AddsNothing(p, a) {
      assert twice == once;
    } else {
      var k :| k in a.own && k !in a.after && !(k in p + a.before && (p + a.before)[k] == a.own[k]);
      assert twice[k] == a.own[k] && (k in once ==> once[k] == (p + a.before)[k]);
    }
  }

  /** At most the waiting rule, among `before` and `after`, tests what the list sets. */
  ghost predicate OthersAreSteady(before: seq<Url>, waiter: Url, after: seq<Url>) {
    var rules := before + [waiter] + after;
    (forall r :: r in before ==> Steady(r, rules)) && forall r :: r in after ==> Steady(r, rules)
  }

  function SettingsAround(before: seq<Url>, waiter: Url, after: seq<Url>, u: Url, localIp: string): Around {
    Around(Settings(before, u, localIp), Payload(waiter), Settings(after, u, localIp))
  }

  lemma OnePass(before: seq<Url>, waiter: Url, after: seq<Url>, u: Url, v: Url, localIp: string)
    requires OthersAreSteady(before, waiter, after) && Reached(v, u, before + [waiter] + after)
    ensures var rules, a := before + [waiter] + after, SettingsAround(before, waiter, after, u, localIp);
            var applies := Guards(waiter, u, localIp) && Sees(waiter, v.params + a.before);
            && ApplyAll(rules, v, localIp) == Url(u.base, Pass(v.params, a, applies))
            && Reached(ApplyAll(rules, v, localIp), u, rules)
  {
    hide ApplyAll, Steady, Payload, Settings, Reached, Guards, Sees, Matches;
    var rules := before + [waiter] + after;
    SameBase(v, u, rules);
    SteadyRulesSet(before, rules, u, v, localIp);
    var v1 := ApplyAll(before, v, localIp);
    MatchesIs(waiter, v1, localIp);
    GuardsAreStable(waiter, rules, u, v1, localIp);
    ReachedFurther(v1, u, rules, waiter);
    var v2 := Configured(waiter, v1, localIp);
    SteadyRulesSet(after, rules, u, v2, localIp);
    ApplyInTurn(before + [waiter], after, v, localIp);
    ApplyOneMore(before, waiter, v, localIp);
  }

  lemma SameBase(v: Url, u: Url, rules: seq<Url>)
    requires Reached(v, u, rules)
    ensures v.base == u.base
  {
  }

  lemma ReachedAtFirst(u: Url, rules: seq<Url>)
    ensures Reached(u, u, rules)
  {
  }

  lemma ApplyOneMore(rules: seq<Url>, rule: Url, u: Url, localIp: string)
    ensures ApplyAll(rules + [rule], u, localIp) == Configured(rule, ApplyAll(rules, u, localIp), localIp)
  {
    hide Configured;
    assert (rules + [rule])[..|rules|] == rules;
  }

  /** In a list with one waiting rule, whatever the rules' addresses and whatever the URL, applying the
      list twice is applying it once exactly under the guard. */
  lemma OneWaitingRule(before: seq<Url>, waiter: Url, after: seq<Url>, u: Url, localIp: string)
    requires OthersAreSteady(before, waiter, after)
    ensures var rules, a := before + [waiter] + after, SettingsAround(before, waiter, after, u, localIp);
            var first := Guards(waiter, u, localIp) && Sees(waiter, u.params + a.before);
            var second := Guards(waiter, u, localIp) && SeesAgain(waiter, u.params, a, first);
            ApplyAll(rules, ApplyAll(rules, u, localIp), localIp) == ApplyAll(rules, u, localIp) <==>
            PassesAgree(u.params, a, first, second)
  {
    hide ApplyAll, OthersAreSteady, Settings, Payload, Pass, Sees, SeesAgain, PassesAgree, Guards, Reached;
    var rules, a := before + [waiter] + after, SettingsAround(before, waiter, after, u, localIp);
    var first := Guards(waiter, u, localIp) && Sees(waiter, u.params + a.before);
    var once := Pass(u.params, a, first);
    ReachedAtFirst(u, rules);
    OnePass(before, waiter, after, u, u, localIp);
    OnePass(before, waiter, after, u, Url(u.base, once), localIp);
    SecondLook(waiter, u.params, a, first);
    PassTwice(u.params, a, first, Guards(waiter, u, localIp) && SeesAgain(waiter, u.params, a, first));
  }

  // ---- which rule applies where ----

  /** A rule's application, side and `~` parameters ask nothing, anything, or what the URL has. */
  predicate Asks(rule: Url, u: Url) {
    && Get(rule.params, "application") in {"", "*", Get(u.params, "application")}
    && Get(rule.params, "side") in {"", "*", Get(u.params, "side")}
    && forall k :: k in rule.params && k != "" && k[0] == '~' ==>
      Get(rule.params, k) in {"", "*", Get(u.params, k[1..])}
  }

  predicate ForApplication(rule: Url, u: Url) {
    var app := if Get(rule.params, "application") != "" then Get(rule.params, "application") else rule.base.username;
    app in {"", "*", if Get(u.params, "application") != "" then Get(u.params, "application") else u.base.username}
  }

  /** What a rule asks apart from the address it is for: that it is enabled, allows the provider, and
      is for the application, the side and the settings the URL has. */
  predicate Concerns(rule: Url, u: Url) {
    var providers := Get(rule.params, "providerAddresses");
    && Get(rule.params, "enabled") != "false" && rule.base.location != ""
    && (providers == "" || Contains(providers, u.base.location) || Contains(providers, "0.0.0.0"))
    && ForApplication(rule, u) && Asks(rule, u)
  }

  predicate ForHost(rule: Url, ip: string) {
    rule.base.ip == "0.0.0.0" || rule.base.ip == ip
  }

  lemma AsksIs(rule: Url, u: Url)
    ensures ConditionsHold(rule, u) <==> ApplicationMatches(rule, u) && Asks(rule, u)
  {
    hide ApplicationMatches;
    assert SIDE[0] == 's' && APPLICATION[0] == 'a';
    assert TrimPrefix(SIDE, "~") == SIDE && TrimPrefix(APPLICATION, "~") == APPLICATION;
    forall k | HasPrefix(k, "~")
      ensures k != "" && k[0] == '~' && TrimPrefix(k, "~") == k[1..]
    {
    }
    forall k | k in rule.params && k != "" && k[0] == '~' ensures HasPrefix(k, "~") && Tested(k) {
    }
  }

  lemma ConcernsIs(rule: Url, u: Url)
    ensures Concerns(rule, u) <==>
            && Urls.GetParam(rule, ENABLED, "true") != "false" && rule.base.location != ""
            && (var providers := Get(rule.params, OVERRIDE_PROVIDERS);
                providers == "" || Contains(providers, u.base.location) || Contains(providers, ANYHOST))
            && ConditionsHold(rule, u)
  {
    hide Contains, Asks, ConditionsHold;
    AsksIs(rule, u);
    assert "true"[0] == 't' && "false"[0] == 'f';
  }

  /** A rule applies exactly if it concerns the URL and is for its address. With a configuration version:
      at consumers for the local host, with port 0; at providers for their host and port; elsewhere
      nowhere. Without one: with a port for the URL's host and port, else at consumers for the local host,
      else only if it is for every host. */
  lemma RuleAppliesExactly(rule: Url, u: Url, localIp: string)
    ensures var side, versioned := Get(u.params, "side"), Get(rule.params, "configVersion") != "";
            && (versioned && side == "consumer" ==>
                  (Matches(rule, u, localIp) <==>
                   Concerns(rule, u) && Get(rule.params, "side") == "consumer" && rule.base.port == "0" &&
                     ForHost(rule, localIp)))
            && (versioned && side == "provider" ==>
                  (Matches(rule, u, localIp) <==>
                   Concerns(rule, u) && Get(rule.params, "side") == "provider" && rule.base.port == u.base.port &&
                     ForHost(rule, u.base.ip)))
            && (versioned && side !in {"consumer", "provider"} ==> !Matches(rule, u, localIp))
            && (!versioned && rule.base.port != "0" ==>
                  (Matches(rule, u, localIp) <==>
                    Concerns(rule, u) && rule.base.port == u.base.port && ForHost(rule, u.base.ip)))
            && (!versioned && rule.base.port == "0" && side == "consumer" ==>
                  (Matches(rule, u, localIp) <==> Concerns(rule, u) && ForHost(rule, localIp)))
            && (!versioned && rule.base.port == "0" && side != "consumer" ==>
                  (Matches(rule, u, localIp) <==> Concerns(rule, u) && rule.base.ip == "0.0.0.0"))
  {
    hide Concerns, ConditionsHold, Contains;
    ConcernsIs(rule, u);
    assert "consumer"[0] != "provider"[0];
  }

  /** Where a rule applies every parameter of it but the conditions reads as the rule says; where it
      does not apply, and for all others, nothing changes. */
  lemma SettingsBecomeReadable(rule: Url, u: Url, localIp: string, key: string)
    ensures var names := {"category", "check", "enabled", "group", "version", "application", "side", "configVersion",
              "compatible_config"};
            Get(Configured(rule, u, localIp).params, key) ==
            if Matches(rule, u, localIp) && key in rule.params && key !in names && !(key != "" && key[0] == '~')
            then Get(rule.params, key) else Get(u.params, key)
    ensures Configured(rule, u, localIp).base == u.base
  {
    hide Matches;
    assert HasPrefix(key, "~") <==> key != "" && key[0] == '~';
  }

  // ---- a list that needs two passes ----

  /** An override rule for every host and port, in the form of dubbo 2.6, with any other address. */
  function RuleFor(b: Base, params: Params): Url {
    Url(b.(protocol := "override", location := "0.0.0.0:0", ip := ANYHOST, port := "0", username := ""), params)
  }

  /** A parameter a rule may set and that does not steer the matching of rules itself. */
  predicate PlainName(key: string) {
    !IsConditionKey(key) && key != OVERRIDE_PROVIDERS
  }

  lemma PlainRuleIsOpen(rule: Url, u: Url, localIp: string)
    requires rule == RuleFor(rule.base, rule.params)
    requires forall k :: k in rule.params ==> PlainName(k) || HasPrefix(k, "~")
    ensures Guards(rule, u, localIp)
  {
    assert ENABLED[0] == 'e' && CONFIG_VERSION[0] == 'c' && OVERRIDE_PROVIDERS[0] == 'p';
    assert APPLICATION[0] == 'a' && SIDE[0] == 's';
    assert "true"[0] == 't' && "false"[0] == 'f' && rule.base.location[0] == '0';
    assert CONFIG_VERSION !in rule.params && ENABLED !in rule.params && APPLICATION !in rule.params;
    assert SIDE !in rule.params && OVERRIDE_PROVIDERS !in rule.params;
  }

  /** The waiting rule is idle without the tested setting; a later rule makes the setting, and only the
      second pass over the list lets the first rule act. No list of this shape is idempotent, on any
      URL, with or without a side, that reads otherwise and lacks what the waiting rule sets. */
  lemma WaitingListNeedsTwoPasses(b: Base, c: Base, u: Url, name: string, value: string, other: string, localIp: string)
    requires PlainName(name) && PlainName(other) && name != other && value !in {"", ANY}
    requires Get(u.params, name) != value && other !in u.params
    ensures var rules := [RuleFor(b, map["~" + name := [value], other := [value]]), RuleFor(c, map[name := [value]])];
            ApplyAll(rules, ApplyAll(rules, u, localIp), localIp) != ApplyAll(rules, u, localIp)
  {
    var waiter, setter := RuleFor(b, map["~" + name := [value], other := [value]]), RuleFor(c, map[name := [value]]);
    TestsOnlyIts(waiter, setter, name, value, other);
    PlainRuleIsOpen(waiter, u, localIp);
    PlainRuleIsOpen(setter, u, localIp);
    hide ApplyAll, Guards, ReallyTests, Payload, PlainName;
    LaterSetterIsWaitedFor(waiter, setter, u, name, value, other, localIp);
  }

  lemma LaterSetterIsWaitedFor(
    waiter: Url, setter: Url, u: Url, name: string, value: string, other: string, localIp: string)
    requires (forall k :: ReallyTests(waiter, k) <==> k == "~" + name) && forall k :: !ReallyTests(setter, k)
    requires TrimPrefix("~" + name, "~") == name && Get(waiter.params, "~" + name) == value
    requires Guards(waiter, u, localIp) && Guards(setter, u, localIp)
    requires Payload(waiter) == map[other := [value]] && Payload(setter) == map[name := [value]] && name != other
    requires Get(u.params, name) != value && other !in u.params
    ensures var rules := [waiter, setter];
            ApplyAll(rules, ApplyAll(rules, u, localIp), localIp) != ApplyAll(rules, u, localIp)
  {
    hide ApplyAll, Matches, Guards, ReallyTests, Payload, TrimPrefix;
    var a := Around(map[], map[other := [value]], map[name := [value]]);
    MatchesIs(setter, u, localIp);
    OneSetting(setter, u, localIp);
    assert SettingsAround([], waiter, [setter], u, localIp) == a;
    assert [] + [waiter] + [setter] == [waiter, setter];
    OneWaitingRule([], waiter, [setter], u, localIp);
    assert u.params + a.before == u.params && ReallyTests(waiter, "~" + name);
    assert !Sees(waiter, u.params + a.before) && SeesAgain(waiter, u.params, a, false);
    assert other in a.own && other !in a.after;
  }

  lemma OneSetting(rule: Url, u: Url, localIp: string)
    requires Matches(rule, u, localIp)
    ensures Settings([rule], u, localIp) == Payload(rule) && Settings([], u, localIp) == map[]
  {
    hide Matches, Payload;
    assert [rule][..0] == [];
    assert map[] + Payload(rule) == Payload(rule);
  }

  lemma TestsOnlyIts(waiter: Url, setter: Url, name: string, value: string, other: string)
    requires PlainName(name) && PlainName(other) && name != other && value !in {"", ANY}
    requires waiter.params == map["~" + name := [value], other := [value]] && setter.params == map[name := [value]]
    ensures TrimPrefix("~" + name, "~") == name && HasPrefix("~" + name, "~")
    ensures forall k :: ReallyTests(waiter, k) <==> k == "~" + name
    ensures forall k :: !ReallyTests(setter, k)
    ensures Payload(waiter) == map[other := [value]] && Payload(setter) == map[name := [value]]
  {
    assert ("~" + name)[0] == '~' && ("~" + name)[1..] == name;
  }
}
