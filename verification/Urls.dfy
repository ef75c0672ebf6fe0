/** common/url.go: the URL value, its parameter table, keys, merging and comparison. */
module Urls {
  import opened Strings
  import opened Wrappers

  const GROUP := "group"
  const VERSION := "version"
  const INTERFACE := "interface"
  const TIMEOUT := "timeout"
  const TIMESTAMP := "timestamp"
  const REMOTE_TIMESTAMP := "remote.timestamp"
  const LOADBALANCE := "loadbalance"
  const CLUSTER := "cluster"
  const RETRIES := "retries"
  const NORMAL_KEYS: seq<string> := [LOADBALANCE, CLUSTER, RETRIES, TIMEOUT]

  /** One entry of url.Values: parsing, Set and Add never build an empty list. */
  type Values = s: seq<string> | |s| > 0 witness [""]

  type Params = map<string, Values>

  /** Everything a URL holds besides its parameters. `primitiveTimestamp` is the timestamp
      parameter read back from PrimitiveURL, the text the URL was parsed from. */
  datatype Base = Base(
    protocol: string, username: string, password: string,
    location: string, ip: string, port: string, path: string,
    methods: seq<string>, primitiveTimestamp: string, sub: Option<Url>)

  datatype Url = Url(base: Base, params: Params)

  function Get(p: Params, key: string): string {
    if key in p then p[key][0] else ""
  }

  function GetParam(u: Url, key: string, default: string): string {
    var v := Get(u.params, key);
    if v == "" then default else v
  }

  // ---- keys ----

  function Service(u: Url): string {
    var service := GetParam(u, INTERFACE, TrimPrefix(u.base.path, "/"));
    if service != "" then service
    else if u.base.sub.Some? then GetParam(u.base.sub.value, INTERFACE, TrimPrefix(u.base.path, "/"))
    else ""
  }

  function AddressPart(b: Base): string {
    b.protocol + ("://" + (b.username + (":" + (b.password + ("@" + (b.ip + (":" + (b.port + "/?interface="))))))))
  }

  function ServicePart(service: string, group: string, version: string, rest: string): string {
    service + ("&group=" + (group + ("&version=" + (version + rest))))
  }

  function Key(u: Url): string {
    AddressPart(u.base) + ServicePart(Service(u), Get(u.params, GROUP), Get(u.params, VERSION), "")
  }

  /** GetCacheInvokerMapKey. */
  function CacheKey(u: Url): string {
    AddressPart(u.base) +
    ServicePart(Service(u), Get(u.params, GROUP), Get(u.params, VERSION), "&timestamp=" + u.base.primitiveTimestamp)
  }

  lemma CutAtMark(a: string, x: string, b: string, y: string, mark: string)
    requires |mark| > 0 && mark[0] !in a && mark[0] !in b
    requires a + (mark + x) == b + (mark + y)
    ensures a == b && x == y
  {
    var c := mark[0];
    assert a + (mark + x) == a + [c] + (mark[1..] + x);
    assert b + (mark + y) == b + [c] + (mark[1..] + y);
    CutIsUnique(a, mark[1..] + x, b, mark[1..] + y, c);
    assert x == (mark[1..] + x)[|mark| - 1..] && y == (mark[1..] + y)[|mark| - 1..];
  }

  /** For parts without '&' the service part of a key can be read in one way only. */
  lemma ServicePartIsUnique(s: string, g: string, v: string, s': string, g': string, v': string, rest: string)
    requires '&' !in s && '&' !in g && '&' !in s' && '&' !in g'
    requires ServicePart(s, g, v, rest) == ServicePart(s', g', v', rest)
    ensures s == s' && g == g' && v == v'
  {
    CutAtMark(s, g + ("&version=" + (v + rest)), s', g' + ("&version=" + (v' + rest)), "&group=");
    CutAtMark(g, v + rest, g', v' + rest, "&version=");
    assert |v| == |v'|;
    assert v == (v + rest)[..|v|] && v' == (v' + rest)[..|v|];
  }

  predicate AmpersandFree(u: Url) {
    '&' !in Service(u) && '&' !in Get(u.params, GROUP) && '&' !in Get(u.params, VERSION)
  }

  /** For URLs on one address and with no '&' in the parts, equal cache keys mean equal service,
      group and version, and the other way round. */
  lemma CacheKeyDecidesParts(u: Url, v: Url)
    requires u.base == v.base && AmpersandFree(u) && AmpersandFree(v)
    ensures CacheKey(u) == CacheKey(v) <==>
            Service(u) == Service(v) && Get(u.params, GROUP) == Get(v.params, GROUP) &&
              Get(u.params, VERSION) == Get(v.params, VERSION)
  {
    if CacheKey(u) == CacheKey(v) {
      var n, rest := |AddressPart(u.base)|, "&timestamp=" + u.base.primitiveTimestamp;
      assert CacheKey(u)[n..] == CacheKey(v)[n..];
      ServicePartIsUnique(Service(u), Get(u.params, GROUP), Get(u.params, VERSION),
                          Service(v), Get(v.params, GROUP), Get(v.params, VERSION), rest);
    }
  }

  /** The address written before the rest of a key. */
  function AddressThen(b: Base, rest: string): string {
    b.protocol + ("://" + (b.username + (":" +
      (b.password + ("@" + (b.ip + (":" + (b.port + ("/?interface=" + rest)))))))))
  }

  lemma KeysStartWithAddress(u: Url)
    ensures var part, ts := ServicePart(Service(u), Get(u.params, GROUP), Get(u.params, VERSION), ""),
              u.base.primitiveTimestamp;
            && Key(u) == AddressThen(u.base, part)
            && CacheKey(u) == AddressThen(u.base,
              ServicePart(Service(u), Get(u.params, GROUP), Get(u.params, VERSION), "&timestamp=" + ts))
  {
    hide ServicePart, Service;
    AddressFirst(u.base, ServicePart(Service(u), Get(u.params, GROUP), Get(u.params, VERSION), ""));
    AddressFirst(u.base, ServicePart(Service(u), Get(u.params, GROUP), Get(u.params, VERSION), "&timestamp=" +
      u.base.primitiveTimestamp));
  }

  lemma AddressFirst(b: Base, rest: string)
    ensures AddressPart(b) + rest == AddressThen(b, rest)
  {
    var p8 := b.port + "/?interface=";
    var p7 := b.ip + (":" + p8);
    var p6 := b.password + ("@" + p7);
    var p5 := b.username + (":" + p6);
    assert p8 + rest == b.port + ("/?interface=" + rest);
    assert p7 + rest == b.ip + (":" + (p8 + rest));
    assert p6 + rest == b.password + ("@" + (p7 + rest));
    assert p5 + rest == b.username + (":" + (p6 + rest));
    assert AddressPart(b) + rest == b.protocol + ("://" + (p5 + rest));
  }

  /** No address field contains the separator that follows it in a key. */
  predicate PlainAddress(b: Base) {
    ':' !in b.protocol && ':' !in b.username && '@' !in b.password && ':' !in b.ip && '/' !in b.port
  }

  predicate SameAddress(b: Base, c: Base) {
    b.protocol == c.protocol && b.username == c.username && b.password == c.password && b.ip == c.ip && b.port == c.port
  }

  lemma AddressIsUnique(b: Base, c: Base, rest: string, rest': string)
    requires PlainAddress(b) && PlainAddress(c) && AddressThen(b, rest) == AddressThen(c, rest')
    ensures SameAddress(b, c) && rest == rest'
  {
    var x8, y8 := "/?interface=" + rest, "/?interface=" + rest';
    var x7, y7 := b.port + x8, c.port + y8;
    var x6, y6 := b.ip + (":" + x7), c.ip + (":" + y7);
    var x5, y5 := b.password + ("@" + x6), c.password + ("@" + y6);
    var x4, y4 := b.username + (":" + x5), c.username + (":" + y5);
    CutAtMark(b.protocol, x4, c.protocol, y4, "://");
    CutAtMark(b.username, x5, c.username, y5, ":");
    CutAtMark(b.password, x6, c.password, y6, "@");
    CutAtMark(b.ip, x7, c.ip, y7, ":");
    CutAtMark(b.port, rest, c.port, rest', "/?interface=");
  }

  predicate SameParts(u: Url, v: Url) {
    && Service(u) == Service(v)
    && Get(u.params, GROUP) == Get(v.params, GROUP) && Get(u.params, VERSION) == Get(v.params, VERSION)
  }

  /** Two cache keys are equal exactly if all that is written into them is: the address with its
      credentials, the service, group and version, and the primitive timestamp. */
  lemma CacheKeysAreEqual(u: Url, v: Url)
    requires PlainAddress(u.base) && PlainAddress(v.base) && AmpersandFree(u) && AmpersandFree(v)
    ensures CacheKey(u) == CacheKey(v) <==>
            SameAddress(u.base, v.base) && SameParts(u, v) && u.base.primitiveTimestamp == v.base.primitiveTimestamp
  {
    hide CacheKey, Service, PlainAddress;
    KeysStartWithAddress(u);
    KeysStartWithAddress(v);
    if CacheKey(u) == CacheKey(v) {
      var g, h, ts, ts' := Get(u.params, GROUP), Get(v.params, GROUP), "&timestamp=" +
        u.base.primitiveTimestamp, "&timestamp=" + v.base.primitiveTimestamp;
      var w, x := Get(u.params, VERSION), Get(v.params, VERSION);
      AddressIsUnique(u.base, v.base, ServicePart(Service(u), g, w, ts), ServicePart(Service(v), h, x, ts'));
      CutAtMark(Service(u), g + ("&version=" + (w + ts)), Service(v), h + ("&version=" + (x + ts')), "&group=");
      CutAtMark(g, w + ts, h, x + ts', "&version=");
      CutAtMark(w, u.base.primitiveTimestamp, x, v.base.primitiveTimestamp, "&timestamp=");
    }
  }

  /** The same for the key of a registered URL, which has no timestamp. */
  lemma KeysAreEqual(u: Url, v: Url)
    requires PlainAddress(u.base) && PlainAddress(v.base) && AmpersandFree(u) && AmpersandFree(v)
    ensures Key(u) == Key(v) <==> SameAddress(u.base, v.base) && SameParts(u, v)
  {
    hide Key, Service, PlainAddress;
    KeysStartWithAddress(u);
    KeysStartWithAddress(v);
    if Key(u) == Key(v) {
      var g, h, w, x := Get(u.params, GROUP), Get(v.params, GROUP), Get(u.params, VERSION), Get(v.params, VERSION);
      AddressIsUnique(u.base, v.base, ServicePart(Service(u), g, w, ""), ServicePart(Service(v), h, x, ""));
      ServicePartIsUnique(Service(u), g, w, Service(v), h, x, "");
    }
  }

  /** The service is the interface parameter; without one the path without its leading slash; and
      without a path the interface of the registry's sub-URL. */
  lemma ServiceIs(u: Url)
    ensures Get(u.params, INTERFACE) != "" ==> Service(u) == Get(u.params, INTERFACE)
    ensures Get(u.params, INTERFACE) == "" && u.base.path !in {"", "/"} ==>
              Service(u) == if u.base.path[0] == '/' then u.base.path[1..] else u.base.path
    ensures Get(u.params, INTERFACE) == "" && u.base.path in {"", "/"} ==>
              Service(u) == if u.base.sub.Some? then Get(u.base.sub.value.params, INTERFACE) else ""
  {
    var path := u.base.path;
    if path != "" {
      assert ("/" <= path) <==> path[0] == '/';
      assert path[0] == '/' && path[1..] == "" ==> path == "/";
    }
  }

  // ---- merging: the stages of MergeURL ----

  /** Clone keeps the first value of each parameter. */
  function FirstValues(p: Params): Params {
    map k | k in p :: [p[k][0]]
  }

  /** Takes from `reference` every parameter that reads as empty in `p`. */
  function Fill(p: Params, reference: Params): Params {
    p + map k | k in reference && Get(p, k) == "" :: reference[k]
  }

  function PreferOne(p: Params, reference: Params, key: string): Params {
    if Get(reference, key) != "" then p[key := [Get(reference, key)]] else p
  }

  /** Lets non-empty reference values win for the listed keys. */
  function Prefer(p: Params, reference: Params, keys: seq<string>): Params {
    if keys == [] then p
    else PreferOne(Prefer(p, reference, keys[..|keys| - 1]), reference, keys[|keys| - 1])
  }

  function Stamp(p: Params, service: Params, reference: Params): Params {
    if Get(service, TIMESTAMP) == "" then p
    else p[REMOTE_TIMESTAMP := [Get(service, TIMESTAMP)]][TIMESTAMP := [Get(reference, TIMESTAMP)]]
  }

  function MethodKey(m: string, key: string): string {
    "methods." + m + "." + key
  }

  function MethodTimeoutKeys(methods: seq<string>): (r: seq<string>)
    ensures |r| == |methods| && forall i :: 0 <= i < |r| ==> r[i] == MethodKey(methods[i], TIMEOUT)
  {
    seq(|methods|, i requires 0 <= i < |methods| => MethodKey(methods[i], TIMEOUT))
  }

  function MergedParams(service: Params, reference: Url): Params {
    var r := reference.params;
    var p := Prefer(Fill(FirstValues(service), r), r, NORMAL_KEYS);
    Prefer(Stamp(p, service, r), r, MethodTimeoutKeys(reference.base.methods))
  }

  function Merged(service: Url, reference: Url): Url {
    Url(service.base, MergedParams(service.params, reference))
  }

  // ---- merging: what each parameter reads as afterwards ----

  /** The keys for which a non-empty reference value beats the provider's. */
  predicate ReferenceWins(reference: Url, key: string) {
    key in NORMAL_KEYS || key in MethodTimeoutKeys(reference.base.methods)
  }

  /** The reading of `key` after a merge, stated without the order of the stages. */
  function MergedReading(service: Url, reference: Url, key: string): string {
    var s, r := Get(service.params, key), Get(reference.params, key);
    var stamp := Get(service.params, TIMESTAMP);
    if key == REMOTE_TIMESTAMP && stamp != "" then stamp
    else if key == TIMESTAMP && stamp != "" then r
    else if ReferenceWins(reference, key) && r != "" then r
    else if s != "" then s
    else r
  }

  lemma {:induction false} PreferReading(p: Params, reference: Params, keys: seq<string>, key: string)
    ensures Get(Prefer(p, reference, keys), key) ==
            if key in keys && Get(reference, key) != "" then Get(reference, key) else Get(p, key)
  {
    if keys != [] {
      PreferReading(p, reference, keys[..|keys| - 1], key);
      assert keys == keys[..|keys| - 1] + [keys[|keys| - 1]];
    }
  }

  lemma StampKeysNeverPreferred(reference: Url)
    ensures !ReferenceWins(reference, TIMESTAMP) && !ReferenceWins(reference, REMOTE_TIMESTAMP)
    ensures TIMESTAMP != REMOTE_TIMESTAMP
  {
    assert TIMESTAMP[0] == 't' && REMOTE_TIMESTAMP[0] == 'r';
    assert |TIMESTAMP| == 9 && |TIMEOUT| == 7 && |REMOTE_TIMESTAMP| == 16 && |LOADBALANCE| == 11 && |CLUSTER| == 7 &&
             |RETRIES| == 7;
    var ks := MethodTimeoutKeys(reference.base.methods);
    assert forall i :: 0 <= i < |ks| ==> ks[i][0] == 'm';
  }

  /** Every parameter of a merged URL reads exactly as MergedReading says. */
  lemma MergeReads(service: Url, reference: Url, key: string)
    ensures Get(Merged(service, reference).params, key) == MergedReading(service, reference, key)
  {
    hide MethodTimeoutKeys;
    var s, r := service.params, reference.params;
    var p1 := Fill(FirstValues(s), r);
    var p2 := Prefer(p1, r, NORMAL_KEYS);
    var p3 := Stamp(p2, s, r);
    assert Get(p1, key) == if Get(s, key) != "" then Get(s, key) else Get(r, key);
    StampKeysNeverPreferred(reference);
    PreferReading(p1, r, NORMAL_KEYS, key);
    PreferReading(p3, r, MethodTimeoutKeys(reference.base.methods), key);
  }

  /** Merging a second time with the same reference changes nothing that can be read, except
      remote.timestamp, which then holds the reference's own timestamp whenever there is one. */
  lemma MergeAgain(service: Url, reference: Url, key: string)
    ensures var once := Merged(service, reference);
            var twice := Merged(once, reference);
            && once.base == twice.base
            && (key != REMOTE_TIMESTAMP ==> Get(twice.params, key) == Get(once.params, key))
            && Get(twice.params, REMOTE_TIMESTAMP) ==
               (if Get(reference.params, TIMESTAMP) != "" then Get(reference.params, TIMESTAMP)
                else Get(once.params, REMOTE_TIMESTAMP))
  {
    var once := Merged(service, reference);
    StampKeysNeverPreferred(reference);
    MergeReads(service, reference, key);
    MergeReads(once, reference, key);
    MergeReads(service, reference, TIMESTAMP);
    MergeReads(service, reference, REMOTE_TIMESTAMP);
    MergeReads(once, reference, REMOTE_TIMESTAMP);
  }

  /** The closures of mergeNormalParam share one loop variable, so at method level only the
      timeout of the reference wins: its load-balance setting for a method loses to the provider's. */
  lemma MethodLevelLoadbalanceIsIgnored(method': string, service: Url, reference: Url)
    requires method' in reference.base.methods
    requires Get(service.params, MethodKey(method', LOADBALANCE)) != ""
    ensures Get(Merged(service, reference).params, MethodKey(method', LOADBALANCE)) ==
            Get(service.params, MethodKey(method', LOADBALANCE))
    ensures Get(Merged(service, reference).params, MethodKey(method', TIMEOUT)) ==
            if Get(reference.params, MethodKey(method', TIMEOUT)) != ""
            then Get(reference.params, MethodKey(method', TIMEOUT))
            else Get(service.params, MethodKey(method', TIMEOUT))
  {
    var lb, to := MethodKey(method', LOADBALANCE), MethodKey(method', TIMEOUT);
    MergeReads(service, reference, lb);
    MergeReads(service, reference, to);
    assert lb[0] == to[0] == 'm';
    assert |REMOTE_TIMESTAMP| == 16 && REMOTE_TIMESTAMP[0] == 'r' && TIMESTAMP[0] == 't';
    var ks := MethodTimeoutKeys(reference.base.methods);
    assert lb[|lb| - 1] == 'e';
    assert forall i :: 0 <= i < |ks| ==> ks[i][|ks[i]| - 1] == 't';
    assert forall i :: 0 <= i < |NORMAL_KEYS| ==> NORMAL_KEYS[i][0] != 'm';
    var m :| 0 <= m < |reference.base.methods| && reference.base.methods[m] == method';
    assert ks[m] == to;
  }
}
