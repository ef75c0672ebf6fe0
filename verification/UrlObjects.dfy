/** common/url.go: the URL object, whose parameter table is changed in place. Ranging over a Go
    map visits the keys in any order, so every such loop here picks the next key arbitrarily. */
module UrlObjects {
  import opened Strings
  import opened Urls
  import opened Wrappers

  class URL {
    const base: Base
    var params: Params

    ghost function Value(): Url
      reads this
    {
      Url(base, params)
    }

    constructor (u: Url)
      ensures Value() == u
    {
      base, params := u.base, u.params;
    }

    function GetParam(key: string, default: string): string
      reads this
    {
      Urls.GetParam(Url(base, params), key, default)
    }

    method SetParam(key: string, value: string)
      modifies this
      ensures params == old(params)[key := [value]]
    {
      params := params[key := [value]];
    }

    /** Afterwards each listed parameter holds the first of its listed values, all others are as before. */
    method SetParams(m: Params)
      modifies this
      ensures params == old(params) + FirstValues(m)
    {
      var todo := m.Keys;
      while todo != {}
        invariant todo <= m.Keys
        invariant params == old(params) + (map k | k in m && k !in todo :: [m[k][0]])
      {
        var k :| k in todo;
        SetParam(k, m[k][0]);
        todo := todo - {k};
      }
    }

    method Clone() returns (copy: URL)
      ensures fresh(copy) && copy.Value() == Url(base, FirstValues(params))
    {
      copy := CloneExceptParams({});
    }

    method CloneExceptParams(exclude: set<string>) returns (copy: URL)
      ensures fresh(copy) && copy.base == base
      ensures copy.params == map k | k in params && k !in exclude :: [params[k][0]]
    {
      copy := new URL(Url(base, map[]));
      var todo := params.Keys;
      while todo != {}
        invariant todo <= params.Keys
        invariant copy.params == map k | k in params && k !in todo && k !in exclude :: [params[k][0]]
      {
        var k :| k in todo;
        if k !in exclude {
          copy.SetParam(k, params[k][0]);
        }
        todo := todo - {k};
      }
    }
  }

  /** Merges the reference's settings into a copy of a provider URL. The result is a function of
      the two arguments, so it does not depend on the order of either map, and neither argument changes. */
  method MergeURL(service: URL, reference: URL) returns (merged: URL)
    ensures fresh(merged) && merged.Value() == Merged(service.Value(), reference.Value())
  {
    merged := service.Clone();
    FillMissing(merged, reference);
    var lastKey, closures := MergeNormalParam(merged, reference, NORMAL_KEYS);
    StampTimestamps(merged, service, reference);
    MergeMethodParams(merged, reference, lastKey, closures);
  }

  method FillMissing(merged: URL, reference: URL)
    requires merged != reference
    modifies merged
    ensures merged.params == Fill(old(merged.params), reference.params)
  {
    var todo := reference.params.Keys;
    ghost var p, r := merged.params, reference.params;
    while todo != {}
      invariant todo <= r.Keys && merged.params.Keys <= p.Keys + r.Keys
      invariant forall k :: k in p || k in r ==>
                  if k in r && k !in todo && Get(p, k) == "" then k in merged.params && merged.params[k] == r[k]
                  else (k in merged.params <==> k in p) && (k in p ==> merged.params[k] == p[k])
    {
      var key :| key in todo;
      if merged.GetParam(key, "") == "" {
        merged.params := merged.params[key := reference.params[key]];
      }
      todo := todo - {key};
    }
    assert merged.params == Fill(p, r);
  }

  method StampTimestamps(merged: URL, service: URL, reference: URL)
    requires merged != reference && merged != service
    modifies merged
    ensures merged.params == Stamp(old(merged.params), service.params, reference.params)
  {
    var stamp := service.GetParam(TIMESTAMP, "");
    if stamp != "" {
      merged.SetParam(REMOTE_TIMESTAMP, stamp);
      merged.SetParam(TIMESTAMP, reference.GetParam(TIMESTAMP, ""));
    }
  }

  /** mergeNormalParam: settles the listed keys and returns what its closures captured, the one
      loop variable they share and how many of them there are. */
  method MergeNormalParam(merged: URL, reference: URL, paramKeys: seq<string>) returns (lastKey: string, closures: nat)
    requires merged != reference && paramKeys != []
    modifies merged
    ensures merged.params == Prefer(old(merged.params), reference.params, paramKeys)
    ensures lastKey == paramKeys[|paramKeys| - 1] && closures == |paramKeys|
  {
    lastKey, closures := "", 0;
    while closures < |paramKeys|
      invariant closures <= |paramKeys|
      invariant closures > 0 ==> lastKey == paramKeys[closures - 1]
      invariant merged.params == Prefer(old(merged.params), reference.params, paramKeys[..closures])
    {
      lastKey := paramKeys[closures];
      var v := reference.GetParam(lastKey, "");
      if v != "" {
        merged.SetParam(lastKey, v);
      }
      closures := closures + 1;
      assert paramKeys[..closures][..closures - 1] == paramKeys[..closures - 1];
    }
    assert paramKeys[..closures] == paramKeys;
  }

  /** Runs every closure for every method of the reference; each reads the shared variable `lastKey`. */
  method MergeMethodParams(merged: URL, reference: URL, lastKey: string, closures: nat)
    requires merged != reference && closures > 0 && lastKey == TIMEOUT
    modifies merged
    ensures merged.params == Prefer(old(merged.params), reference.params, MethodTimeoutKeys(reference.base.methods))
  {
    var methods := reference.base.methods;
    var keys := MethodTimeoutKeys(methods);
    for i := 0 to |methods|
      invariant merged.params == Prefer(old(merged.params), reference.params, keys[..i])
    {
      var key := MethodKey(methods[i], lastKey);
      ghost var before := merged.params;
      for f := 0 to closures
        invariant f == 0 ==> merged.params == before
        invariant f > 0 ==> merged.params == PreferOne(before, reference.params, key)
      {
        var v := reference.GetParam(key, "");
        if v != "" {
          merged.SetParam(key, v);
        }
      }
      assert keys[..i + 1][..i] == keys[..i];
    }
    assert keys[..|methods|] == keys;
  }

  // ---- comparison ----

  function HostOf(location: string): string {
    var i := Index(location, ':');
    if i < 0 then location else location[..i]
  }

  function PortOf(location: string): string {
    var i := Index(location, ':');
    if i < 0 then "0" else HostOf(location[i + 1..])
  }

  function SetUnlessEmpty(m: map<string, string>, key: string, value: string): map<string, string> {
    if value == "" then m else m[key := value]
  }

  function WithCredentials(m: map<string, string>, b: Base): map<string, string> {
    var m1 := SetUnlessEmpty(m, "protocol", b.protocol);
    var m2 := SetUnlessEmpty(m1, "username", b.username);
    SetUnlessEmpty(m2, "password", b.password)
  }

  function WithLocation(m: map<string, string>, location: string): map<string, string> {
    if location == "" then m else m["host" := HostOf(location)]["port" := PortOf(location)]
  }

  function ToMap(u: Url): map<string, string> {
    var m := map k | k in u.params :: u.params[k][0];
    SetUnlessEmpty(WithLocation(WithCredentials(m, u.base), u.base.location), "path", u.base.path)
  }

  /** The URLs are interchangeable for the directory: same address and same visible settings. */
  predicate SameUrl(left: Url, right: Url) {
    left.base.ip == right.base.ip && left.base.port == right.base.port && ToMap(left) == ToMap(right)
  }

  lemma EqualSizeSubset<T>(a: set<T>, b: set<T>)
    requires a <= b && |a| == |b|
    ensures a == b
  {
    assert b == a + (b - a);
  }

  /** What a URL shows under a name: its own field if that is set, else the parameter's first value. */
  function Shown(u: Url, name: string): Option<string> {
    var b := u.base;
    if name == "protocol" && b.protocol != "" then Some(b.protocol)
    else if name == "username" && b.username != "" then Some(b.username)
    else if name == "password" && b.password != "" then Some(b.password)
    else if name == "path" && b.path != "" then Some(b.path)
    else if name == "host" && b.location != "" then Some(Split(b.location, ':')[0])
    else if name == "port" && b.location != "" then
      Some(if |Split(b.location, ':')| > 1 then Split(b.location, ':')[1] else "0")
    else if name in u.params then Some(u.params[name][0])
    else None
  }

  lemma LocationParts(location: string)
    ensures HostOf(location) == Split(location, ':')[0]
    ensures PortOf(location) == if |Split(location, ':')| > 1 then Split(location, ':')[1] else "0"
  {
    hide Index;
    var i := Index(location, ':');
    if i >= 0 {
      var rest := location[i + 1..];
      assert Split(location, ':') == [location[..i]] + Split(rest, ':');
      assert HostOf(rest) == Split(rest, ':')[0];
    }
  }

  function Looked(m: map<string, string>, name: string): Option<string> {
    if name in m then Some(m[name]) else None
  }

  lemma CredentialsShow(m: map<string, string>, b: Base, name: string)
    ensures Looked(WithCredentials(m, b), name) ==
            if name == "protocol" && b.protocol != "" then Some(b.protocol)
            else if name == "username" && b.username != "" then Some(b.username)
            else if name == "password" && b.password != "" then Some(b.password)
            else Looked(m, name)
  {
    assert "protocol"[0] != "username"[0] && "username"[0] != "password"[0] && "protocol"[1] != "password"[1];
  }

  lemma LocationShows(m: map<string, string>, location: string, name: string)
    ensures Looked(WithLocation(m, location), name) ==
            if name == "host" && location != "" then Some(HostOf(location))
            else if name == "port" && location != "" then Some(PortOf(location))
            else Looked(m, name)
  {
    hide HostOf, PortOf;
    assert "host"[0] != "port"[0];
  }

  lemma ToMapShows(u: Url, name: string)
    ensures Looked(ToMap(u), name) == Shown(u, name)
  {
    hide Split, HostOf, PortOf, WithCredentials, WithLocation;
    var m := map k | k in u.params :: u.params[k][0];
    var m1 := WithCredentials(m, u.base);
    LocationParts(u.base.location);
    CredentialsShow(m, u.base, name);
    LocationShows(m1, u.base.location, name);
    OwnNamesDiffer();
  }

  lemma OwnNamesDiffer()
    ensures "path" !in {"protocol", "username", "password", "host", "port"}
    ensures {"protocol", "username", "password"} !! {"host", "port", "path"}
  {
    assert |"path"| == |"host"| == |"port"| == 4 && |"protocol"| == |"username"| == |"password"| == 8;
    assert "path"[1] == 'a' && "port"[1] == 'o' && "host"[0] == 'h';
  }

  /** Two URLs are the same exactly if they have one address and show the same under every name. */
  lemma SameUrlsShowTheSame(u: Url, v: Url)
    ensures SameUrl(u, v) <==>
            u.base.ip == v.base.ip && u.base.port == v.base.port && forall name :: Shown(u, name) == Shown(v, name)
  {
    hide ToMap, Shown;
    forall name ensures Looked(ToMap(u), name) == Shown(u, name) && Looked(ToMap(v), name) == Shown(v, name) {
      ToMapShows(u, name);
      ToMapShows(v, name);
    }
    if forall name :: Shown(u, name) == Shown(v, name) {
      forall name ensures Looked(ToMap(u), name) == Looked(ToMap(v), name) {
        assert Shown(u, name) == Shown(v, name);
      }
      SameLooks(ToMap(u), ToMap(v));
    } else {
      var name :| Shown(u, name) != Shown(v, name);
      assert Looked(ToMap(u), name) != Looked(ToMap(v), name);
    }
  }

  lemma SameLooks(m: map<string, string>, n: map<string, string>)
    requires forall name :: Looked(m, name) == Looked(n, name)
    ensures m == n
  {
    forall name | name in m ensures name in n && m[name] == n[name] {
      assert Looked(m, name) == Looked(n, name);
    }
    forall name | name in n ensures name in m {
      assert Looked(m, name) == Looked(n, name);
    }
  }

  /** So they agree in every parameter that no field hides. */
  lemma SameUrlsAgreeInParameters(u: Url, v: Url, name: string)
    requires SameUrl(u, v) && name !in {"protocol", "username", "password", "path", "host", "port"}
    ensures (name in u.params <==> name in v.params) && Get(u.params, name) == Get(v.params, name)
  {
    hide ToMap;
    ToMapShows(u, name);
    ToMapShows(v, name);
  }

  function Without(m: map<string, string>, excludes: seq<string>): map<string, string> {
    m - set k | k in excludes
  }

  /** The same, but for the excluded settings. */
  ghost predicate SameUrlBut(left: Url, right: Url, excludes: seq<string>) {
    && left.base.ip == right.base.ip && left.base.port == right.base.port
    && forall name :: name !in excludes ==> Shown(left, name) == Shown(right, name)
  }

  lemma WithoutShowsTheSame(u: Url, v: Url, excludes: seq<string>)
    ensures Without(ToMap(u), excludes) == Without(ToMap(v), excludes) <==>
            forall name :: name !in excludes ==> Shown(u, name) == Shown(v, name)
  {
    hide ToMap, Shown;
    var m, n := Without(ToMap(u), excludes), Without(ToMap(v), excludes);
    forall name
      ensures Looked(m, name) == (if name in excludes then None else Shown(u, name))
      ensures Looked(n, name) == (if name in excludes then None else Shown(v, name))
    {
      ToMapShows(u, name);
      ToMapShows(v, name);
    }
    if forall name :: name !in excludes ==> Shown(u, name) == Shown(v, name) {
      forall name ensures Looked(m, name) == Looked(n, name) {
        assert name !in excludes ==> Shown(u, name) == Shown(v, name);
      }
      SameLooks(m, n);
    } else {
      var name :| name !in excludes && Shown(u, name) != Shown(v, name);
      assert Looked(m, name) != Looked(n, name);
    }
  }

  /** The map of a URL, its parameters first, in any order, then the fields that are set. */
  method BuildMap(u: Url) returns (m: map<string, string>)
    ensures m == ToMap(u)
  {
    hide HostOf, PortOf;
    m := map[];
    var todo := u.params.Keys;
    while todo != {}
      invariant todo <= u.params.Keys && m == map k | k in u.params && k !in todo :: u.params[k][0]
    {
      var k :| k in todo;
      m := m[k := u.params[k][0]];
      todo := todo - {k};
    }
    assert m == map k | k in u.params :: u.params[k][0];
    m := WithCredentials(m, u.base);
    m := WithLocation(m, u.base.location);
    m := SetUnlessEmpty(m, "path", u.base.path);
  }

  method DeleteAll(m: map<string, string>, excludes: seq<string>) returns (r: map<string, string>)
    ensures r == Without(m, excludes)
  {
    r := m;
    for i := 0 to |excludes|
      invariant r == Without(m, excludes[..i])
    {
      r := r - {excludes[i]};
    }
    assert excludes[..|excludes|] == excludes;
  }

  /** Counting entries and looking each left entry up on the right is full equality of the two maps,
      after the excluded keys have been deleted from both. */
  method IsEquals(left: Url, right: Url, excludes: seq<string>) returns (same: bool)
    ensures same <==> SameUrlBut(left, right, excludes)
  {
    hide ToMap, Without, Shown;
    WithoutShowsTheSame(left, right, excludes);
    if left.base.ip != right.base.ip || left.base.port != right.base.port {
      return false;
    }
    var leftMap := BuildMap(left);
    var rightMap := BuildMap(right);
    leftMap := DeleteAll(leftMap, excludes);
    rightMap := DeleteAll(rightMap, excludes);
    if |leftMap| != |rightMap| {
      return false;
    }
    var todo := leftMap.Keys;
    while todo != {}
      invariant todo <= leftMap.Keys
      invariant forall k :: k in leftMap.Keys - todo ==> k in rightMap && leftMap[k] == rightMap[k]
    {
      var k :| k in todo;
      if k !in rightMap || leftMap[k] != rightMap[k] {
        return false;
      }
      todo := todo - {k};
    }
    EqualSizeSubset(leftMap.Keys, rightMap.Keys);
    return true;
  }

  lemma NothingExcluded(left: Url, right: Url)
    ensures SameUrlBut(left, right, []) <==> SameUrl(left, right)
  {
    hide SameUrl, Shown;
    SameUrlsShowTheSame(left, right);
  }
}
