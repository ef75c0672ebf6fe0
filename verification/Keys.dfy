/** common/url.go and config_center/parser: the service key and how the parser splits it again. */
module Keys {
  import opened Strings
  import opened Wrappers

  /** An absent part is written and read as nothing. */
  function Optional(s: string): Option<string> {
    if s == "" then None else Some(s)
  }

  /** The version as the key shows it: 0.0.0 is written like no version. */
  function ShownVersion(version: string): Option<string> {
    if version == "0.0.0" then None else Optional(version)
  }

  function Tail(intf: string, version: Option<string>): string {
    intf + if version.Some? then ":" + version.value else ""
  }

  function ServiceKey(intf: string, group: string, version: string): string {
    if intf == "" then ""
    else if group == "" then Tail(intf, ShownVersion(version))
    else group + ("/" + Tail(intf, ShownVersion(version)))
  }

  datatype Parts = Parts(intf: string, group: Option<string>, version: Option<string>)

  /** The first slash, unless it leads, ends the group. */
  function CutGroup(key: string): (Option<string>, string) {
    var i := Index(key, '/');
    if i > 0 then (Some(key[..i]), key[i + 1..]) else (None, key)
  }

  /** The first colon, unless it leads, starts the version. */
  function CutVersion(rest: string): (string, Option<string>) {
    var j := Index(rest, ':');
    if j > 0 then (rest[..j], Some(rest[j + 1..])) else (rest, None)
  }

  function SplitKey(key: string): Parts {
    var (group, rest) := CutGroup(key);
    var (intf, version) := CutVersion(rest);
    Parts(intf, group, version)
  }

  function Field(prefix: string, value: Option<string>): string {
    if value.Some? then prefix + value.value + "&" else ""
  }

  /** getServiceString writes the parts as a query string; an empty service is an error. */
  method GetServiceString(service: string) returns (ok: bool, s: string)
    ensures ok <==> service != ""
    ensures ok ==> var p := SplitKey(service);
              s == p.intf + "?" + (Field("group=", p.group) + Field("version=", p.version))
  {
    if |service| == 0 {
      return false, "";
    }
    var serviceStr, rest := "", service;
    var i := Index(rest, '/');
    if i > 0 {
      serviceStr := "group=" + rest[..i] + "&";
      rest := rest[i + 1..];
    }
    ghost var p := SplitKey(service);
    ghost var groupField := Field("group=", p.group);
    assert serviceStr == groupField && CutGroup(service).1 == rest;
    hide Field, CutGroup, SplitKey;
    var j := Index(rest, ':');
    if j > 0 {
      serviceStr := serviceStr + ("version=" + rest[j + 1..] + "&");
      rest := rest[..j];
    }
    ok, s := true, rest + "?" + serviceStr;
  }

  /** The interface can be told from the version: no colon in it, except that a leading one does
      no harm without a version. */
  predicate PlainInterface(intf: string, version: Option<string>) {
    ':' !in intf || (intf[0] == ':' && version == None)
  }

  /** What a caller can check before building a key: the group has no slash, without a group
      nothing after the first character is a slash, and the interface is plain. */
  predicate Splittable(intf: string, group: string, version: string) {
    && '/' !in group
    && (group == "" ==> Index(Tail(intf, ShownVersion(version)), '/') <= 0)
    && PlainInterface(intf, ShownVersion(version))
  }

  lemma VersionCut(intf: string, version: Option<string>)
    requires intf != "" && version != Some("")
    ensures CutVersion(Tail(intf, version)) == (intf, version) <==> PlainInterface(intf, version)
  {
    var rest := Tail(intf, version);
    if ':' !in intf {
      if version.Some? {
        assert rest[|intf|] == ':' && rest[..|intf|] == intf;
        IndexIs(rest, ':', |intf|);
        assert rest[|intf| + 1..] == version.value;
      } else {
        assert rest == intf;
      }
    } else {
      var k := Index(intf, ':');
      assert rest[k] == ':' && rest[..k] == intf[..k];
      IndexIs(rest, ':', k);
      assert |intf[..k]| < |intf|;
      assert version == None ==> rest == intf;
    }
  }

  lemma GroupCut(group: string, rest: string)
    requires group != ""
    ensures if '/' !in group then CutGroup(group + ("/" + rest)) == (Some(group), rest)
            else CutGroup(group + ("/" + rest)).0 != Some(group)
  {
    var key := group + ("/" + rest);
    var k := if '/' in group then Index(group, '/') else |group|;
    assert key[k] == '/' && key[..k] == group[..k];
    IndexIs(key, '/', k);
    assert key[|group| + 1..] == rest;
    assert |key[..k]| == k;
  }

  /** Splitting a service key gives back interface, group and version exactly for the splittable
      triples; 0.0.0 comes back as no version. */
  lemma SplitUndoesServiceKey(intf: string, group: string, version: string)
    requires intf != ""
    ensures SplitKey(ServiceKey(intf, group, version)) == Parts(intf, Optional(group), ShownVersion(version)) <==>
            Splittable(intf, group, version)
  {
    var shown := ShownVersion(version);
    VersionCut(intf, shown);
    hide CutVersion, Tail, PlainInterface;
    if group != "" {
      GroupCut(group, Tail(intf, shown));
      hide CutGroup;
    }
  }

  /** On the splittable triples the key is injective up to writing 0.0.0 for no version. */
  lemma ServiceKeyIsInjective(i: string, g: string, v: string, i': string, g': string, v': string)
    requires i != "" && i' != "" && Splittable(i, g, v) && Splittable(i', g', v')
    requires ServiceKey(i, g, v) == ServiceKey(i', g', v')
    ensures i == i' && g == g' && ShownVersion(v) == ShownVersion(v')
  {
    hide Splittable, SplitKey, ServiceKey;
    SplitUndoesServiceKey(i, g, v);
    SplitUndoesServiceKey(i', g', v');
  }

  /** Without the conditions different services may share a key. */
  lemma ServiceKeysCollide(g: string, i: string)
    requires g != "" && i != ""
    ensures ServiceKey(g + ("/" + i), "", "") == ServiceKey(i, g, "")
  {
    assert Tail(i, None) == i && Tail(g + ("/" + i), None) == g + ("/" + i);
  }
}
