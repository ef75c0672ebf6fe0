/** config_center/zookeeper: configuration keys as node paths (impl.go) and back (listener.go), and
    who hears of a change. */
module ZkConfig {
  import opened Strings
  import opened Wrappers

  const DEFAULT_GROUP := "dubbo"
  const CONFIGURATOR := ".configurators"
  const TAG_ROUTER := ".tag-router"
  const CONDITION_ROUTER := ".condition-router"
  const MESH := ".MESHAPPRULE"

  function RootPath(namespace: string): string {
    "/" + namespace + "/config"
  }

  function BuildPath(root: string, group: string): string {
    root + "/" + GroupOrDefault(group)
  }

  function GroupOrDefault(group: string): string {
    if group == "" then DEFAULT_GROUP else group
  }

  function GetPath(root: string, key: string, group: string): string {
    if key == "" then BuildPath(root, group) else BuildPath(root, group) + "/" + key
  }

  /** The key of a governance rule. */
  predicate Governed(key: string) {
    HasSuffix(key, CONFIGURATOR) || HasSuffix(key, TAG_ROUTER) || HasSuffix(key, CONDITION_ROUTER) ||
      HasSuffix(key, MESH)
  }

  function Ungrouped(key: string): string {
    if Governed(key) then key[Index(key, '.') + 1..] else key
  }

  function PathToKey(root: string, path: string): string {
    Ungrouped(ReplaceAll(ReplaceAll(path, root + "/", ""), "/", "."))
  }

  /** A configuration lies under its namespace, the word config, its group and its key. */
  lemma PathIs(namespace: string, key: string, group: string)
    ensures GetPath(RootPath(namespace), key, group) ==
            "/" + namespace + "/config/" + (if group == "" then "dubbo" else group) +
              (if key == "" then "" else "/" + key)
  {
    var g := if group == "" then "dubbo" else group;
    assert GetPath(RootPath(namespace), "", group) == "/" + namespace + "/config/" + g + "";
    assert GetPath(RootPath(namespace), key, group)[..|RootPath(namespace)|] == RootPath(namespace);
    assert ("/" + namespace + "/config/") + g == RootPath(namespace) + "/" + g;
  }

  // ---- replacing ----

  lemma {:induction false} NothingReplaced(s: string, old': string, new': string)
    requires old' != "" && forall i :: 0 <= i <= |s| ==> !(old' <= s[i..])
    ensures ReplaceAll(s, old', new') == s
    decreases s
  {
    if |s| >= |old'| {
      assert s[0..] == s;
      assert forall i :: 0 <= i <= |s| - 1 ==> s[1..][i..] == s[i + 1..];
      NothingReplaced(s[1..], old', new');
    }
  }

  lemma {:induction false} DotsForSlashes(s: string)
    ensures var r := ReplaceAll(s, "/", ".");
            |r| == |s| && forall i :: 0 <= i < |s| ==> r[i] == if s[i] == '/' then '.' else s[i]
    decreases s
  {
    if s != "" {
      DotsForSlashes(s[1..]);
      assert ("/" <= s) <==> s[0] == '/';
    }
  }

  lemma NoSlashLeft(root: string, path: string)
    ensures '/' !in PathToKey(root, path)
  {
    DotsForSlashes(ReplaceAll(path, root + "/", ""));
  }

  // ---- from a path back to the key ----

  /** A text with at most one slash holds no root path. */
  lemma RootRemoved(namespace: string, rest: string, at: nat)
    requires forall i :: 0 <= i < |rest| && rest[i] == '/' ==> i == at
    ensures ReplaceAll(RootPath(namespace) + "/" + rest, RootPath(namespace) + "/", "") == rest
  {
    var root := RootPath(namespace) + "/";
    assert root[0] == '/' && root[|root| - 1] == '/' && |root| > 1;
    forall i | 0 <= i <= |rest| ensures !(root <= rest[i..]) {
      assert |root| <= |rest| - i ==> rest[i..][0] == rest[i] && rest[i..][|root| - 1] == rest[i + |root| - 1];
    }
    NothingReplaced(rest, root, "");
    assert root <= root + rest && (root + rest)[|root|..] == rest;
  }

  lemma GroupedKey(namespace: string, key: string, group: string)
    requires '/' !in key && '/' !in group && key != ""
    ensures PathToKey(RootPath(namespace), GetPath(RootPath(namespace), key, group)) ==
              Ungrouped(GroupOrDefault(group) + "." + key)
  {
    hide ReplaceAll, Ungrouped;
    var g := GroupOrDefault(group);
    var rest := g + "/" + key;
    assert GetPath(RootPath(namespace), key, group) == RootPath(namespace) + "/" + rest;
    RootRemoved(namespace, rest, |g|);
    DotsForSlashes(rest);
    assert ReplaceAll(rest, "/", ".") == g + "." + key;
  }

  /** A suffix whose only dot is its first character never reaches into the group. */
  lemma SuffixOfGrouped(group: string, key: string, suffix: string)
    requires suffix != "" && '.' !in suffix[1..]
    ensures HasSuffix(group + "." + key, suffix) <==> HasSuffix("." + key, suffix)
  {
    var whole := group + "." + key;
    assert whole == group + ("." + key);
    if |suffix| <= |key| + 1 {
      assert whole[|whole| - |suffix|..] == ("." + key)[|key| + 1 - |suffix|..];
    } else {
      var k := |suffix| - |key| - 1;
      assert suffix[k] == suffix[1..][k - 1] != '.';
      assert |suffix| <= |whole| ==> whole[|whole| - |suffix|..][k] == whole[|group|] == '.';
    }
  }

  lemma GovernedGrouped(group: string, key: string)
    ensures Governed(group + "." + key) <==> Governed("." + key)
  {
    hide HasSuffix;
    SuffixOfGrouped(group, key, CONFIGURATOR);
    SuffixOfGrouped(group, key, TAG_ROUTER);
    SuffixOfGrouped(group, key, CONDITION_ROUTER);
    SuffixOfGrouped(group, key, MESH);
  }

  /** Dropping the text up to the first dot gives back the key exactly if the group has no dot. */
  lemma UngroupedIsKey(group: string, key: string)
    ensures Ungrouped(group + "." + key) == key <==> Governed("." + key) && '.' !in group
  {
    hide Governed;
    GovernedGrouped(group, key);
    var whole := group + "." + key;
    if Governed(whole) {
      if '.' !in group {
        assert whole[..|group|] == group;
        IndexIs(whole, '.', |group|);
        assert whole[|group| + 1..] == key;
      } else {
        var i := Index(group, '.');
        assert whole[..i] == group[..i];
        IndexIs(whole, '.', i);
        assert |whole[i + 1..]| > |key|;
      }
    } else {
      assert |whole| > |key|;
    }
  }

  lemma BareGroupIsNoKey(namespace: string, group: string)
    requires '/' !in group
    ensures PathToKey(RootPath(namespace), GetPath(RootPath(namespace), "", group)) != ""
  {
    hide ReplaceAll;
    var g := GroupOrDefault(group);
    RootRemoved(namespace, g, 0);
    DotsForSlashes(g);
    assert ReplaceAll(g, "/", ".") == g;
    if Governed(g) {
      assert g[|g| - 1] != '.';
    }
  }

  lemma NoRuleNamedEmpty()
    ensures !Governed(".")
  {
  }

  /** The path of a key in a group without slashes leads back to the key if and only if the key has
      no slash, is a governance rule's, and the group has no dot. */
  lemma PathLeadsBack(namespace: string, key: string, group: string)
    requires '/' !in group
    ensures PathToKey(RootPath(namespace), GetPath(RootPath(namespace), key, group)) == key <==>
            '/' !in key && Governed("." + key) && '.' !in GroupOrDefault(group)
  {
    hide PathToKey, GetPath, Ungrouped, Governed, GroupOrDefault;
    if '/' in key {
      NoSlashLeft(RootPath(namespace), GetPath(RootPath(namespace), key, group));
    } else if key == "" {
      BareGroupIsNoKey(namespace, group);
      NoRuleNamedEmpty();
      assert "." + key == ".";
    } else {
      GroupedKey(namespace, key, group);
      UngroupedIsKey(GroupOrDefault(group), key);
    }
  }

  // ---- reading ----

  /** The position of the last `c` in `s`, or -1. */
  function LastIndex(s: string, c: char): (i: int)
    ensures -1 <= i < |s|
    ensures i >= 0 ==> s[i] == c && c !in s[i + 1..]
    ensures i < 0 <==> c !in s
  {
    if s == "" then -1
    else if s[|s| - 1] == c then |s| - 1
    else
      assert s == s[..|s| - 1] + [s[|s| - 1]];
      var i := LastIndex(s[..|s| - 1], c);
      assert i >= 0 ==> s[i + 1..] == s[..|s| - 1][i + 1..] + [s[|s| - 1]];
      i
  }

  /** The path GetProperties reads; without a group it panics on a key without a dot. */
  function PropertiesPath(root: string, key: string, group: string): Option<string> {
    if group != "" then Some(root + "/" + (group + "/" + key))
    else
      var i := LastIndex(key, '.');
      if i < 0 then None else Some(root + "/" + (key[..i] + "/" + key[i + 1..]))
  }

  /** With a group the path read is the path published to. */
  lemma ReadsWhatIsPublished(root: string, key: string, group: string)
    requires group != "" && key != ""
    ensures PropertiesPath(root, key, group) == Some(GetPath(root, key, group))
  {
    assert root + "/" + (group + "/" + key) == root + "/" + group + "/" + key;
  }

  /** Without a group a change of the node read for a rule is announced under the rule's key without
      its first component, so never under the key itself. */
  lemma RuleIsAnnouncedUnderAnotherKey(namespace: string, key: string)
    requires '/' !in key && Governed(key)
    ensures PropertiesPath(RootPath(namespace), key, "").Some?
    ensures var path := PropertiesPath(RootPath(namespace), key, "").value;
            PathToKey(RootPath(namespace), path) == key[Index(key, '.') + 1..] != key
  {
    hide ReplaceAll, Governed, LastIndex, Index, RootPath;
    HasADot(key);
    var i := LastIndex(key, '.');
    SlashForDot(namespace, key, i);
    assert |key[Index(key, '.') + 1..]| < |key|;
  }

  lemma SlashForDot(namespace: string, key: string, i: nat)
    requires '/' !in key && i < |key| && key[i] == '.'
    ensures PathToKey(RootPath(namespace), RootPath(namespace) + "/" + (key[..i] + "/" + key[i + 1..])) ==
              Ungrouped(key)
  {
    hide ReplaceAll, Ungrouped, RootPath;
    var rest := key[..i] + "/" + key[i + 1..];
    RootRemoved(namespace, rest, i);
    DotsForSlashes(rest);
    assert ReplaceAll(rest, "/", ".") == key;
  }

  lemma HasADot(key: string)
    requires Governed(key)
    ensures '.' in key
  {
    hide HasSuffix;
    if HasSuffix(key, CONFIGURATOR) {
      HasDotOfSuffix(key, CONFIGURATOR);
    } else if HasSuffix(key, TAG_ROUTER) {
      HasDotOfSuffix(key, TAG_ROUTER);
    } else if HasSuffix(key, CONDITION_ROUTER) {
      HasDotOfSuffix(key, CONDITION_ROUTER);
    } else {
      HasDotOfSuffix(key, MESH);
    }
  }

  lemma HasDotOfSuffix(key: string, suffix: string)
    requires HasSuffix(key, suffix) && suffix != "" && suffix[0] == '.'
    ensures '.' in key
  {
    assert key[|key| - |suffix|] == suffix[0];
  }

  // ---- listeners ----

  datatype Op<L> = Add(key: string, listener: L) | Remove(key: string, listener: L)

  function Applied<L>(t: map<string, set<L>>, op: Op<L>): map<string, set<L>> {
    match op
    case Add(k, l) => t[k := (if k in t then t[k] else {}) + {l}]
    case Remove(k, l) => if k in t then t[k := t[k] - {l}] else t
  }

  function Listeners<L>(ops: seq<Op<L>>): map<string, set<L>> {
    if ops == [] then map[] else Applied(Listeners(ops[..|ops| - 1]), ops[|ops| - 1])
  }

  /** The last operation on this key and listener adds it. */
  ghost predicate Listens<L>(ops: seq<Op<L>>, k: string, l: L) {
    exists i :: 0 <= i < |ops| && ops[i] == Add(k, l) && forall j :: i < j < |ops| ==> ops[j] != Remove(k, l)
  }

  lemma {:induction false} ListenersAreTheAdded<L>(ops: seq<Op<L>>, k: string, l: L)
    ensures (k in Listeners(ops) && l in Listeners(ops)[k]) <==> Listens(ops, k, l)
    decreases ops
  {
    if ops != [] {
      var before, op := ops[..|ops| - 1], ops[|ops| - 1];
      ListenersAreTheAdded(before, k, l);
      hide Listeners;
      ListensStep(before, op, k, l);
      assert ops == before + [op];
    }
  }

  lemma ListensStep<L>(ops: seq<Op<L>>, op: Op<L>, k: string, l: L)
    ensures Listens(ops + [op], k, l) <==> op == Add(k, l) || (op != Remove(k, l) && Listens(ops, k, l))
  {
    var all := ops + [op];
    assert all[|ops|] == op;
    if Listens(ops, k, l) && op != Remove(k, l) {
      var i :| 0 <= i < |ops| && ops[i] == Add(k, l) && forall j :: i < j < |ops| ==> ops[j] != Remove(k, l);
      assert all[i] == Add(k, l) && forall j :: i < j < |all| ==> all[j] != Remove(k, l);
    }
    if Listens(all, k, l) && op != Add(k, l) {
      var i :| 0 <= i < |all| && all[i] == Add(k, l) && forall j :: i < j < |all| ==> all[j] != Remove(k, l);
      assert ops[i] == Add(k, l) && forall j :: i < j < |ops| ==> ops[j] == all[j] != Remove(k, l);
    }
  }

  /** The position of the first `sub` in `s`, or -1. */
  function IndexOf(s: string, sub: string): (i: int)
    ensures -1 <= i <= |s|
    ensures i >= 0 ==> sub <= s[i..]
    ensures forall j :: 0 <= j <= |s| && sub <= s[j..] ==> 0 <= i <= j
  {
    if sub <= s then 0
    else if s == "" then -1
    else
      var i := IndexOf(s[1..], sub);
      assert forall j :: 1 <= j <= |s| ==> s[1..][j - 1..] == s[j..];
      if i < 0 then -1 else i + 1
  }

  /** The key whose listeners hear of a change at `path`. */
  function HeardKey(root: string, path: string): string {
    var key := PathToKey(root, path);
    if HasSuffix(key, MESH) then key[..Max0(IndexOf(key, MESH))] else key
  }

  function Max0(i: int): nat {
    if i < 0 then 0 else i
  }

  lemma SuffixUnderDot(key: string, suffix: string)
    requires HasSuffix(key, suffix)
    ensures HasSuffix("." + key, suffix)
  {
    assert ("." + key)[|key| + 1 - |suffix|..] == key[|key| - |suffix|..];
  }

  lemma OneOfTwoSuffixes(key: string, a: string, b: string)
    requires HasSuffix(key, a) && a != "" && b != "" && a[|a| - 1] != b[|b| - 1]
    ensures !HasSuffix(key, b) && key != ""
  {
    assert key[|key| - 1] == a[|a| - 1];
    assert |b| <= |key| ==> key[|key| - |b|..][|b| - 1] == key[|key| - 1];
  }

  predicate IsRule(key: string) {
    HasSuffix(key, CONFIGURATOR) || HasSuffix(key, TAG_ROUTER) || HasSuffix(key, CONDITION_ROUTER)
  }

  lemma RuleIsNoMeshRule(key: string)
    requires IsRule(key)
    ensures !HasSuffix(key, MESH) && Governed("." + key) && key != ""
  {
    hide HasSuffix;
    if HasSuffix(key, CONFIGURATOR) {
      SuffixUnderDot(key, CONFIGURATOR);
      OneOfTwoSuffixes(key, CONFIGURATOR, MESH);
    } else if HasSuffix(key, TAG_ROUTER) {
      SuffixUnderDot(key, TAG_ROUTER);
      OneOfTwoSuffixes(key, TAG_ROUTER, MESH);
    } else {
      SuffixUnderDot(key, CONDITION_ROUTER);
      OneOfTwoSuffixes(key, CONDITION_ROUTER, MESH);
    }
  }

  /** A change published to a configurators, tag-router or condition-router rule, in a group without
      dots or slashes, is heard under the rule's own key. */
  lemma RuleIsHeardUnderItsKey(namespace: string, key: string, group: string)
    requires '/' !in key && '/' !in group && '.' !in group
    requires IsRule(key)
    ensures HeardKey(RootPath(namespace), GetPath(RootPath(namespace), key, group)) == key
  {
    hide PathToKey, GetPath, HasSuffix, Governed, IsRule;
    RuleIsNoMeshRule(key);
    PathLeadsBack(namespace, key, group);
    assert '.' !in GroupOrDefault(group);
  }

  /** A mesh rule is heard under the application's name, up to the first mesh suffix in it. */
  lemma MeshRuleIsHeardUnderTheApplication(namespace: string, app: string, group: string)
    requires '/' !in app && '/' !in group && '.' !in group && IndexOf(app + MESH, MESH) == |app|
    ensures HeardKey(RootPath(namespace), GetPath(RootPath(namespace), app + MESH, group)) == app
  {
    hide PathToKey, GetPath, IndexOf, HasSuffix, HeardKey, Governed;
    var key := app + MESH;
    MeshIsGoverned(app);
    assert '.' !in GroupOrDefault(group);
    SlashFree(app);
    PathLeadsBack(namespace, key, group);
    HeardWithoutSuffix(RootPath(namespace), GetPath(RootPath(namespace), key, group), app);
  }

  lemma SlashFree(app: string)
    requires '/' !in app
    ensures '/' !in app + MESH
  {
  }

  lemma MeshIsGoverned(app: string)
    ensures Governed("." + (app + MESH))
  {
    hide HasSuffix;
    EndsWith(app, MESH);
    SuffixUnderDot(app + MESH, MESH);
  }

  lemma HeardWithoutSuffix(root: string, path: string, app: string)
    requires PathToKey(root, path) == app + MESH && IndexOf(app + MESH, MESH) == |app|
    ensures HeardKey(root, path) == app
  {
    hide PathToKey, IndexOf, HasSuffix;
    EndsWith(app, MESH);
    assert (app + MESH)[..|app|] == app;
  }

  lemma EndsWith(s: string, suffix: string)
    ensures HasSuffix(s + suffix, suffix)
  {
  }

  /** listener.Process with the event of a change. */
  datatype Notice<L> = Notice(listener: L, key: string, value: string, action: int)

  function Told<L>(notices: seq<Notice<L>>): set<L> {
    set i | 0 <= i < |notices| :: notices[i].listener
  }

  ghost predicate EachOnce<L(!new)>(notices: seq<Notice<L>>, to: set<L>, key: string, value: string, action: int) {
    && Told(notices) == to && |notices| == |to|
    && forall i :: 0 <= i < |notices| ==>
      notices[i].key == key && notices[i].value == value && notices[i].action == action
  }

  function Hearers<L>(t: map<string, set<L>>, key: string): set<L> {
    if key != "" && key in t then t[key] else {}
  }

  class CacheListener<L(==,!new)> {
    const rootPath: string
    var keyListeners: map<string, set<L>>

    constructor (rootPath: string)
      ensures this.rootPath == rootPath && keyListeners == Listeners<L>([])
    {
      this.rootPath, keyListeners := rootPath, map[];
    }

    method AddListener(key: string, listener: L)
      modifies this
      ensures keyListeners == Applied(old(keyListeners), Add(key, listener))
    {
      if key !in keyListeners {
        assert {} + {listener} == {listener};
        keyListeners := keyListeners[key := {listener}];
      } else {
        keyListeners := keyListeners[key := keyListeners[key] + {listener}];
      }
    }

    method RemoveListener(key: string, listener: L)
      modifies this
      ensures keyListeners == Applied(old(keyListeners), Remove(key, listener))
    {
      if key in keyListeners {
        keyListeners := keyListeners[key := keyListeners[key] - {listener}];
      }
    }

    /** Empty content means a new node. Otherwise every listener of the key is told once. */
    method DataChange(path: string, content: string, action: int) returns (handled: bool, notices: seq<Notice<L>>)
      ensures content == "" ==> handled && notices == []
      ensures content != "" ==> (handled <==>
                HeardKey(rootPath, path) != "" && HeardKey(rootPath, path) in keyListeners)
      ensures content != "" ==> EachOnce(notices, Hearers(keyListeners, HeardKey(rootPath, path)),
                HeardKey(rootPath, path), content, action)
    {
      hide PathToKey, IndexOf, HasSuffix;
      NobodyTold<L>(HeardKey(rootPath, path), content, action);
      notices := [];
      if content == "" {
        return true, [];
      }
      var key := PathToKey(rootPath, path);
      if HasSuffix(key, MESH) {
        key := key[..Max0(IndexOf(key, MESH))];
      }
      if key == "" || key !in keyListeners {
        return false, [];
      }
      notices := NotifyAll(keyListeners[key], key, content, action);
      return true, notices;
    }
  }

  lemma NobodyTold<L(!new)>(key: string, value: string, action: int)
    ensures EachOnce<L>([], {}, key, value, action)
  {
  }

  method NotifyAll<L(==,!new)>(listeners: set<L>, key: string, value: string, action: int)
    returns (notices: seq<Notice<L>>)
    ensures EachOnce(notices, listeners, key, value, action)
  {
    var todo := listeners;
    notices := [];
    while todo != {}
      invariant todo <= listeners
      invariant EachOnce(notices, listeners - todo, key, value, action)
    {
      hide EachOnce;
      var l :| l in todo;
      TellOne(notices, listeners - todo, l, key, value, action);
      notices := notices + [Notice(l, key, value, action)];
      assert listeners - (todo - {l}) == (listeners - todo) + {l};
      todo := todo - {l};
    }
    assert listeners - todo == listeners;
  }

  lemma TellOne<L(!new)>(notices: seq<Notice<L>>, to: set<L>, l: L, key: string, value: string, action: int)
    requires EachOnce(notices, to, key, value, action) && l !in to
    ensures EachOnce(notices + [Notice(l, key, value, action)], to + {l}, key, value, action)
  {
    var more := notices + [Notice(l, key, value, action)];
    assert forall i :: 0 <= i < |notices| ==> more[i] == notices[i];
    assert more[|notices|].listener == l;
    assert Told(more) == to + {l};
  }

  /** After any history of AddListener and RemoveListener, a change of a rule, as DataChange announces
      it, reaches exactly the listeners whose last operation under the rule's key added them, each once. */
  lemma ChangeReachesExactlyItsListeners<L(!new)>(
    ops: seq<Op<L>>, namespace: string, key: string, group: string, value: string, action: int,
    notices: seq<Notice<L>>, l: L)
    requires '/' !in key && '/' !in group && '.' !in group && IsRule(key)
    requires var heard := HeardKey(RootPath(namespace), GetPath(RootPath(namespace), key, group));
             EachOnce(notices, Hearers(Listeners(ops), heard), heard, value, action)
    ensures l in Told(notices) <==> Listens(ops, key, l)
    ensures |notices| == |Told(notices)|
    ensures forall i :: 0 <= i < |notices| ==> notices[i].key == key && notices[i].value == value
  {
    hide HeardKey, GetPath, IsRule, Listeners, Listens, Told;
    RuleIsHeardUnderItsKey(namespace, key, group);
    RuleIsNoMeshRule(key);
    ListenersAreTheAdded(ops, key, l);
  }
}
