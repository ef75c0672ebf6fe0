/** registry/base_registry.go: the local map of registered URLs beside the remote registry. Each
    call is one step; a remote operation either takes effect or fails without effect. */
module BaseRegistry {
  import Strings
  import opened Urls

  const ROLE := "registry.role"

  /** Process constants; `atoi` is strconv.Atoi, which gives 0 for text that is no number. */
  datatype Env = Env(localIp: string, pid: string, atoi: string -> int)

  /** What is written to the registry for one URL: the directory and the fields of the raw URL. The
      text encoding of these fields is not modelled. */
  datatype Node = Node(
    category: string, service: string, protocol: string, host: string, path: string, params: map<string, seq<string>>)

  function Role(env: Env, u: Url): int {
    env.atoi(Get(u.params, ROLE))
  }

  predicate IsProviderRole(env: Env, u: Url) {
    Role(env, u) == 3
  }

  predicate IsConsumerRole(env: Env, u: Url) {
    Role(env, u) == 0
  }

  /** url.Values.Add. */
  function AddValue(p: map<string, seq<string>>, key: string, value: string): map<string, seq<string>> {
    p[key := (if key in p then p[key] else []) + [value]]
  }

  function BaseParams(env: Env, u: Url): map<string, seq<string>> {
    AddValue(AddValue(map k | k in u.params :: [u.params[k][0]], "pid", env.pid), "ip", env.localIp)
  }

  function Join(methods: seq<string>): string {
    if |methods| == 0 then ""
    else if |methods| == 1 then methods[0]
    else Join(methods[..|methods| - 1]) + "," + methods[|methods| - 1]
  }

  /** The node of a URL; for a provider the parameters whose first value is empty are dropped. */
  function NodeOf(env: Env, u: Url): Node {
    var p := BaseParams(env, u);
    if IsProviderRole(env, u) then
      var all := AddValue(AddValue(p, "anyhost", "true"), "methods", Join(u.base.methods));
      var kept := map k | k in all && !(|all[k]| > 0 && all[k][0] == "") :: all[k];
      var ip := if u.base.ip == "" then env.localIp else u.base.ip;
      Node("providers", Service(u), u.base.protocol, ip + ":" + u.base.port, u.base.path, kept)
    else
      Node("consumers", Service(u), "consumer", env.localIp, u.base.path, AddValue(p, "protocol", u.base.protocol))
  }

  /** processURL refuses other roles, and providers without a path or without methods. */
  predicate Publishable(env: Env, u: Url) {
    (IsProviderRole(env, u) && u.base.path != "" && u.base.methods != []) || IsConsumerRole(env, u)
  }

  /** The values written under a name: the URL's own, and the ones added for every URL, for providers
      and for consumers. */
  function Written(env: Env, u: Url, name: string): seq<string> {
    (if name in u.params then [u.params[name][0]] else []) +
    (match name
     case "pid" => [env.pid]
     case "ip" => [env.localIp]
     case "anyhost" => if IsProviderRole(env, u) then ["true"] else []
     case "methods" => if IsProviderRole(env, u) then [Join(u.base.methods)] else []
     case "protocol" => if IsProviderRole(env, u) then [] else [u.base.protocol]
     case _ => [])
  }

  /** What a node says: where it stands, and under each name the values written there. A provider
      leaves out a name whose first value is empty. */
  lemma NodeSays(env: Env, u: Url, name: string)
    ensures var node, written := NodeOf(env, u), Written(env, u, name);
            var kept := written != [] && (IsProviderRole(env, u) ==> written[0] != "");
            && node.service == Service(u) && node.path == u.base.path
            && (name in node.params <==> kept) && (kept ==> node.params[name] == written)
            && (if IsProviderRole(env, u) then
                  && node.category == "providers" && node.protocol == u.base.protocol
                  && node.host == (if u.base.ip == "" then env.localIp else u.base.ip) + ":" + u.base.port
                else node.category == "consumers" && node.protocol == "consumer" && node.host == env.localIp)
  {
    hide Join, Role, Service;
    BaseSays(env, u, name);
  }

  lemma BaseSays(env: Env, u: Url, name: string)
    ensures var p := BaseParams(env, u);
            var own := if name in u.params then [u.params[name][0]] else [];
            var all := own + (if name == "pid" then [env.pid] else if name == "ip" then [env.localIp] else []);
            (name in p <==> all != []) && (name in p ==> p[name] == all)
  {
  }

  /** The method names can be read back from the list that is written, if none has a comma. */
  lemma {:induction false} MethodsReadBack(methods: seq<string>)
    requires methods != [] && forall i :: 0 <= i < |methods| ==> ',' !in methods[i]
    ensures Strings.Split(Join(methods), ',') == methods
  {
    JoinedByCommas(methods);
    Strings.JoinSplits(methods, ',');
  }

  lemma {:induction false} JoinedByCommas(methods: seq<string>)
    requires methods != []
    ensures Join(methods) == Strings.JoinWith(methods, ',')
  {
    if |methods| > 1 {
      var n := |methods| - 1;
      JoinedByCommas(methods[..n]);
      JoinSnoc(methods[..n], methods[n]);
      assert methods == methods[..n] + [methods[n]];
    }
  }

  lemma {:induction false} JoinSnoc(parts: seq<string>, last: string)
    requires parts != []
    ensures Strings.JoinWith(parts + [last], ',') == Strings.JoinWith(parts, ',') + "," + last
  {
    assert (parts + [last])[1..] == parts[1..] + [last];
    if |parts| > 1 {
      JoinSnoc(parts[1..], last);
    } else {
      assert (parts + [last])[1..] == [last];
    }
  }

  datatype State = State(services: map<string, Url>, remote: set<Node>)

  /** Outcomes of the remote operations of one call: making the paths, and the operation itself. */
  datatype Remote = Remote(paths: bool, operation: bool)

  predicate Succeeds(env: Env, u: Url, r: Remote) {
    Publishable(env, u) && r.paths && r.operation
  }

  function Registered(env: Env, s: State, u: Url, r: Remote): (State, bool) {
    if Key(u) in s.services || !Succeeds(env, u, r) then (s, false)
    else (State(s.services[Key(u) := u], s.remote + {NodeOf(env, u)}), true)
  }

  /** The address given by DUBBO_IP_TO_REGISTRY and DUBBO_PORT_TO_REGISTRY goes first. */
  function Addressed(u: Url, ip: string, port: string): Url {
    u.(base := u.base.(ip := if ip != "" then ip else u.base.ip, port := if port != "" then port else u.base.port))
  }

  /** Unregistering withdraws the node of the URL it is given, not of the one it was registered with. */
  function Unregistered(env: Env, s: State, u: Url, r: Remote): (State, bool) {
    if Key(u) in s.services && Publishable(env, u) && r.operation
    then (State(s.services - {Key(u)}, s.remote - {NodeOf(env, u)}), true)
    else (s, false)
  }

  // ---- local and remote agree ----

  ghost predicate KeysMatch(services: map<string, Url>) {
    forall k :: k in services ==> Key(services[k]) == k
  }

  /** Every registered URL is present remotely. */
  ghost predicate AllPublished(env: Env, s: State) {
    KeysMatch(s.services) && forall k :: k in s.services ==> NodeOf(env, s.services[k]) in s.remote
  }

  /** Nothing is present remotely but the nodes of registered URLs. */
  ghost predicate NoOrphans(env: Env, s: State) {
    forall n :: n in s.remote ==> exists k :: k in s.services && NodeOf(env, s.services[k]) == n
  }

  lemma RegisterKeepsBoth(env: Env, s: State, u: Url, r: Remote)
    requires AllPublished(env, s)
    ensures AllPublished(env, Registered(env, s, u, r).0)
    ensures NoOrphans(env, s) ==> NoOrphans(env, Registered(env, s, u, r).0)
    ensures !Registered(env, s, u, r).1 ==> Registered(env, s, u, r).0 == s
  {
    hide NodeOf, Key, Publishable;
    if NoOrphans(env, s) {
      RegisterLeavesNoOrphan(env, s, u, r);
    }
  }

  /** After a successful UnRegister everything registered is still present remotely if and only if
      no other registered URL has the node that was withdrawn. */
  lemma UnregisterKeepsOthersPublished(env: Env, s: State, u: Url, r: Remote)
    requires AllPublished(env, s) && Unregistered(env, s, u, r).1
    ensures AllPublished(env, Unregistered(env, s, u, r).0) <==>
            forall k :: k in s.services && k != Key(u) ==> NodeOf(env, s.services[k]) != NodeOf(env, u)
  {
    hide NodeOf, Key, Publishable;
    var s' := Unregistered(env, s, u, r).0;
    assert forall k :: k in s.services && k != Key(u) ==> k in s'.services && s'.services[k] == s.services[k];
  }

  /** It leaves no orphan if and only if the URL publishes the same node as the one registered
      under its key, or another registered URL has that node. */
  lemma UnregisterLeavesNoOrphan(env: Env, s: State, u: Url, r: Remote)
    requires AllPublished(env, s) && NoOrphans(env, s) && Unregistered(env, s, u, r).1
    ensures var node := NodeOf(env, s.services[Key(u)]);
            NoOrphans(env, Unregistered(env, s, u, r).0) <==>
            NodeOf(env, u) == node || exists k :: k in s.services && k != Key(u) && NodeOf(env, s.services[k]) == node
  {
    hide NodeOf, Key, Publishable;
    var s' := Unregistered(env, s, u, r).0;
    var node := NodeOf(env, s.services[Key(u)]);
    assert forall k :: k in s.services && k != Key(u) ==> k in s'.services && s'.services[k] == s.services[k];
    if NodeOf(env, u) == node || exists k :: k in s.services && k != Key(u) && NodeOf(env, s.services[k]) == node {
      forall n | n in s'.remote ensures exists k :: k in s'.services && NodeOf(env, s'.services[k]) == n {
        var k :| k in s.services && NodeOf(env, s.services[k]) == n;
        if k == Key(u) {
          var l :| l in s.services && l != Key(u) && NodeOf(env, s.services[l]) == node;
          assert l in s'.services;
        } else {
          assert k in s'.services;
        }
      }
    } else {
      assert node in s'.remote;
    }
  }

  // ---- replaying the services after a reconnect ----

  /** `order` lists every key once. */
  ghost predicate Lists(order: seq<string>, services: map<string, Url>) {
    && (forall k :: k in order <==> k in services)
    && (forall i, j :: 0 <= i < j < |order| ==> order[i] != order[j])
  }

  function UrlsIn(order: seq<string>, services: map<string, Url>): (urls: seq<Url>)
    requires forall k :: k in order ==> k in services
    ensures |urls| == |order| && forall i :: 0 <= i < |urls| ==> urls[i] == services[order[i]]
  {
    seq(|order|, i requires 0 <= i < |order| => services[order[i]])
  }

  /** Registers the URLs in turn, up to the first failure. */
  function Replayed(env: Env, remote: set<Node>, urls: seq<Url>, outcomes: seq<Remote>): (set<Node>, bool)
    requires |urls| <= |outcomes|
  {
    if urls == [] then (remote, true)
    else
      var n := |urls| - 1;
      var (before, ok) := Replayed(env, remote, urls[..n], outcomes);
      if ok && Succeeds(env, urls[n], outcomes[n]) then (before + {NodeOf(env, urls[n])}, true) else (before, false)
  }

  /** A replay succeeds exactly if each of its registrations does; then every URL is present. It
      withdraws nothing and adds no other node. */
  lemma {:induction false} ReplayPublishes(env: Env, remote: set<Node>, urls: seq<Url>, outcomes: seq<Remote>)
    requires |urls| <= |outcomes|
    ensures var (after, ok) := Replayed(env, remote, urls, outcomes);
            && remote <= after
            && (ok <==> forall i :: 0 <= i < |urls| ==> Succeeds(env, urls[i], outcomes[i]))
            && (ok ==> forall i :: 0 <= i < |urls| ==> NodeOf(env, urls[i]) in after)
            && (forall n :: n in after && n !in remote ==> exists i :: 0 <= i < |urls| && n == NodeOf(env, urls[i]))
    decreases urls
  {
    hide NodeOf, Succeeds;
    if urls != [] {
      var front := urls[..|urls| - 1];
      ReplayPublishes(env, remote, front, outcomes);
      assert forall i :: 0 <= i < |front| ==> front[i] == urls[i];
      ReplayAdds(env, remote, front, urls, outcomes);
    }
  }

  lemma ReplayAdds(env: Env, remote: set<Node>, front: seq<Url>, urls: seq<Url>, outcomes: seq<Remote>)
    requires 0 < |urls| <= |outcomes| && front == urls[..|urls| - 1]
    requires var after := Replayed(env, remote, front, outcomes).0;
             forall n :: n in after && n !in remote ==> exists i :: 0 <= i < |front| && n == NodeOf(env, front[i])
    ensures var after := Replayed(env, remote, urls, outcomes).0;
            forall n :: n in after && n !in remote ==> exists i :: 0 <= i < |urls| && n == NodeOf(env, urls[i])
  {
    hide NodeOf, Succeeds;
    var before, after := Replayed(env, remote, front, outcomes).0, Replayed(env, remote, urls, outcomes).0;
    forall n | n in after && n !in remote ensures exists i :: 0 <= i < |urls| && n == NodeOf(env, urls[i]) {
      if n in before {
        var i :| 0 <= i < |front| && n == NodeOf(env, front[i]);
        assert n == NodeOf(env, urls[i]);
      } else {
        assert n == NodeOf(env, urls[|front|]);
      }
    }
  }

  lemma ReplayStep(env: Env, remote: set<Node>, urls: seq<Url>, i: nat, outcomes: seq<Remote>)
    requires i < |urls| <= |outcomes| && Replayed(env, remote, urls[..i], outcomes).1
    ensures var before := Replayed(env, remote, urls[..i], outcomes).0;
            Replayed(env, remote, urls[..i + 1], outcomes) ==
            if Succeeds(env, urls[i], outcomes[i]) then (before + {NodeOf(env, urls[i])}, true) else (before, false)
  {
    hide NodeOf, Succeeds;
    assert urls[..i + 1][..i] == urls[..i];
  }

  lemma ReplayNone(env: Env, remote: set<Node>, urls: seq<Url>, outcomes: seq<Remote>)
    ensures Replayed(env, remote, urls[..0], outcomes) == (remote, true)
  {
  }

  // ---- runs ----

  /** `synced` says that no session was lost since the start or the last successful replay. */
  datatype Session = Session(state: State, synced: bool)

  datatype Step =
    | Register(url: Url, outcome: Remote)
    | UnRegister(url: Url, outcome: Remote)
    | LoseSession(kept: set<Node>)
    | Restart(order: seq<string>, outcomes: seq<Remote>)

  ghost predicate Enabled(s: Session, step: Step) {
    step.Restart? ==> Lists(step.order, s.state.services) && |step.order| <= |step.outcomes|
  }

  ghost function Next(env: Env, s: Session, step: Step): Session
    requires Enabled(s, step)
  {
    match step
    case Register(u, r) => s.(state := Registered(env, s.state, u, r).0)
    case UnRegister(u, r) => s.(state := Unregistered(env, s.state, u, r).0)
    case LoseSession(kept) => Session(s.state.(remote := s.state.remote * kept), false)
    case Restart(order, outcomes) =>
      var (remote, ok) := Replayed(env, s.state.remote, UrlsIn(order, s.state.services), outcomes);
      Session(s.state.(remote := remote), s.synced || ok)
  }

  ghost predicate IsRun(env: Env, s: Session, steps: seq<Step>)
    decreases steps
  {
    steps == [] || (Enabled(s, steps[0]) && IsRun(env, Next(env, s, steps[0]), steps[1..]))
  }

  ghost function Final(env: Env, s: Session, steps: seq<Step>): Session
    requires IsRun(env, s, steps)
    decreases steps
  {
    if steps == [] then s else Final(env, Next(env, s, steps[0]), steps[1..])
  }

  const Init := Session(State(map[], {}), true)

  /** Among the URLs of a run different keys publish different nodes. */
  ghost predicate NodesTellKeysApart(env: Env, urls: set<Url>) {
    forall u, v :: u in urls && v in urls && NodeOf(env, u) == NodeOf(env, v) ==> Key(u) == Key(v)
  }

  ghost predicate Mentions(steps: seq<Step>, urls: set<Url>) {
    forall i :: 0 <= i < |steps| && (steps[i].Register? || steps[i].UnRegister?) ==> steps[i].url in urls
  }

  ghost predicate Inv(env: Env, s: Session, urls: set<Url>) {
    && KeysMatch(s.state.services) && (forall k :: k in s.state.services ==> s.state.services[k] in urls)
    && (s.synced ==> AllPublished(env, s.state))
  }

  lemma StepKeepsInv(env: Env, s: Session, step: Step, urls: set<Url>)
    requires NodesTellKeysApart(env, urls) && Inv(env, s, urls) && Enabled(s, step) && Mentions([step], urls)
    ensures Inv(env, Next(env, s, step), urls)
  {
    hide NodeOf, Key, Publishable, Replayed;
    assert step.Register? || step.UnRegister? ==> [step][0].url in urls;
    match step
    case Register(u, r) =>
      if s.synced {
        RegisterKeepsBoth(env, s.state, u, r);
      }
    case UnRegister(u, r) =>
      if s.synced && Unregistered(env, s.state, u, r).1 {
        UnregisterKeepsOthersPublished(env, s.state, u, r);
      }
    case LoseSession(_) =>
    case Restart(order, outcomes) =>
      RestartPublishes(env, s.state, order, outcomes);
  }

  /** A successful replay publishes everything, whatever was left; none withdraws anything. */
  lemma RestartPublishes(env: Env, s: State, order: seq<string>, outcomes: seq<Remote>)
    requires KeysMatch(s.services) && Lists(order, s.services) && |order| <= |outcomes|
    ensures var (remote, ok) := Replayed(env, s.remote, UrlsIn(order, s.services), outcomes);
            s.remote <= remote && (ok ==> AllPublished(env, s.(remote := remote)))
  {
    hide NodeOf, Key, Replayed;
    var urls := UrlsIn(order, s.services);
    var (remote, ok) := Replayed(env, s.remote, urls, outcomes);
    ReplayPublishes(env, s.remote, urls, outcomes);
    if ok {
      forall k | k in s.services ensures NodeOf(env, s.services[k]) in remote {
        assert k in order;
        var i :| 0 <= i < |order| && order[i] == k;
        assert urls[i] == s.services[k];
      }
    }
  }

  lemma {:induction false} RunKeepsInv(env: Env, s: Session, steps: seq<Step>, urls: set<Url>)
    requires NodesTellKeysApart(env, urls) && Inv(env, s, urls) && IsRun(env, s, steps) && Mentions(steps, urls)
    ensures Inv(env, Final(env, s, steps), urls)
    decreases steps
  {
    hide NodesTellKeysApart, Inv, Next;
    if steps != [] {
      StepKeepsInv(env, s, steps[0], urls);
      RunKeepsInv(env, Next(env, s, steps[0]), steps[1..], urls);
    }
  }

  /** Then after any run, sessions lost on the way included, every registered URL is present remotely
      unless a lost session still waits for a successful replay. */
  lemma RunKeepsAllPublished(env: Env, steps: seq<Step>, urls: set<Url>)
    requires NodesTellKeysApart(env, urls) && IsRun(env, Init, steps) && Mentions(steps, urls)
    ensures Final(env, Init, steps).synced ==> AllPublished(env, Final(env, Init, steps).state)
  {
    hide NodesTellKeysApart, IsRun, Mentions, Final;
    RunKeepsInv(env, Init, steps, urls);
  }

  // ---- runs leave no orphans ----

  /** Among the URLs of a run one key publishes one node. */
  ghost predicate KeysTellNodesApart(env: Env, urls: set<Url>) {
    forall u, v :: u in urls && v in urls && Key(u) == Key(v) ==> NodeOf(env, u) == NodeOf(env, v)
  }

  ghost predicate OwnsRemote(env: Env, s: Session, urls: set<Url>) {
    && KeysMatch(s.state.services) && (forall k :: k in s.state.services ==> s.state.services[k] in urls)
    && NoOrphans(env, s.state)
  }

  lemma RegisterLeavesNoOrphan(env: Env, s: State, u: Url, r: Remote)
    requires NoOrphans(env, s)
    ensures NoOrphans(env, Registered(env, s, u, r).0)
  {
    hide NodeOf, Key, Publishable;
    var s' := Registered(env, s, u, r).0;
    if Registered(env, s, u, r).1 {
      forall n | n in s'.remote ensures exists k :: k in s'.services && NodeOf(env, s'.services[k]) == n {
        if n == NodeOf(env, u) {
          assert s'.services[Key(u)] == u;
        } else {
          var k :| k in s.services && NodeOf(env, s.services[k]) == n;
          assert k in s'.services && s'.services[k] == s.services[k];
        }
      }
    }
  }

  lemma WithdrawnLeavesNoOrphan(env: Env, s: State, u: Url, r: Remote)
    requires NoOrphans(env, s) && (Key(u) in s.services ==> NodeOf(env, u) == NodeOf(env, s.services[Key(u)]))
    ensures NoOrphans(env, Unregistered(env, s, u, r).0)
  {
    hide NodeOf, Key, Publishable;
    var s' := Unregistered(env, s, u, r).0;
    if Unregistered(env, s, u, r).1 {
      forall n | n in s'.remote ensures exists k :: k in s'.services && NodeOf(env, s'.services[k]) == n {
        var k :| k in s.services && NodeOf(env, s.services[k]) == n;
        assert k in s'.services && s'.services[k] == s.services[k];
      }
    }
  }

  lemma ReplayLeavesNoOrphan(env: Env, s: State, order: seq<string>, outcomes: seq<Remote>)
    requires NoOrphans(env, s) && Lists(order, s.services) && |order| <= |outcomes|
    ensures NoOrphans(env, s.(remote := Replayed(env, s.remote, UrlsIn(order, s.services), outcomes).0))
  {
    hide NodeOf, Replayed;
    var urls := UrlsIn(order, s.services);
    var after := Replayed(env, s.remote, urls, outcomes).0;
    ReplayPublishes(env, s.remote, urls, outcomes);
    forall n | n in after ensures exists k :: k in s.services && NodeOf(env, s.services[k]) == n {
      if n !in s.remote {
        var i :| 0 <= i < |urls| && n == NodeOf(env, urls[i]);
        assert order[i] in s.services && urls[i] == s.services[order[i]];
      }
    }
  }

  lemma StepLeavesNoOrphan(env: Env, s: Session, step: Step, urls: set<Url>)
    requires KeysTellNodesApart(env, urls) && OwnsRemote(env, s, urls) && Enabled(s, step) && Mentions([step], urls)
    ensures OwnsRemote(env, Next(env, s, step), urls)
  {
    hide NodeOf, Key, Publishable, Replayed;
    assert step.Register? || step.UnRegister? ==> [step][0].url in urls;
    match step
    case Register(u, r) => RegisterLeavesNoOrphan(env, s.state, u, r);
    case UnRegister(u, r) => WithdrawnLeavesNoOrphan(env, s.state, u, r);
    case LoseSession(_) =>
    case Restart(order, outcomes) => ReplayLeavesNoOrphan(env, s.state, order, outcomes);
  }

  lemma {:induction false} RunKeepsOwning(env: Env, s: Session, steps: seq<Step>, urls: set<Url>)
    requires KeysTellNodesApart(env, urls) && OwnsRemote(env, s, urls) && IsRun(env, s, steps) && Mentions(steps, urls)
    ensures OwnsRemote(env, Final(env, s, steps), urls)
    decreases steps
  {
    hide KeysTellNodesApart, OwnsRemote, Next;
    if steps != [] {
      StepLeavesNoOrphan(env, s, steps[0], urls);
      RunKeepsOwning(env, Next(env, s, steps[0]), steps[1..], urls);
    }
  }

  /** Where one key publishes one node, after any run, lost sessions and replays included, nothing is
      present remotely but the nodes of registered URLs. */
  lemma RunLeavesNoOrphans(env: Env, steps: seq<Step>, urls: set<Url>)
    requires KeysTellNodesApart(env, urls) && IsRun(env, Init, steps) && Mentions(steps, urls)
    ensures NoOrphans(env, Final(env, Init, steps).state)
  {
    hide KeysTellNodesApart, IsRun, Mentions, Final;
    RunKeepsOwning(env, Init, steps, urls);
  }

  /** The condition is needed: two URLs of one key and different nodes leave an orphan. */
  lemma OrphanAfterUnregister(env: Env, u: Url, v: Url)
    requires Publishable(env, u) && Publishable(env, v) && Key(u) == Key(v) && NodeOf(env, u) != NodeOf(env, v)
    ensures var ok := Remote(true, true);
            var steps := [Register(u, ok), UnRegister(v, ok)];
            IsRun(env, Init, steps) && Final(env, Init, steps) == Session(State(map[], {NodeOf(env, u)}), true)
  {
    hide NodeOf, Key, Publishable, Final, IsRun;
    var ok := Remote(true, true);
    var s1 := State(map[Key(u) := u], {NodeOf(env, u)});
    assert Next(env, Init, Register(u, ok)) == Session(s1, true);
    assert s1.services - {Key(v)} == map[] && s1.remote - {NodeOf(env, v)} == s1.remote;
    assert Next(env, Session(s1, true), UnRegister(v, ok)) == Session(State(map[], s1.remote), true);
    TwoSteps(env, Init, Register(u, ok), UnRegister(v, ok));
  }

  lemma TwoSteps(env: Env, s: Session, a: Step, b: Step)
    requires !a.Restart? && !b.Restart?
    ensures IsRun(env, s, [a, b]) && Final(env, s, [a, b]) == Next(env, Next(env, s, a), b)
  {
    hide Next;
    assert [a, b][1..] == [b] && [b][1..] == [];
    assert IsRun(env, Next(env, s, a), [b]) && Final(env, Next(env, s, a), [b]) == Next(env, Next(env, s, a), b);
  }

  // ---- URLs that share a node ----

  /** Different keys do publish one node for consumers that differ in the port. */
  lemma ConsumersOnTwoPortsShareANode(env: Env, u: Url, port: string)
    requires IsConsumerRole(env, u) && port != u.base.port
    ensures var v := u.(base := u.base.(port := port));
            Key(v) != Key(u) && NodeOf(env, v) == NodeOf(env, u) && Publishable(env, u) && Publishable(env, v)
  {
    var v := u.(base := u.base.(port := port));
    assert Service(u) == Service(v);
    if Key(u) == Key(v) {
      SamePortFromKey(u, v);
    }
  }

  /** The condition of RunKeepsAllPublished is needed: with two such URLs registered, unregistering
      one withdraws the node of the other, which stays registered. */
  lemma WithdrawnWhileRegistered(env: Env, u: Url, v: Url)
    requires Publishable(env, u) && Publishable(env, v) && Key(u) != Key(v) && NodeOf(env, u) == NodeOf(env, v)
    ensures var ok := Remote(true, true);
            var steps := [Register(u, ok), Register(v, ok), UnRegister(u, ok)];
            IsRun(env, Init, steps) && Final(env, Init, steps) == Session(State(map[Key(v) := v], {}), true)
  {
    hide NodeOf, Key, Publishable, Final, IsRun;
    var ok := Remote(true, true);
    var s0, s1 := State(map[], {}), State(map[Key(u) := u], {NodeOf(env, u)});
    var s2, s3 := State(s1.services[Key(v) := v], s1.remote), State(map[Key(v) := v], {});
    assert Next(env, Session(s0, true), Register(u, ok)) == Session(s1, true);
    assert s1.remote + {NodeOf(env, v)} == s1.remote;
    assert Next(env, Session(s1, true), Register(v, ok)) == Session(s2, true);
    assert s2.services - {Key(u)} == s3.services && s2.remote - {NodeOf(env, u)} == s3.remote;
    assert Next(env, Session(s2, true), UnRegister(u, ok)) == Session(s3, true);
    ThreeSteps(env, Init, Register(u, ok), Register(v, ok), UnRegister(u, ok));
  }

  lemma ThreeSteps(env: Env, s: Session, a: Step, b: Step, c: Step)
    requires !a.Restart? && !b.Restart? && !c.Restart?
    ensures IsRun(env, s, [a, b, c]) && Final(env, s, [a, b, c]) == Next(env, Next(env, Next(env, s, a), b), c)
  {
    hide Next;
    assert [a, b, c][1..] == [b, c] && [b, c][1..] == [c] && [c][1..] == [];
    var s2 := Next(env, Next(env, s, a), b);
    assert IsRun(env, s2, [c]) && Final(env, s2, [c]) == Next(env, s2, c);
    assert IsRun(env, Next(env, s, a), [b, c]);
  }

  lemma SamePortFromKey(u: Url, v: Url)
    requires v == u.(base := u.base.(port := v.base.port)) && Key(u) == Key(v)
    ensures u.base.port == v.base.port
  {
    var b := u.base;
    var head := b.protocol + "://" + b.username + ":" + b.password + "@" + b.ip + ":";
    var tail := ServicePart(Service(u), Get(u.params, GROUP), Get(u.params, VERSION), "");
    KeySurroundsPort(u);
    KeySurroundsPort(v);
    var p, q := b.port, v.base.port;
    assert |p| == |q|;
    assert p == Key(u)[|head|..|head| + |p|] && q == Key(v)[|head|..|head| + |p|];
  }

  lemma KeySurroundsPort(u: Url)
    ensures var b := u.base;
            Key(u) == (b.protocol + "://" + b.username + ":" + b.password + "@" + b.ip + ":") +
                      (b.port + ("/?interface=" +
                        ServicePart(Service(u), Get(u.params, GROUP), Get(u.params, VERSION), "")))
  {
    hide ServicePart, Service;
  }

  // ---- the code ----

  class Registry {
    const env: Env
    var services: map<string, Url>
    var remote: set<Node>

    ghost function View(): State
      reads this
    {
      State(services, remote)
    }

    constructor (env: Env)
      ensures this.env == env && services == map[] && remote == {}
    {
      this.env, services, remote := env, map[], {};
    }

    /** processURL with DoRegister. */
    method DoRegister(u: Url, r: Remote) returns (ok: bool)
      modifies `remote
      ensures ok <==> Succeeds(env, u, r)
      ensures var role := env.atoi(Get(u.params, "registry.role"));
              ok <==> r.paths && r.operation && (role == 0 || (role == 3 && u.base.path != "" && u.base.methods != []))
      ensures remote == if ok then old(remote) + {NodeOf(env, u)} else old(remote)
    {
      hide NodeOf;
      if IsProviderRole(env, u) {
        if u.base.path == "" || u.base.methods == [] {
          return false;
        }
      } else if !IsConsumerRole(env, u) {
        return false;
      }
      if !r.paths || !r.operation {
        return false;
      }
      remote := remote + {NodeOf(env, u)};
      return true;
    }

    /** Returns the URL with the address it was registered under. */
    method RegisterUrl(conf: Url, ipToRegistry: string, portToRegistry: string, r: Remote) returns (c: Url, ok: bool)
      modifies this
      ensures c == Addressed(conf, ipToRegistry, portToRegistry)
      ensures c.params == conf.params && c.base == conf.base.(ip := c.base.ip, port := c.base.port)
      ensures c.base.ip == (if ipToRegistry == "" then conf.base.ip else ipToRegistry)
      ensures c.base.port == (if portToRegistry == "" then conf.base.port else portToRegistry)
      ensures (View(), ok) == Registered(env, old(View()), c, r)
    {
      hide NodeOf, Key, Publishable;
      c := conf;
      if ipToRegistry != "" {
        c := c.(base := c.base.(ip := ipToRegistry));
      }
      if portToRegistry != "" {
        c := c.(base := c.base.(port := portToRegistry));
      }
      if Key(c) in services {
        return c, false;
      }
      ok := DoRegister(c, r);
      if ok {
        services := services[Key(c) := c];
      }
    }

    /** The entry is taken out first and put back if the remote operation fails. */
    method UnRegisterUrl(conf: Url, r: Remote) returns (ok: bool)
      modifies this
      ensures (View(), ok) == Unregistered(env, old(View()), conf, r)
      ensures var role := env.atoi(Get(conf.params, "registry.role"));
              ok <==> Key(conf) in old(services) && r.operation &&
                      (role == 0 || (role == 3 && conf.base.path != "" && conf.base.methods != []))
    {
      hide NodeOf, Key;
      var key := Key(conf);
      if key !in services {
        return false;
      }
      var oldURL := services[key];
      services := services - {key};
      if !Publishable(env, conf) || !r.operation {
        services := services[key := oldURL];
        assert services == old(services);
        return false;
      }
      remote := remote - {NodeOf(env, conf)};
      return true;
    }

    /** RestartCallBack: copies the services in any order, then registers the copies in turn up to
        the first failure. */
    method RestartCallBack(outcomes: seq<Remote>) returns (flag: bool, ghost order: seq<string>)
      requires |services| <= |outcomes|
      modifies `remote
      ensures Lists(order, services) && |order| == |services|
      ensures (remote, flag) == Replayed(env, old(remote), UrlsIn(order, services), outcomes)
    {
      hide NodeOf, Succeeds, Replayed;
      var copies;
      copies, order := CopyServices();
      flag := true;
      ReplayNone(env, remote, copies, outcomes);
      for i := 0 to |copies|
        invariant flag && (remote, true) == Replayed(env, old(remote), copies[..i], outcomes)
      {
        ReplayStep(env, old(remote), copies, i, outcomes);
        flag := DoRegister(copies[i], outcomes[i]);
        if !flag {
          ReplayStops(env, old(remote), copies, i + 1, outcomes);
          return;
        }
      }
      assert copies[..|copies|] == copies;
    }

    method CopyServices() returns (copies: seq<Url>, ghost order: seq<string>)
      ensures Lists(order, services) && |order| == |services| && copies == UrlsIn(order, services)
    {
      copies, order := [], [];
      var todo := services.Keys;
      while todo != {}
        invariant todo <= services.Keys && |order| + |todo| == |services.Keys|
        invariant forall k :: k in order <==> k in services && k !in todo
        invariant forall i, j :: 0 <= i < j < |order| ==> order[i] != order[j]
        invariant copies == UrlsIn(order, services)
      {
        var k :| k in todo;
        copies, order := copies + [services[k]], order + [k];
        todo := todo - {k};
      }
    }
  }

  lemma {:induction false} ReplayStops(env: Env, remote: set<Node>, urls: seq<Url>, n: nat, outcomes: seq<Remote>)
    requires n <= |urls| <= |outcomes| && !Replayed(env, remote, urls[..n], outcomes).1
    ensures Replayed(env, remote, urls, outcomes) == Replayed(env, remote, urls[..n], outcomes)
    decreases urls
  {
    hide NodeOf, Succeeds;
    if n == |urls| {
      assert urls[..n] == urls;
    } else {
      assert urls[..|urls| - 1][..n] == urls[..n];
      ReplayStops(env, remote, urls[..|urls| - 1], n, outcomes);
    }
  }
}
