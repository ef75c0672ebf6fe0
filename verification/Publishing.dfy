/** registry/directory/directory.go: grouping the cached invokers into what callers see. */
module Publishing {
  import opened Urls
  import opened DirectorySpec

  /** One published entry: a plain invoker, or a cluster over one group. */
  datatype Entry = Direct(invoker: Invoker) | Cluster(members: seq<Invoker>)

  function GroupOf(i: Invoker): string {
    Get(i.url.params, GROUP)
  }

  function Members(e: Entry): seq<Invoker> {
    match e
    case Direct(i) => [i]
    case Cluster(m) => m
  }

  function Flatten(list: seq<Entry>): seq<Invoker> {
    if list == [] then [] else Flatten(list[..|list| - 1]) + Members(list[|list| - 1])
  }

  predicate OfOneGroup(e: Entry) {
    Members(e) != [] && forall i :: i in Members(e) ==> GroupOf(i) == GroupOf(Members(e)[0])
  }

  ghost predicate ClustersApart(list: seq<Entry>) {
    forall p, q :: 0 <= p < q < |list| && list[p].Cluster? && list[q].Cluster? &&
                   OfOneGroup(list[p]) && OfOneGroup(list[q]) ==>
      GroupOf(list[p].members[0]) != GroupOf(list[q].members[0])
  }

  /** Every held invoker is in exactly one entry, once, and nothing else is published; each entry
      is of one group, and no two clusters share a group. */
  ghost predicate IsGrouping(list: seq<Entry>, held: set<Invoker>) {
    multiset(Flatten(list)) == multiset(held) && (forall e :: e in list ==> OfOneGroup(e)) && ClustersApart(list)
  }

  lemma {:induction false} FlattenHas(list: seq<Entry>, e: Entry, i: Invoker)
    requires e in list && i in Members(e)
    ensures i in Flatten(list)
  {
    if e != list[|list| - 1] {
      FlattenHas(list[..|list| - 1], e, i);
    }
  }

  /** Whatever is published is held by the cache. */
  lemma PublishedIsHeld(list: seq<Entry>, held: set<Invoker>, e: Entry, i: Invoker)
    requires IsGrouping(list, held) && e in list && i in Members(e)
    ensures i in held
  {
    FlattenHas(list, e, i);
    assert i in multiset(Flatten(list));
  }

  type Groups = map<string, seq<Invoker>>

  /** `m` sorts the invokers of `list` by group. */
  ghost predicate SortsByGroup(m: Groups, list: seq<Invoker>) {
    && (forall g :: g in m ==> m[g] != [] && forall i :: i in m[g] ==> GroupOf(i) == g)
    && (forall i :: i in list ==> GroupOf(i) in m)
    && (forall i :: GroupOf(i) in m ==> multiset(m[GroupOf(i)])[i] == multiset(list)[i])
  }

  method CollectInvokers(cache: map<string, Invoker>) returns (list: seq<Invoker>)
    requires Injective(cache)
    ensures multiset(list) == multiset(Held(cache))
  {
    list := [];
    var todo := cache.Keys;
    ghost var done: set<Invoker> := {};
    while todo != {}
      invariant todo <= cache.Keys
      invariant done == set k | k in cache && k !in todo :: cache[k]
      invariant multiset(list) == multiset(done)
    {
      var k :| k in todo;
      assert cache[k] !in done;
      list := list + [cache[k]];
      done := done + {cache[k]};
      todo := todo - {k};
    }
    assert done == Held(cache);
  }

  lemma SortOneMore(m: Groups, list: seq<Invoker>, i: Invoker, members: seq<Invoker>)
    requires SortsByGroup(m, list) && members == if GroupOf(i) in m then m[GroupOf(i)] else []
    ensures SortsByGroup(m[GroupOf(i) := members + [i]], list + [i])
  {
    hide GroupOf;
    var m' := m[GroupOf(i) := members + [i]];
    assert forall j :: j in members + [i] ==> GroupOf(j) == GroupOf(i);
    forall j | GroupOf(j) in m'
      ensures multiset(m'[GroupOf(j)])[j] == multiset(list + [i])[j]
    {
      if GroupOf(j) !in m {
        assert j !in list;
      }
    }
  }

  lemma NothingToSort(list: seq<Invoker>)
    ensures SortsByGroup(map[], list[..0])
  {
  }

  method GroupInvokers(list: seq<Invoker>) returns (m: Groups)
    ensures SortsByGroup(m, list)
  {
    hide SortsByGroup, GroupOf;
    m := map[];
    NothingToSort(list);
    for n := 0 to |list|
      invariant SortsByGroup(m, list[..n])
    {
      var g := GroupOf(list[n]);
      var members := if g in m then m[g] else [];
      SortOneMore(m, list[..n], list[n], members);
      assert list[..n + 1] == list[..n] + [list[n]];
      m := m[g := members + [list[n]]];
    }
    assert list[..|list|] == list;
  }

  lemma {:induction false} FlattenDirect(invokers: seq<Invoker>, list: seq<Entry>)
    requires |list| == |invokers| && forall p :: 0 <= p < |list| ==> list[p] == Direct(invokers[p])
    ensures Flatten(list) == invokers
  {
    if list != [] {
      FlattenDirect(invokers[..|list| - 1], list[..|list| - 1]);
    }
  }

  /** `list` is one cluster per group of `m`, the groups taken in the order `order`. */
  ghost predicate ClustersOf(list: seq<Entry>, m: Groups, order: seq<string>) {
    && |list| == |order|
    && (forall p :: 0 <= p < |order| ==> order[p] in m && list[p] == Cluster(m[order[p]]))
    && (forall p, q :: 0 <= p < q < |order| ==> order[p] != order[q])
  }

  method ClusterPerGroup(m: Groups) returns (list: seq<Entry>, ghost order: seq<string>)
    ensures ClustersOf(list, m, order) && |list| == |m| && forall g :: g in m ==> g in order
  {
    list, order := [], [];
    var todo := m.Keys;
    while todo != {}
      invariant todo <= m.Keys && |list| + |todo| == |m.Keys|
      invariant ClustersOf(list, m, order)
      invariant forall g :: g in m ==> (g in order <==> g !in todo)
    {
      var g :| g in todo;
      list, order := list + [Cluster(m[g])], order + [g];
      todo := todo - {g};
    }
  }

  lemma FlattenNone()
    ensures Flatten([]) == []
  {
  }

  lemma FlattenStep(list: seq<Entry>, i: Invoker)
    requires list != []
    ensures multiset(Flatten(list))[i] ==
            multiset(Flatten(list[..|list| - 1]))[i] + multiset(Members(list[|list| - 1]))[i]
  {
    hide Members;
  }

  lemma {:induction false} FlattenClusters(list: seq<Entry>, m: Groups, order: seq<string>, i: Invoker)
    requires ClustersOf(list, m, order)
    requires forall g :: g in m ==> forall j :: j in m[g] ==> GroupOf(j) == g
    ensures multiset(Flatten(list))[i] == if GroupOf(i) in order then multiset(m[GroupOf(i)])[i] else 0
  {
    hide GroupOf, Flatten;
    if list == [] {
      FlattenNone();
    } else {
      var n := |list| - 1;
      FlattenClusters(list[..n], m, order[..n], i);
      assert order == order[..n] + [order[n]];
      FlattenStep(list, i);
      if GroupOf(i) != order[n] {
        assert i !in m[order[n]];
      }
    }
  }

  lemma ClustersGroup(list: seq<Entry>, m: Groups, order: seq<string>, source: seq<Invoker>, held: set<Invoker>)
    requires ClustersOf(list, m, order) && (forall g :: g in m ==> g in order)
    requires SortsByGroup(m, source) && multiset(source) == multiset(held)
    ensures IsGrouping(list, held)
  {
    forall i ensures multiset(Flatten(list))[i] == multiset(source)[i] {
      FlattenClusters(list, m, order, i);
      if GroupOf(i) !in m {
        assert i !in source;
      }
    }
    assert multiset(Flatten(list)) == multiset(source);
    forall p | 0 <= p < |list|
      ensures OfOneGroup(list[p]) && GroupOf(list[p].members[0]) == order[p]
    {
      assert m[order[p]][0] in m[order[p]];
    }
  }

  lemma OneGroup(m: Groups, list: seq<Invoker>, g: string)
    requires SortsByGroup(m, list) && m.Keys == {g}
    ensures multiset(m[g]) == multiset(list)
  {
    forall i ensures multiset(m[g])[i] == multiset(list)[i] {
      if GroupOf(i) != g {
        assert i !in m[g] && i !in list;
      }
    }
  }

  lemma SingleKey(m: Groups, g: string)
    requires |m| == 1 && g in m
    ensures m.Keys == {g}
  {
    var rest := m.Keys - {g};
    assert |m.Keys| == |rest| + 1;
  }

  lemma DirectsGroup(list: seq<Entry>, m: Groups, g: string, source: seq<Invoker>, held: set<Invoker>)
    requires SortsByGroup(m, source) && multiset(source) == multiset(held) && |m| == 1 && g in m
    requires |list| == |m[g]| && forall p :: 0 <= p < |list| ==> list[p] == Direct(m[g][p])
    ensures IsGrouping(list, held)
  {
    SingleKey(m, g);
    OneGroup(m, source, g);
    FlattenDirect(m[g], list);
  }

  function GroupsIn(held: set<Invoker>): set<string> {
    set i | i in held :: GroupOf(i)
  }

  /** What is published. With one group, or none, every invoker stands alone. With several every group is
      one cluster; but without a router factory no cluster can be built and nothing is published. */
  ghost predicate IsPublication(list: seq<Entry>, held: set<Invoker>, routersRegistered: bool) {
    if |GroupsIn(held)| <= 1 then
      IsGrouping(list, held) && forall e :: e in list ==> e.Direct?
    else if routersRegistered then
      IsGrouping(list, held) && |list| == |GroupsIn(held)| && forall e :: e in list ==> e.Cluster?
    else
      list == []
  }

  lemma SortedGroups(m: Groups, source: seq<Invoker>, held: set<Invoker>)
    requires SortsByGroup(m, source) && multiset(source) == multiset(held)
    ensures m.Keys == GroupsIn(held) && |m| == |GroupsIn(held)|
  {
    hide GroupOf;
    assert forall i :: i in held <==> i in multiset(held);
    assert forall i :: i in source <==> i in multiset(source);
    forall g | g in m ensures g in GroupsIn(held) {
      var i := m[g][0];
      assert i in m[g] && GroupOf(i) == g;
      assert i in multiset(m[g]);
      assert multiset(m[GroupOf(i)])[i] == multiset(source)[i];
      assert i in multiset(source);
    }
  }

  /** toGroupInvokers. */
  method ToGroupInvokers(cache: map<string, Invoker>, routersRegistered: bool) returns (list: seq<Entry>)
    requires Injective(cache)
    ensures IsPublication(list, Held(cache), routersRegistered)
  {
    hide SortsByGroup, IsGrouping, GroupsIn, GroupOf, ClustersOf;
    var invokers := CollectInvokers(cache);
    var groups := GroupInvokers(invokers);
    SortedGroups(groups, invokers, Held(cache));
    if |groups| == 1 {
      var g :| g in groups;
      list := seq(|groups[g]|, p requires 0 <= p < |groups[g]| => Direct(groups[g][p]));
      DirectsGroup(list, groups, g, invokers, Held(cache));
    } else {
      list := [];
      ghost var order;
      if routersRegistered || |groups| == 0 {
        list, order := ClusterPerGroup(groups);
        ClustersGroup(list, groups, order, invokers, Held(cache));
        ClustersAreClusters(list, groups, order);
      }
    }
  }

  lemma ClustersAreClusters(list: seq<Entry>, m: Groups, order: seq<string>)
    requires ClustersOf(list, m, order)
    ensures forall e :: e in list ==> e.Cluster?
  {
  }

  // ---- the order of publishing and destroying ----

  /** What callers and invokers notice of the directory, in order. */
  datatype Act = Publish(list: seq<Entry>) | Destroys(invoker: Invoker)

  /** The list published last. */
  function Showing(log: seq<Act>): seq<Entry> {
    if log == [] then [] else if log[|log| - 1].Publish? then log[|log| - 1].list else Showing(log[..|log| - 1])
  }

  function DestroyedIn(log: seq<Act>): set<Invoker> {
    set i | 0 <= i < |log| && log[i].Destroys? :: log[i].invoker
  }

  /** No invoker is destroyed while the list that holds it is the one published, and none is
      published after it was destroyed. */
  ghost predicate SafeLog(log: seq<Act>) {
    log == [] ||
    (SafeLog(log[..|log| - 1]) &&
     match log[|log| - 1]
     case Publish(list) => multiset(Flatten(list)) !! multiset(DestroyedIn(log[..|log| - 1]))
     case Destroys(i) => i !in Flatten(Showing(log[..|log| - 1])))
  }

  lemma DestroyedInMore(log: seq<Act>, a: Act)
    ensures DestroyedIn(log + [a]) == DestroyedIn(log) + if a.Destroys? then {a.invoker} else {}
  {
    var more := log + [a];
    assert forall i :: 0 <= i < |log| ==> more[i] == log[i];
    assert more[|log|] == a;
  }

  lemma PublishIsSafe(log: seq<Act>, list: seq<Entry>)
    requires SafeLog(log) && forall i :: i in Flatten(list) ==> i !in DestroyedIn(log)
    ensures SafeLog(log + [Publish(list)]) && Showing(log + [Publish(list)]) == list
    ensures DestroyedIn(log + [Publish(list)]) == DestroyedIn(log)
  {
    hide DestroyedIn, Flatten;
    var more := log + [Publish(list)];
    assert more[..|log|] == log && more[|log|] == Publish(list);
    DestroyedInMore(log, Publish(list));
    assert forall i :: i in multiset(Flatten(list)) ==> i in Flatten(list);
  }

  lemma DestroyIsSafe(log: seq<Act>, i: Invoker)
    requires SafeLog(log) && i !in Flatten(Showing(log))
    ensures SafeLog(log + [Destroys(i)]) && Showing(log + [Destroys(i)]) == Showing(log)
    ensures DestroyedIn(log + [Destroys(i)]) == DestroyedIn(log) + {i}
  {
    hide DestroyedIn, Flatten;
    var more := log + [Destroys(i)];
    assert more[..|log|] == log && more[|log|] == Destroys(i);
    DestroyedInMore(log, Destroys(i));
  }

  /** So at no moment does the published list hold an invoker that has been destroyed. */
  lemma {:induction false} PublishedNeverDestroyed(log: seq<Act>, k: nat, i: Invoker)
    requires SafeLog(log) && k <= |log| && i in Flatten(Showing(log[..k]))
    ensures i !in DestroyedIn(log[..k])
    decreases log
  {
    hide Flatten;
    var n := |log| - 1;
    if k < |log| {
      assert log[..n][..k] == log[..k];
      PublishedNeverDestroyed(log[..n], k, i);
    } else if log != [] {
      assert log[..k] == log == log[..n] + [log[n]] && log[..n][..n] == log[..n];
      DestroyedInMore(log[..n], log[n]);
      if log[n].Destroys? {
        PublishedNeverDestroyed(log[..n], n, i);
      } else {
        assert i in multiset(Flatten(log[n].list));
      }
    }
  }
}
