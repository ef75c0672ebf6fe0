/** protocol/protocolwrapper/protocol_filter_wrapper.go: the chain of filters around an invoker. */
module FilterChain {
  import opened Strings
  import opened Wrappers

  /** How a filter treats a call: how often it calls the next invoker (0 when it answers itself,
      with `answer`), and what its OnResponse makes of the result. */
  datatype Filter<!R> = Filter(passes: nat, answer: R, respond: R -> R)

  /** The invoker that calls filter `position` first and then, through it, `next`. */
  datatype Chain<!R> = Base(result: R) | Node(position: nat, filter: Filter<R>, next: Chain<R>)

  datatype Event = Enter(position: nat) | CallBase | Respond(position: nat)

  function Repeat(n: nat, events: seq<Event>): seq<Event> {
    if n == 0 then [] else Repeat(n - 1, events) + events
  }

  /** FilterInvoker.Invoke: the result of a call and everything that happens on the way. */
  function Invoke<R>(c: Chain<R>): (R, seq<Event>) {
    match c
    case Base(r) => (r, [CallBase])
    case Node(p, f, next) =>
      var (r, events) := Invoke(next);
      (f.respond(if f.passes == 0 then f.answer else r), [Enter(p)] + Repeat(f.passes, events) + [Respond(p)])
  }

  /** The chain that holds the filters from `i` on, leftmost outermost. */
  function ChainOf<R>(filters: seq<Filter<R>>, i: nat, base: R): Chain<R>
    requires i <= |filters|
    decreases |filters| - i
  {
    if i == |filters| then Base(base) else Node(i, filters[i], ChainOf(filters, i + 1, base))
  }

  predicate AllRegistered<R>(names: seq<string>, registry: map<string, Filter<R>>) {
    forall i :: 0 <= i < |names| ==> TrimSpace(names[i]) in registry
  }

  function Named<R>(names: seq<string>, registry: map<string, Filter<R>>): (r: seq<Filter<R>>)
    requires AllRegistered(names, registry)
    ensures |r| == |names|
  {
    seq(|names|, i requires 0 <= i < |names| => registry[TrimSpace(names[i])])
  }

  /** BuildInvokerChain, from the last filter name to the first; an unregistered name panics. */
  method BuildInvokerChain<R>(filterName: string, registry: map<string, Filter<R>>, base: R)
    returns (chain: Option<Chain<R>>)
    ensures filterName == "" ==> chain == Some(Base(base))
    ensures filterName != "" ==> (chain.Some? <==> AllRegistered(Split(filterName, ','), registry))
    ensures filterName != "" && chain.Some? ==> chain.value == ChainOf(Named(Split(filterName, ','), registry), 0, base)
  {
    if filterName == "" {
      return Some(Base(base));
    }
    var names := Split(filterName, ',');
    var next := Base(base);
    var i := |names|;
    while i > 0
      invariant 0 <= i <= |names|
      invariant forall j :: i <= j < |names| ==> TrimSpace(names[j]) in registry
      invariant AllRegistered(names, registry) ==> next == ChainOf(Named(names, registry), i, base)
    {
      i := i - 1;
      var name := TrimSpace(names[i]);
      if name !in registry {
        return None;
      }
      next := Node(i, registry[name], next);
    }
    return Some(next);
  }

  // ---- what a call does ----

  /** The first filter from `i` on that answers itself, or the number of filters. */
  function FirstAnswering<R>(filters: seq<Filter<R>>, i: nat): (k: nat)
    requires i <= |filters|
    ensures i <= k <= |filters| && (k < |filters| ==> filters[k].passes == 0)
    ensures forall j :: i <= j < k ==> filters[j].passes != 0
    decreases |filters| - i
  {
    if i == |filters| || filters[i].passes == 0 then i else FirstAnswering(filters, i + 1)
  }

  function Enters(i: nat, n: nat): (r: seq<Event>)
    requires i <= n
    ensures |r| == n - i && forall j :: 0 <= j < |r| ==> r[j] == Enter(i + j)
  {
    seq(n - i, j requires 0 <= j < n - i => Enter(i + j))
  }

  /** The responses of filters `i` to `n - 1`, last first. */
  function Responds(i: nat, n: nat): (r: seq<Event>)
    requires i <= n
    ensures |r| == n - i && forall j :: 0 <= j < |r| ==> r[j] == Respond(n - 1 - j)
  {
    seq(n - i, j requires 0 <= j < n - i => Respond(n - 1 - j))
  }

  /** The OnResponse of the filters `n - 1` down to `i`, applied to `r`. */
  function Responded<R>(filters: seq<Filter<R>>, i: nat, n: nat, r: R): R
    requires i <= n <= |filters|
    decreases n - i
  {
    if i == n then r else filters[i].respond(Responded(filters, i + 1, n, r))
  }

  /** How many filters a call enters. */
  function Entered<R>(filters: seq<Filter<R>>, i: nat): (n: nat)
    requires i <= |filters|
    ensures i <= n <= |filters|
  {
    var k := FirstAnswering(filters, i);
    if k < |filters| then k + 1 else k
  }

  /** Left to right into the filters up to the first that answers itself, to the base invoker if
      none does, and back out through exactly the entered filters, last entered first. */
  function Onion<R>(filters: seq<Filter<R>>, i: nat): seq<Event>
    requires i <= |filters|
  {
    Enters(i, Entered(filters, i)) + (if FirstAnswering(filters, i) < |filters| then [] else [CallBase]) +
      Responds(i, Entered(filters, i))
  }

  /** The answer or the base invoker's result, through the OnResponse of the entered filters. */
  function OnionResult<R>(filters: seq<Filter<R>>, i: nat, base: R): R
    requires i <= |filters|
  {
    var k := FirstAnswering(filters, i);
    Responded(filters, i, Entered(filters, i), if k < |filters| then filters[k].answer else base)
  }

  lemma PeelOnion<R>(filters: seq<Filter<R>>, i: nat)
    requires i < |filters|
    ensures Onion(filters, i) == [Enter(i)] + (if filters[i].passes == 0 then [] else Onion(filters, i + 1)) +
              [Respond(i)]
  {
    var k, n := FirstAnswering(filters, i), Entered(filters, i);
    EntersAndResponds(i, n);
    if filters[i].passes == 0 {
      assert Enters(i + 1, n) == [] && Responds(i + 1, n) == [];
    } else {
      Regroup([Enter(i)], Enters(i + 1, n), if k < |filters| then [] else [CallBase], Responds(i + 1, n), [Respond(i)]);
    }
  }

  lemma PeelResult<R>(filters: seq<Filter<R>>, i: nat, base: R)
    requires i < |filters|
    ensures OnionResult(filters, i, base) ==
            filters[i].respond(if filters[i].passes == 0 then filters[i].answer else OnionResult(filters, i + 1, base))
  {
    var n := Entered(filters, i);
    if filters[i].passes == 0 {
      assert Responded(filters, n, n, filters[i].answer) == filters[i].answer;
    }
  }

  /** A call on a chain of filters that each pass on once or answer themselves goes in and out like
      Onion says, with the result OnionResult says. */
  lemma {:induction false} CallRunsLikeAnOnion<R>(filters: seq<Filter<R>>, i: nat, base: R)
    requires i <= |filters| && forall j :: 0 <= j < |filters| ==> filters[j].passes <= 1
    ensures Invoke(ChainOf(filters, i, base)) == (OnionResult(filters, i, base), Onion(filters, i))
    decreases |filters| - i
  {
    if i < |filters| {
      hide Invoke, Onion, OnionResult;
      PeelOnion(filters, i);
      PeelResult(filters, i, base);
      CallRunsLikeAnOnion(filters, i + 1, base);
      UnfoldCall(i, filters[i], ChainOf(filters, i + 1, base));
    } else {
      assert Onion(filters, i) == [CallBase];
    }
  }

  lemma UnfoldCall<R>(i: nat, f: Filter<R>, next: Chain<R>)
    requires f.passes <= 1
    ensures Invoke(Node(i, f, next)).1 == [Enter(i)] + (if f.passes == 0 then [] else Invoke(next).1) + [Respond(i)]
    ensures Invoke(Node(i, f, next)).0 == f.respond(if f.passes == 0 then f.answer else Invoke(next).0)
  {
    var inner := Invoke(next).1;
    assert Repeat(0, inner) == [];
    assert Repeat(1, inner) == Repeat(0, inner) + inner == inner;
  }

  lemma EntersAndResponds(i: nat, n: nat)
    requires i < n
    ensures Enters(i, n) == [Enter(i)] + Enters(i + 1, n)
    ensures Responds(i, n) == Responds(i + 1, n) + [Respond(i)]
  {
  }

  lemma Regroup(a: seq<Event>, b: seq<Event>, c: seq<Event>, d: seq<Event>, e: seq<Event>)
    ensures a + (b + c + d) + e == (a + b) + c + (d + e)
  {
  }

  // ---- brackets ----

  /** One execution of a call: it reaches the base invoker, or a filter that calls on any number of
      times, each of which may go its own way. */
  datatype Call = ToBase | Through(position: nat, calls: seq<Call>)

  function Trace(c: Call): seq<Event> {
    match c
    case ToBase => [CallBase]
    case Through(p, calls) => [Enter(p)] + Traces(calls) + [Respond(p)]
  }

  function Traces(calls: seq<Call>): seq<Event> {
    if calls == [] then [] else Traces(calls[..|calls| - 1]) + Trace(calls[|calls| - 1])
  }

  /** The call goes through the filters from `i` to `n - 1` in order, and ends at the base invoker
      after the last. */
  ghost predicate IsCallOf(c: Call, i: nat, n: nat)
    decreases c
  {
    match c
    case ToBase => i == n
    case Through(p, calls) => p == i < n && forall k :: 0 <= k < |calls| ==> IsCallOf(calls[k], i + 1, n)
  }

  /** The execution that Invoke describes, in which every call on goes the same way. */
  function CallOf<R>(c: Chain<R>): Call {
    match c
    case Base(_) => ToBase
    case Node(p, f, next) => Through(p, seq(f.passes, _ => CallOf(next)))
  }

  lemma {:induction false} InvokeIsACall<R>(filters: seq<Filter<R>>, i: nat, base: R)
    requires i <= |filters|
    ensures var c := ChainOf(filters, i, base);
            Trace(CallOf(c)) == Invoke(c).1 && IsCallOf(CallOf(c), i, |filters|)
    decreases |filters| - i
  {
    if i < |filters| {
      InvokeIsACall(filters, i + 1, base);
      var next := ChainOf(filters, i + 1, base);
      RepeatIsTraces(filters[i].passes, CallOf(next));
    }
  }

  lemma {:induction false} RepeatIsTraces(n: nat, c: Call)
    ensures Traces(seq(n, _ => c)) == Repeat(n, Trace(c))
  {
    if n > 0 {
      RepeatIsTraces(n - 1, c);
      assert seq(n, _ => c)[..n - 1] == seq(n - 1, _ => c);
    }
  }

  function Count(events: seq<Event>, e: Event): nat {
    multiset(events)[e]
  }

  /** However often filters call on and however differently those calls go, every filter responds
      exactly as often as it is entered. */
  lemma {:induction false} EveryEntryIsAnswered(c: Call, p: nat)
    ensures Count(Trace(c), Enter(p)) == Count(Trace(c), Respond(p))
    decreases c, 1
  {
    match c
    case ToBase =>
    case Through(q, calls) =>
      EveryEntryOfAll(calls, p);
      assert Trace(c) == [Enter(q)] + Traces(calls) + [Respond(q)];
  }

  lemma {:induction false} EveryEntryOfAll(calls: seq<Call>, p: nat)
    ensures Count(Traces(calls), Enter(p)) == Count(Traces(calls), Respond(p))
    decreases calls, 0
  {
    if calls != [] {
      EveryEntryOfAll(calls[..|calls| - 1], p);
      EveryEntryIsAnswered(calls[|calls| - 1], p);
    }
  }
}
