/** protocol/rpc_status.go and filter/active/filter.go: the statistics of calls, per URL and per
    method of a URL, as a fold over the history of begun and ended calls. */
module RpcStatus {
  import opened MachineInts

  datatype Event =
    | Begin(key: string, name: string)
    | End(key: string, name: string, elapsed: int, succeeded: bool, now: int)

  datatype Status = Status(
    active: int, failed: int, total: int,
    totalElapsed: int, failedElapsed: int,
    maxElapsed: int, failedMaxElapsed: int, succeededMaxElapsed: int,
    successiveFailures: int, lastFailed: int)

  const ZERO := Status(0, 0, 0, 0, 0, 0, 0, 0, 0, 0)

  function Max(a: int, b: int): int {
    if a < b then b else a
  }

  /** beginCount0 and endCount0. */
  function Counted(s: Status, e: Event): Status {
    match e
    case Begin(_, _) => s.(active := Wrap32(s.active + 1))
    case End(_, _, elapsed, succeeded, now) =>
      var t := s.(active := Wrap32(s.active - 1), total := Wrap32(s.total + 1),
                  totalElapsed := Wrap64(s.totalElapsed + elapsed), maxElapsed := Max(s.maxElapsed, elapsed));
      if succeeded then t.(succeededMaxElapsed := Max(s.succeededMaxElapsed, elapsed), successiveFailures := 0)
      else t.(lastFailed := now, successiveFailures := Wrap32(s.successiveFailures + 1), failed := Wrap32(s.failed + 1),
              failedElapsed := Wrap64(s.failedElapsed + elapsed), failedMaxElapsed := Max(s.failedMaxElapsed, elapsed))
  }

  function Fold(h: seq<Event>): Status {
    if h == [] then ZERO else Counted(Fold(h[..|h| - 1]), h[|h| - 1])
  }

  // ---- what the numbers mean ----

  /** The fields that only ever get added to. */
  datatype Cell = Active | Total | Failed | TotalElapsed | FailedElapsed

  function Read(s: Status, c: Cell): int {
    match c
    case Active => s.active
    case Total => s.total
    case Failed => s.failed
    case TotalElapsed => s.totalElapsed
    case FailedElapsed => s.failedElapsed
  }

  function Wrap(c: Cell, n: int): int {
    if c.TotalElapsed? || c.FailedElapsed? then Wrap64(n) else Wrap32(n)
  }

  /** What an event is worth: a begun call one more active, an ended one less. */
  function Worth(c: Cell, e: Event): int {
    match c
    case Active => if e.Begin? then 1 else -1
    case Total => if e.End? then 1 else 0
    case Failed => if e.End? && !e.succeeded then 1 else 0
    case TotalElapsed => if e.End? then e.elapsed else 0
    case FailedElapsed => if e.End? && !e.succeeded then e.elapsed else 0
  }

  function Sum(h: seq<Event>, c: Cell): int {
    if h == [] then 0 else Sum(h[..|h| - 1], c) + Worth(c, h[|h| - 1])
  }

  lemma FoldStep(h: seq<Event>)
    requires h != []
    ensures Fold(h) == Counted(Fold(h[..|h| - 1]), h[|h| - 1])
  {
    hide Counted;
  }

  lemma FoldOfNone()
    ensures Fold([]) == ZERO
  {
  }

  /** How many calls have failed since the last success. */
  function TrailingFailures(h: seq<Event>): nat {
    if h == [] then 0
    else
      var last, before := h[|h| - 1], h[..|h| - 1];
      if last.Begin? then TrailingFailures(before) else if last.succeeded then 0 else TrailingFailures(before) + 1
  }

  /** The fields that keep a maximum, over all ended calls, the failed or the succeeded ones. */
  datatype Peak = OfAll | OfFailed | OfSucceeded

  function ReadPeak(s: Status, p: Peak): int {
    match p
    case OfAll => s.maxElapsed
    case OfFailed => s.failedMaxElapsed
    case OfSucceeded => s.succeededMaxElapsed
  }

  predicate Counts(e: Event, p: Peak) {
    e.End? && (p.OfAll? || p.OfSucceeded? == e.succeeded)
  }

  /** `m` is the largest elapsed time among the calls that count, but at least 0. */
  ghost predicate IsLargest(m: int, h: seq<Event>, p: Peak) {
    && 0 <= m
    && (forall i :: 0 <= i < |h| && Counts(h[i], p) ==> h[i].elapsed <= m)
    && (m != 0 ==> exists i :: 0 <= i < |h| && Counts(h[i], p) && h[i].elapsed == m)
  }

  predicate Fails(e: Event) {
    e.End? && !e.succeeded
  }

  /** `t` is when the last failed call ended, or 0 if none has failed. */
  ghost predicate IsLastFailure(t: int, h: seq<Event>) {
    if exists i :: 0 <= i < |h| && Fails(h[i]) then
      exists i :: 0 <= i < |h| && Fails(h[i]) && h[i].now == t && forall j :: i < j < |h| ==> !Fails(h[j])
    else t == 0
  }

  lemma {:induction false} LastFailureIsKept(h: seq<Event>)
    ensures IsLastFailure(Fold(h).lastFailed, h)
    decreases h
  {
    hide Fold;
    if h == [] {
      FoldOfNone();
    } else {
      var before := h[..|h| - 1];
      FoldStep(h);
      LastFailureIsKept(before);
      if Fails(h[|h| - 1]) {
        assert h[|h| - 1].now == Fold(h).lastFailed;
      } else {
        assert forall i :: 0 <= i < |before| ==> before[i] == h[i];
        if exists i :: 0 <= i < |h| && Fails(h[i]) {
          var i :| 0 <= i < |h| && Fails(h[i]);
          assert Fails(before[i]);
          var k :| 0 <= k < |before| && Fails(before[k]) && before[k].now == Fold(h).lastFailed &&
            forall j :: k < j < |before| ==> !Fails(before[j]);
          assert Fails(h[k]);
        }
      }
    }
  }

  /** Every counter is the sum over the history, in its own width. */
  lemma {:induction false} CountersAreSums(h: seq<Event>, c: Cell)
    ensures Read(Fold(h), c) == Wrap(c, Sum(h, c))
    decreases h
  {
    hide Wrap, Counted, Fold, Worth;
    if h == [] {
      FoldOfNone();
      ZeroWraps(c);
    } else {
      var before, last := h[..|h| - 1], h[|h| - 1];
      CountersAreSums(before, c);
      FoldStep(h);
      CounterStep(Fold(before), last, c, Sum(before, c));
    }
  }

  lemma ZeroWraps(c: Cell)
    ensures Wrap(c, 0) == 0
  {
  }

  lemma WrapAdds(c: Cell, a: int, b: int)
    ensures Wrap(c, Wrap(c, a) + b) == Wrap(c, a + b)
  {
    WrapsAdd(a, b);
  }

  lemma CounterStep(s: Status, e: Event, c: Cell, sum: int)
    requires Read(s, c) == Wrap(c, sum)
    ensures Read(Counted(s, e), c) == Wrap(c, sum + Worth(c, e))
  {
    WrapAdds(c, sum, Worth(c, e));
    hide Wrap32, Wrap64;
  }

  lemma {:induction false} SuccessiveFailuresTrail(h: seq<Event>)
    ensures Fold(h).successiveFailures == Wrap32(TrailingFailures(h))
    decreases h
  {
    hide Fold, Wrap32, Wrap64;
    if h == [] {
      FoldOfNone();
      ZeroWraps(Failed);
    } else {
      var before, last := h[..|h| - 1], h[|h| - 1];
      SuccessiveFailuresTrail(before);
      FoldStep(h);
      ZeroWraps(Failed);
      WrapAdds(Failed, TrailingFailures(before), 1);
    }
  }

  lemma {:induction false} MaximaAreLargest(h: seq<Event>, p: Peak)
    ensures IsLargest(ReadPeak(Fold(h), p), h, p)
    decreases h
  {
    hide Wrap32, Wrap64, IsLargest, Fold;
    if h == [] {
      FoldOfNone();
      LargestOfNone(p);
    } else {
      var before, last := h[..|h| - 1], h[|h| - 1];
      assert h == before + [last];
      FoldStep(h);
      MaximaAreLargest(before, p);
      LargestStep(ReadPeak(Fold(before), p), before, last, p);
    }
  }

  lemma LargestOfNone(p: Peak)
    ensures IsLargest(0, [], p)
  {
  }

  lemma LargestStep(m: int, h: seq<Event>, e: Event, p: Peak)
    requires IsLargest(m, h, p)
    ensures IsLargest(if Counts(e, p) then Max(m, e.elapsed) else m, h + [e], p)
  {
    var m' := if Counts(e, p) then Max(m, e.elapsed) else m;
    if m' != 0 {
      if m' == m {
        var i :| 0 <= i < |h| && Counts(h[i], p) && h[i].elapsed == m;
        assert (h + [e])[i] == h[i];
      } else {
        assert (h + [e])[|h|] == e;
      }
    }
  }

  // ---- the tables: one status per URL key, and one per method of it ----

  datatype Id = OfUrl(key: string) | OfMethod(key: string, name: string)

  predicate Touches(e: Event, id: Id) {
    e.key == id.key && (id.OfUrl? || e.name == id.name)
  }

  function Concerning(h: seq<Event>, id: Id): seq<Event> {
    if h == [] then []
    else Concerning(h[..|h| - 1], id) + if Touches(h[|h| - 1], id) then [h[|h| - 1]] else []
  }

  /** BeginCount and EndCount: both statuses of the call are made if missing, and updated. */
  function Recorded(t: map<Id, Status>, e: Event): map<Id, Status> {
    Updated(Updated(t, OfUrl(e.key), e), OfMethod(e.key, e.name), e)
  }

  function Updated(t: map<Id, Status>, id: Id, e: Event): map<Id, Status> {
    t[id := Counted(if id in t then t[id] else ZERO, e)]
  }

  function Table(h: seq<Event>): map<Id, Status> {
    if h == [] then map[] else Recorded(Table(h[..|h| - 1]), h[|h| - 1])
  }

  /** Each status is the fold of exactly the calls that concern it. */
  lemma {:induction false} TableIsFold(h: seq<Event>, id: Id)
    ensures id in Table(h) <==> Concerning(h, id) != []
    ensures id in Table(h) ==> Table(h)[id] == Fold(Concerning(h, id))
    decreases h
  {
    hide Counted, Fold, Recorded, Touches;
    if h != [] {
      var before, last := h[..|h| - 1], h[|h| - 1];
      TableIsFold(before, id);
      RecordedAt(Table(before), last, id);
      var c := Concerning(before, id);
      if Touches(last, id) {
        assert (c + [last])[..|c|] == c && Concerning(h, id) == c + [last];
        FoldStep(c + [last]);
        FoldOfNone();
      } else {
        assert Concerning(h, id) == c + [] == c;
      }
    }
  }

  lemma RecordedAt(t: map<Id, Status>, e: Event, id: Id)
    ensures id in Recorded(t, e) <==> id in t || Touches(e, id)
    ensures Touches(e, id) ==> Recorded(t, e)[id] == Counted(if id in t then t[id] else ZERO, e)
    ensures !Touches(e, id) && id in t ==> Recorded(t, e)[id] == t[id]
  {
    hide Counted;
  }

  // ---- a URL is the aggregate of its methods ----

  /** The sum over the methods of `ms` of what the history of each adds up to. */
  function SumOver(ms: seq<string>, h: seq<Event>, key: string, c: Cell): int {
    if ms == [] then 0
    else SumOver(ms[..|ms| - 1], h, key, c) + Sum(Concerning(h, OfMethod(key, ms[|ms| - 1])), c)
  }

  ghost predicate Distinct(ms: seq<string>) {
    forall i, j :: 0 <= i < j < |ms| ==> ms[i] != ms[j]
  }

  /** `ms` lists every method called on the URL once. */
  ghost predicate Lists(ms: seq<string>, h: seq<Event>, key: string) {
    Distinct(ms) && forall i :: 0 <= i < |h| && h[i].key == key ==> h[i].name in ms
  }

  lemma SumConcerning(h: seq<Event>, e: Event, id: Id, c: Cell)
    ensures Sum(Concerning(h + [e], id), c) == Sum(Concerning(h, id), c) + if Touches(e, id) then Worth(c, e) else 0
  {
    hide Worth;
    assert (h + [e])[..|h|] == h && (h + [e])[|h|] == e;
    var d := Concerning(h, id);
    assert (d + [e])[..|d|] == d && d + [] == d;
    assert Sum(d + [e], c) == Sum(d, c) + Worth(c, e);
  }

  lemma {:induction false} SumOverStep(ms: seq<string>, h: seq<Event>, e: Event, key: string, c: Cell)
    requires Distinct(ms)
    ensures SumOver(ms, h + [e], key, c) ==
            SumOver(ms, h, key, c) + if e.key == key && e.name in ms then Worth(c, e) else 0
    decreases ms
  {
    hide Worth, Sum, Concerning;
    if ms != [] {
      var rest, m := ms[..|ms| - 1], ms[|ms| - 1];
      SumOverStep(rest, h, e, key, c);
      SumConcerning(h, e, OfMethod(key, m), c);
      assert ms == rest + [m];
    }
  }

  lemma {:induction false} SumOverNone(ms: seq<string>, key: string, c: Cell)
    ensures SumOver(ms, [], key, c) == 0
    decreases ms
  {
    if ms != [] {
      SumOverNone(ms[..|ms| - 1], key, c);
    }
  }

  lemma {:induction false} UrlIsSumOfMethods(ms: seq<string>, h: seq<Event>, key: string, c: Cell)
    requires Lists(ms, h, key)
    ensures Sum(Concerning(h, OfUrl(key)), c) == SumOver(ms, h, key, c)
    decreases h
  {
    hide Worth, SumOver;
    if h == [] {
      SumOverNone(ms, key, c);
    } else {
      hide Sum, Concerning;
      var before, last := h[..|h| - 1], h[|h| - 1];
      assert h == before + [last];
      UrlIsSumOfMethods(ms, before, key, c);
      SumConcerning(before, last, OfUrl(key), c);
      SumOverStep(ms, before, last, key, c);
    }
  }

  /** The counters stored for the methods of `ms`, added up. */
  function SumStored(ms: seq<string>, t: map<Id, Status>, key: string, c: Cell): int {
    if ms == [] then 0
    else
      var id := OfMethod(key, ms[|ms| - 1]);
      SumStored(ms[..|ms| - 1], t, key, c) + if id in t then Read(t[id], c) else 0
  }

  lemma {:induction false} StoredWrapsSum(ms: seq<string>, h: seq<Event>, key: string, c: Cell)
    ensures Wrap(c, SumStored(ms, Table(h), key, c)) == Wrap(c, SumOver(ms, h, key, c))
    decreases ms
  {
    hide Wrap, Worth, Table, Concerning, Read;
    if ms != [] {
      var rest, id := ms[..|ms| - 1], OfMethod(key, ms[|ms| - 1]);
      var a, b := SumStored(rest, Table(h), key, c), SumOver(rest, h, key, c);
      var part := Sum(Concerning(h, id), c);
      StoredWrapsSum(rest, h, key, c);
      StoredIsWrapped(h, id, c);
      var stored := if id in Table(h) then Read(Table(h)[id], c) else 0;
      WrapAdds(c, a, stored);
      WrapAdds(c, b, stored);
      WrapAdds(c, part, b);
    }
  }

  lemma StoredIsWrapped(h: seq<Event>, id: Id, c: Cell)
    ensures (if id in Table(h) then Read(Table(h)[id], c) else 0) == Wrap(c, Sum(Concerning(h, id), c))
  {
    hide Wrap, Worth, Table, Concerning;
    TableIsFold(h, id);
    CountersAreSums(Concerning(h, id), c);
    ZeroWraps(c);
  }

  /** After any history the counters of a URL are those of its methods added up, in their width. */
  lemma UrlAggregatesMethods(ms: seq<string>, h: seq<Event>, key: string, c: Cell)
    requires Lists(ms, h, key) && OfUrl(key) in Table(h)
    ensures Read(Table(h)[OfUrl(key)], c) == Wrap(c, SumStored(ms, Table(h), key, c))
  {
    hide Wrap, Worth, Table, Concerning, Read, SumStored, SumOver;
    StoredIsWrapped(h, OfUrl(key), c);
    UrlIsSumOfMethods(ms, h, key, c);
    StoredWrapsSum(ms, h, key, c);
  }

  lemma {:induction false} ConcerningHas(h: seq<Event>, id: Id, e: Event)
    ensures e in Concerning(h, id) <==> e in h && Touches(e, id)
    decreases h
  {
    if h != [] {
      ConcerningHas(h[..|h| - 1], id, e);
      assert h == h[..|h| - 1] + [h[|h| - 1]];
    }
  }

  lemma LargestOfMore(m: int, n: int, h: seq<Event>, more: seq<Event>, p: Peak)
    requires IsLargest(m, h, p) && IsLargest(n, more, p) && forall e :: e in h ==> e in more
    ensures m <= n
  {
    if m != 0 {
      var i :| 0 <= i < |h| && Counts(h[i], p) && h[i].elapsed == m;
      assert h[i] in more;
    }
  }

  /** And each of its maxima is the largest of its methods'. */
  lemma UrlMaximaAreOfMethods(h: seq<Event>, key: string, p: Peak)
    requires OfUrl(key) in Table(h)
    ensures forall m :: OfMethod(key, m) in Table(h) ==>
              ReadPeak(Table(h)[OfMethod(key, m)], p) <= ReadPeak(Table(h)[OfUrl(key)], p)
    ensures exists m :: OfMethod(key, m) in Table(h) &&
              ReadPeak(Table(h)[OfMethod(key, m)], p) == ReadPeak(Table(h)[OfUrl(key)], p)
  {
    hide Table, Fold, IsLargest, Concerning, ReadPeak;
    var t, url := Table(h), OfUrl(key);
    forall m | OfMethod(key, m) in t ensures ReadPeak(t[OfMethod(key, m)], p) <= ReadPeak(t[url], p) {
      MethodMaximumIsBelow(h, key, m, p);
    }
    var m := HasMaximum(h, key, p);
    MethodMaximumIsBelow(h, key, m, p);
    assert OfMethod(key, m) in t && ReadPeak(t[OfMethod(key, m)], p) == ReadPeak(t[url], p);
  }

  lemma MethodMaximumIsBelow(h: seq<Event>, key: string, m: string, p: Peak)
    requires OfUrl(key) in Table(h) && OfMethod(key, m) in Table(h)
    ensures ReadPeak(Table(h)[OfMethod(key, m)], p) <= ReadPeak(Table(h)[OfUrl(key)], p)
  {
    hide Table, Fold, IsLargest, Concerning, ReadPeak;
    var url, one := OfUrl(key), OfMethod(key, m);
    TableIsFold(h, url);
    TableIsFold(h, one);
    var us, ms := Concerning(h, url), Concerning(h, one);
    MaximaAreLargest(us, p);
    MaximaAreLargest(ms, p);
    forall e | e in ms ensures e in us {
      ConcerningHas(h, one, e);
      ConcerningHas(h, url, e);
    }
    LargestOfMore(ReadPeak(Fold(ms), p), ReadPeak(Fold(us), p), ms, us, p);
  }

  /** A method of the URL whose maximum is at least that of the URL. */
  lemma HasMaximum(h: seq<Event>, key: string, p: Peak) returns (m: string)
    requires OfUrl(key) in Table(h)
    ensures OfMethod(key, m) in Table(h) && ReadPeak(Table(h)[OfUrl(key)], p) <= ReadPeak(Table(h)[OfMethod(key, m)], p)
  {
    hide Table, Fold, Concerning, ReadPeak;
    TableIsFold(h, OfUrl(key));
    var us := Concerning(h, OfUrl(key));
    MaximaAreLargest(us, p);
    var largest := ReadPeak(Fold(us), p);
    var e := us[0];
    if largest != 0 {
      var i :| 0 <= i < |us| && Counts(us[i], p) && us[i].elapsed == largest;
      e := us[i];
    }
    m := e.name;
    ConcerningHas(h, OfUrl(key), e);
    ConcerningHas(h, OfMethod(key, m), e);
    TableIsFold(h, OfMethod(key, m));
    MaximaAreLargest(Concerning(h, OfMethod(key, m)), p);
  }

  // ---- concurrent calls: the additions are atomic, the calls are not ----

  datatype Add = Add(id: Id, cell: Cell, delta: int)

  function StatusAdds(e: Event, id: Id): seq<Add> {
    match e
    case Begin(_, _) => [Add(id, Active, 1)]
    case End(_, _, elapsed, succeeded, _) =>
      [Add(id, Active, -1), Add(id, Total, 1), Add(id, TotalElapsed, elapsed)] +
      if succeeded then [] else [Add(id, Failed, 1), Add(id, FailedElapsed, elapsed)]
  }

  /** All atomic additions of the calls, call by call, the URL's before the method's. */
  function Adds(h: seq<Event>): seq<Add> {
    if h == [] then []
    else
      var e := h[|h| - 1];
      Adds(h[..|h| - 1]) + (StatusAdds(e, OfUrl(e.key)) + StatusAdds(e, OfMethod(e.key, e.name)))
  }

  /** A counter after atomic additions in this order. */
  function Value(run: seq<Add>, id: Id, c: Cell): int {
    if run == [] then 0
    else
      var a, v := run[|run| - 1], Value(run[..|run| - 1], id, c);
      if a.id == id && a.cell == c then Wrap(c, v + a.delta) else v
  }

  function Delta(a: Add, id: Id, c: Cell): int {
    if a.id == id && a.cell == c then a.delta else 0
  }

  function Deltas(run: seq<Add>, id: Id, c: Cell): int {
    if run == [] then 0 else Deltas(run[..|run| - 1], id, c) + Delta(run[|run| - 1], id, c)
  }

  lemma {:induction false} ValueWrapsDeltas(run: seq<Add>, id: Id, c: Cell)
    ensures Value(run, id, c) == Wrap(c, Deltas(run, id, c))
    decreases run
  {
    hide Wrap;
    if run == [] {
      ZeroWraps(c);
    } else {
      var before, a := run[..|run| - 1], run[|run| - 1];
      ValueWrapsDeltas(before, id, c);
      WrapAdds(c, Deltas(before, id, c), a.delta);
    }
  }

  lemma {:induction false} DeltasConcat(a: seq<Add>, b: seq<Add>, id: Id, c: Cell)
    ensures Deltas(a + b, id, c) == Deltas(a, id, c) + Deltas(b, id, c)
    decreases b
  {
    hide Delta;
    if b == [] {
      assert a + b == a;
    } else {
      DeltasConcat(a, b[..|b| - 1], id, c);
      assert (a + b)[..|a + b| - 1] == a + b[..|b| - 1];
    }
  }

  lemma {:induction false} DeltasIgnoreOrder(a: seq<Add>, b: seq<Add>, id: Id, c: Cell)
    requires multiset(a) == multiset(b)
    ensures Deltas(a, id, c) == Deltas(b, id, c)
    decreases a
  {
    hide Delta, Deltas;
    if a == [] {
      assert |b| == |multiset(b)| == 0;
    } else {
      assert a[0] in multiset(b);
      var i :| 0 <= i < |b| && b[i] == a[0];
      TakeOut(a, 0, id, c);
      TakeOut(b, i, id, c);
      DeltasIgnoreOrder(a[..0] + a[1..], b[..i] + b[i + 1..], id, c);
    }
  }

  lemma TakeOut(b: seq<Add>, i: nat, id: Id, c: Cell)
    requires i < |b|
    ensures multiset(b[..i] + b[i + 1..]) == multiset(b) - multiset{b[i]}
    ensures Deltas(b, id, c) == Deltas(b[..i] + b[i + 1..], id, c) + Delta(b[i], id, c)
  {
    hide Delta, Deltas;
    var l, x, r := b[..i], b[i], b[i + 1..];
    assert b == l + ([x] + r);
    DeltasConcat(l, [x] + r, id, c);
    DeltasConcat([x], r, id, c);
    DeltasConcat(l, r, id, c);
    OneDelta(x, id, c);
  }

  lemma OneDelta(x: Add, id: Id, c: Cell)
    ensures Deltas([x], id, c) == Delta(x, id, c)
  {
    assert [x][..0] == [];
  }

  lemma StatusDeltas(e: Event, on: Id, id: Id, c: Cell)
    ensures Deltas(StatusAdds(e, on), id, c) == if on == id then Worth(c, e) else 0
  {
    match e
    case Begin(_, _) =>
      OneDelta(Add(on, Active, 1), id, c);
    case End(_, _, elapsed, succeeded, _) =>
      var x, y, z := Add(on, Active, -1), Add(on, Total, 1), Add(on, TotalElapsed, elapsed);
      ThreeDeltas(x, y, z, id, c);
      if !succeeded {
        var f, g := Add(on, Failed, 1), Add(on, FailedElapsed, elapsed);
        TwoDeltas(f, g, id, c);
        DeltasConcat([x, y, z], [f, g], id, c);
      } else {
        assert StatusAdds(e, on) == [x, y, z];
      }
  }

  lemma TwoDeltas(x: Add, y: Add, id: Id, c: Cell)
    ensures Deltas([x, y], id, c) == Delta(x, id, c) + Delta(y, id, c)
  {
    OneDelta(x, id, c);
    assert [x, y][..1] == [x];
  }

  lemma ThreeDeltas(x: Add, y: Add, z: Add, id: Id, c: Cell)
    ensures Deltas([x, y, z], id, c) == Delta(x, id, c) + Delta(y, id, c) + Delta(z, id, c)
  {
    TwoDeltas(x, y, id, c);
    assert [x, y, z][..2] == [x, y];
  }

  lemma {:induction false} AddsAddUp(h: seq<Event>, id: Id, c: Cell)
    ensures Deltas(Adds(h), id, c) == Sum(Concerning(h, id), c)
    decreases h
  {
    hide Worth, StatusAdds, Deltas, Concerning, Sum;
    if h == [] {
      NothingAddsUp(id, c);
    } else {
      var before, e := h[..|h| - 1], h[|h| - 1];
      assert h == before + [e];
      AddsAddUp(before, id, c);
      SumConcerning(before, e, id, c);
      var u, m := StatusAdds(e, OfUrl(e.key)), StatusAdds(e, OfMethod(e.key, e.name));
      StatusDeltas(e, OfUrl(e.key), id, c);
      StatusDeltas(e, OfMethod(e.key, e.name), id, c);
      DeltasConcat(u, m, id, c);
      DeltasConcat(Adds(before), u + m, id, c);
    }
  }

  lemma NothingAddsUp(id: Id, c: Cell)
    ensures Deltas([], id, c) == 0 == Sum(Concerning([], id), c)
  {
  }

  /** However the atomic additions of concurrent calls interleave, when all are done every counter
      is that of the calls made one after the other. */
  lemma EveryInterleavingCounts(run: seq<Add>, h: seq<Event>, id: Id, c: Cell)
    requires multiset(run) == multiset(Adds(h))
    ensures Value(run, id, c) == Read(Fold(Concerning(h, id)), c)
  {
    hide Wrap, Worth, Adds, Deltas, Concerning, Sum, Fold, Value, Read;
    ValueWrapsDeltas(run, id, c);
    DeltasIgnoreOrder(run, Adds(h), id, c);
    AddsAddUp(h, id, c);
    CountersAreSums(Concerning(h, id), c);
  }

  // ---- the maxima are tested and stored in two steps ----

  datatype MaxStep = Test(elapsed: int, call: nat) | Store(elapsed: int, call: nat)

  /** The maximum and the calls that will store. */
  function MaxAfter(run: seq<MaxStep>): (int, set<nat>) {
    if run == [] then (0, {})
    else
      var (m, storing) := MaxAfter(run[..|run| - 1]);
      match run[|run| - 1]
      case Test(elapsed, call) => (m, if m < elapsed then storing + {call} else storing - {call})
      case Store(elapsed, call) => (if call in storing then elapsed else m, storing)
  }

  /** In any interleaving the maximum is 0 or the time of some call. */
  lemma {:induction false} MaximumIsSomeTime(run: seq<MaxStep>)
    ensures MaxAfter(run).0 == 0 || exists i :: 0 <= i < |run| && run[i].Store? && run[i].elapsed == MaxAfter(run).0
    decreases run
  {
    if run != [] {
      var before, last := run[..|run| - 1], run[|run| - 1];
      MaximumIsSomeTime(before);
      if last.Store? && last.call in MaxAfter(before).1 {
        assert run[|run| - 1].elapsed == MaxAfter(run).0;
      } else if MaxAfter(run).0 != 0 {
        var i :| 0 <= i < |before| && before[i].Store? && before[i].elapsed == MaxAfter(before).0;
        assert run[i] == before[i];
      }
    }
  }

  /** But the longer of two overlapping calls can be overwritten by the shorter. */
  lemma MaximumCanBeLost(longer: int, shorter: int)
    requires 0 < shorter < longer
    ensures MaxAfter([Test(longer, 0), Test(shorter, 1), Store(longer, 0), Store(shorter, 1)]).0 == shorter
  {
    var a, b, c, d := Test(longer, 0), Test(shorter, 1), Store(longer, 0), Store(shorter, 1);
    assert [a, b, c, d][..3] == [a, b, c] && [a, b, c][..2] == [a, b] && [a, b][..1] == [a] && [a][..0] == [];
    assert MaxAfter([a]).0 == 0 && MaxAfter([a]).1 == {0};
    assert MaxAfter([a, b]).0 == 0 && MaxAfter([a, b]).1 == {0, 1};
    assert MaxAfter([a, b, c]).1 == {0, 1};
  }

  /** Every call tests once, and stores only after its own test. */
  ghost predicate WellFormed(run: seq<MaxStep>) {
    && (forall i, j :: 0 <= i < j < |run| && run[i].Test? && run[j].Test? ==> run[i].call != run[j].call)
    && (forall k :: 0 <= k < |run| && run[k].Store? ==> TestOf(run, k))
  }

  ghost predicate TestOf(run: seq<MaxStep>, k: nat)
    requires k < |run|
  {
    exists i :: 0 <= i < k && run[i] == Test(run[k].elapsed, run[k].call)
  }

  /** A shorter call, which no stored time kept from passing its test, tests before and stores after
      the store of a longer one. */
  predicate Inverted(run: seq<MaxStep>, i: nat, j: nat, k: nat)
    requires i < j < k < |run|
  {
    && run[k].Store? && run[i] == Test(run[k].elapsed, run[k].call)
    && run[j].Store? && 0 < run[k].elapsed < run[j].elapsed
    && forall l :: 0 <= l < i && run[l].Store? ==> run[l].elapsed < run[k].elapsed
  }

  ghost predicate NoInversion(run: seq<MaxStep>) {
    forall i, j, k :: 0 <= i < j < k < |run| ==> !Inverted(run, i, j, k)
  }

  lemma WellFormedPrefix(run: seq<MaxStep>, n: nat)
    requires WellFormed(run) && n <= |run|
    ensures WellFormed(run[..n]) && (NoInversion(run) ==> NoInversion(run[..n]))
  {
    var part := run[..n];
    forall k | 0 <= k < |part| && part[k].Store? ensures TestOf(part, k) {
      assert TestOf(run, k);
      var i :| 0 <= i < k && run[i] == Test(run[k].elapsed, run[k].call);
      assert part[i] == Test(part[k].elapsed, part[k].call);
    }
    if NoInversion(run) {
      forall i, j, k | 0 <= i < j < k < |part| ensures !Inverted(part, i, j, k) {
        assert !Inverted(run, i, j, k);
      }
    }
  }

  lemma MaxStepped(run: seq<MaxStep>)
    requires run != []
    ensures var n := |run| - 1;
            var (m, storing) := MaxAfter(run[..n]);
            && (run[n].Test? ==> MaxAfter(run).0 == m)
            && (run[n].Store? ==> MaxAfter(run).0 == if run[n].call in storing then run[n].elapsed else m)
  {
  }

  /** A call is going to store exactly if its time was above the maximum at its test. */
  lemma {:induction false} StoringMeansAbove(run: seq<MaxStep>, i: nat)
    requires i < |run| && run[i].Test?
    requires forall j :: i < j < |run| && run[j].Test? ==> run[j].call != run[i].call
    ensures run[i].call in MaxAfter(run).1 <==> MaxAfter(run[..i]).0 < run[i].elapsed
    decreases run
  {
    var n := |run| - 1;
    if i < n {
      StoringMeansAbove(run[..n], i);
      assert run[..n][..i] == run[..i];
    }
  }

  ghost predicate BoundsStores(run: seq<MaxStep>, m: int) {
    0 <= m && forall k :: 0 <= k < |run| && run[k].Store? ==> run[k].elapsed <= m
  }

  lemma NothingStored()
    ensures BoundsStores([], MaxAfter([]).0)
  {
  }

  /** A call that passed its test at `i` and stores last is at least as long as all that stored. */
  lemma StoreIsLargest(run: seq<MaxStep>, i: nat)
    requires NoInversion(run) && i < |run| - 1
    requires run[|run| - 1].Store? && run[i] == Test(run[|run| - 1].elapsed, run[|run| - 1].call)
    requires BoundsStores(run[..i], MaxAfter(run[..i]).0) && MaxAfter(run[..i]).0 < run[|run| - 1].elapsed
    ensures BoundsStores(run, run[|run| - 1].elapsed) && MaxAfter(run[..|run| - 1]).0 <= run[|run| - 1].elapsed
  {
    hide MaxAfter;
    var n := |run| - 1;
    forall k | 0 <= k < |run| && run[k].Store? ensures run[k].elapsed <= run[n].elapsed {
      if k < i {
        assert run[..i][k] == run[k];
      } else if i < k < n {
        assert forall l :: 0 <= l < i ==> run[..i][l] == run[l];
        assert !Inverted(run, i, k, n);
      }
    }
    MaximumIsSomeTime(run[..n]);
    if MaxAfter(run[..n]).0 != 0 {
      var k :| 0 <= k < n && run[..n][k].Store? && run[..n][k].elapsed == MaxAfter(run[..n]).0;
      assert run[k].Store?;
    }
  }

  lemma BoundsMore(run: seq<MaxStep>, m: int)
    requires run != [] && BoundsStores(run[..|run| - 1], m) && (run[|run| - 1].Store? ==> run[|run| - 1].elapsed <= m)
    ensures BoundsStores(run, m)
  {
    var n := |run| - 1;
    assert forall k :: 0 <= k < n ==> run[..n][k] == run[k];
  }

  /** With no inverted calls the maximum never falls and bounds every stored time, however else the
      calls overlap. */
  lemma {:induction false} MaximumIsLargest(run: seq<MaxStep>)
    requires WellFormed(run) && NoInversion(run)
    ensures BoundsStores(run, MaxAfter(run).0)
    ensures forall n :: 0 <= n <= |run| ==> MaxAfter(run[..n]).0 <= MaxAfter(run).0
    decreases run
  {
    hide MaxAfter, NoInversion, BoundsStores;
    if run == [] {
      NothingStored();
      assert forall n :: 0 <= n <= |run| ==> run[..n] == run;
    } else {
      var n := |run| - 1;
      var before := run[..n];
      WellFormedPrefix(run, n);
      MaximumIsLargest(before);
      MaxStepped(run);
      if run[n].Store? {
        assert TestOf(run, n);
        var i :| 0 <= i < n && run[i] == Test(run[n].elapsed, run[n].call);
        assert before[i] == run[i] && before[..i] == run[..i];
        StoringMeansAbove(before, i);
        assert MaxAfter(before[..i]).0 <= MaxAfter(before).0;
        if run[n].call in MaxAfter(before).1 {
          WellFormedPrefix(run, i);
          MaximumIsLargest(run[..i]);
          StoreIsLargest(run, i);
        } else {
          BoundsMore(run, MaxAfter(before).0);
        }
      } else {
        BoundsMore(run, MaxAfter(before).0);
      }
      NeverFell(run);
    }
  }

  lemma NeverFell(run: seq<MaxStep>)
    requires run != []
    requires var before := run[..|run| - 1];
             forall l :: 0 <= l <= |before| ==> MaxAfter(before[..l]).0 <= MaxAfter(before).0
    requires MaxAfter(run[..|run| - 1]).0 <= MaxAfter(run).0
    ensures forall l :: 0 <= l <= |run| ==> MaxAfter(run[..l]).0 <= MaxAfter(run).0
  {
    hide MaxAfter;
    var before := run[..|run| - 1];
    forall l | 0 <= l <= |run| ensures MaxAfter(run[..l]).0 <= MaxAfter(run).0 {
      if l <= |before| {
        assert before[..l] == run[..l];
      } else {
        assert run[..l] == run;
      }
    }
  }

  ghost predicate LargestSoFar(run: seq<MaxStep>) {
    forall n :: 0 <= n <= |run| ==> BoundsStores(run[..n], MaxAfter(run[..n]).0)
  }

  /** An inversion makes the maximum fall below a stored time: at its store, or before. */
  lemma InversionLoses(run: seq<MaxStep>, i: nat, j: nat, k: nat)
    requires WellFormed(run) && i < j < k < |run| && Inverted(run, i, j, k)
    ensures !LargestSoFar(run)
  {
    hide MaxAfter;
    var upToK := run[..k + 1];
    assert upToK[..k] == run[..k] && run[..k][i] == run[i] && run[..k][..i] == run[..i];
    MaxStepped(upToK);
    MaximumIsSomeTime(run[..i]);
    if MaxAfter(run[..i]).0 != 0 {
      var l :| 0 <= l < i && run[..i][l].Store? && run[..i][l].elapsed == MaxAfter(run[..i]).0;
      assert run[l].Store? && run[l].elapsed < run[k].elapsed;
    }
    assert forall l :: i < l < k && run[..k][l].Test? ==> run[l].call != run[i].call;
    StoringMeansAbove(run[..k], i);
    assert upToK[j] == run[j] && MaxAfter(run[..k + 1]).0 == run[k].elapsed;
    assert !BoundsStores(upToK, MaxAfter(run[..k + 1]).0);
  }

  /** At every moment of a run the maximum is at least every time stored so far, if and only if no
      calls are inverted. */
  lemma LargestAtEveryMoment(run: seq<MaxStep>)
    requires WellFormed(run)
    ensures LargestSoFar(run) <==> NoInversion(run)
  {
    hide MaxAfter, BoundsStores, WellFormed;
    if NoInversion(run) {
      forall n | 0 <= n <= |run| ensures BoundsStores(run[..n], MaxAfter(run[..n]).0) {
        WellFormedPrefix(run, n);
        MaximumIsLargest(run[..n]);
      }
    } else {
      var i, j, k :| 0 <= i < j < k < |run| && Inverted(run, i, j, k);
      InversionLoses(run, i, j, k);
    }
  }

  lemma {:induction false} ZeroUntilStored(run: seq<MaxStep>)
    requires forall k :: 0 <= k < |run| ==> run[k].Test?
    ensures MaxAfter(run).0 == 0
    decreases run
  {
    if run != [] {
      ZeroUntilStored(run[..|run| - 1]);
      MaxStepped(run);
    }
  }

  lemma {:induction false} UnchangedAfter(run: seq<MaxStep>, n: nat)
    requires n <= |run| && forall k :: n <= k < |run| ==> run[k].Test?
    ensures MaxAfter(run).0 == MaxAfter(run[..n]).0
    decreases run
  {
    hide MaxAfter;
    if n == |run| {
      assert run[..n] == run;
    } else {
      MaxStepped(run);
      UnchangedAfter(run[..|run| - 1], n);
      assert run[..|run| - 1][..n] == run[..n];
    }
  }

  /** If the only two stores are inverted, the longer time is lost. */
  lemma InvertedPairLoses(run: seq<MaxStep>, i: nat, j: nat, k: nat)
    requires WellFormed(run) && i < j < k < |run| && Inverted(run, i, j, k)
    requires forall l :: 0 <= l < |run| && run[l].Store? ==> l == j || l == k
    ensures MaxAfter(run).0 == run[k].elapsed < run[j].elapsed
  {
    hide MaxAfter;
    var upToK := run[..k + 1];
    UnchangedAfter(run, k + 1);
    MaxStepped(upToK);
    assert upToK[..k] == run[..k];
    assert run[..k][i] == run[i] && run[..k][..i] == run[..i];
    StoringMeansAbove(run[..k], i);
    ZeroUntilStored(run[..i]);
  }

  /** For two calls the condition is exact. */
  lemma TwoStoresExactly(run: seq<MaxStep>, j: nat, k: nat)
    requires WellFormed(run) && j < k < |run| && run[j].Store? && run[k].Store?
    requires forall l :: 0 <= l < |run| && run[l].Store? ==> l == j || l == k
    ensures run[j].elapsed <= MaxAfter(run).0 && run[k].elapsed <= MaxAfter(run).0 <==> NoInversion(run)
  {
    hide MaxAfter, WellFormed;
    if NoInversion(run) {
      MaximumIsLargest(run);
    } else {
      var a, b, c :| 0 <= a < b < c < |run| && Inverted(run, a, b, c);
      InvertedPairLoses(run, a, b, c);
    }
  }
}
