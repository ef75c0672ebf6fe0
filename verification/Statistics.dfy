/** The status objects of protocol/rpc_status.go, and the active filter that counts calls
    (filter/active/filter.go). */
module Statistics {
  import opened MachineInts
  import opened RpcStatus
  import FilterChain

  class RPCStatus {
    var active: int
    var failed: int
    var total: int
    var totalElapsed: int
    var failedElapsed: int
    var maxElapsed: int
    var failedMaxElapsed: int
    var succeededMaxElapsed: int
    var successiveRequestFailureCount: int
    var lastRequestFailedTimestamp: int

    ghost function View(): Status
      reads this
    {
      Status(active, failed, total, totalElapsed, failedElapsed, maxElapsed, failedMaxElapsed, succeededMaxElapsed,
             successiveRequestFailureCount, lastRequestFailedTimestamp)
    }

    constructor ()
      ensures View() == ZERO
    {
      active, failed, total, totalElapsed, failedElapsed := 0, 0, 0, 0, 0;
      maxElapsed, failedMaxElapsed, succeededMaxElapsed := 0, 0, 0;
      successiveRequestFailureCount, lastRequestFailedTimestamp := 0, 0;
    }

    method BeginCount0()
      modifies this
      ensures forall key, name :: View() == Counted(old(View()), Begin(key, name))
    {
      hide Wrap32;
      active := Wrap32(active + 1);
    }

    method EndCount0(elapsed: int, succeeded: bool, now: int)
      modifies this
      ensures forall key, name :: View() == Counted(old(View()), End(key, name, elapsed, succeeded, now))
    {
      hide Wrap32, Wrap64;
      active := Wrap32(active - 1);
      total := Wrap32(total + 1);
      totalElapsed := Wrap64(totalElapsed + elapsed);
      if maxElapsed < elapsed {
        maxElapsed := elapsed;
      }
      if succeeded {
        if succeededMaxElapsed < elapsed {
          succeededMaxElapsed := elapsed;
        }
        successiveRequestFailureCount := 0;
      } else {
        lastRequestFailedTimestamp := now;
        successiveRequestFailureCount := Wrap32(successiveRequestFailureCount + 1);
        failed := Wrap32(failed + 1);
        failedElapsed := Wrap64(failedElapsed + elapsed);
        if failedMaxElapsed < elapsed {
          failedMaxElapsed := elapsed;
        }
      }
    }
  }

  /** serviceStatistic and methodStatistics, as one table. */
  class Tables {
    var statuses: map<Id, RPCStatus>

    ghost predicate Valid()
      reads `statuses
    {
      forall i, j :: i in statuses && j in statuses && statuses[i] == statuses[j] ==> i == j
    }

    ghost function View(): map<Id, Status>
      reads `statuses, statuses.Values
    {
      map id | id in statuses :: statuses[id].View()
    }

    constructor ()
      ensures Valid() && View() == Table([])
    {
      statuses := map[];
    }

    /** GetURLStatus and GetMethodStatus. */
    method GetStatus(id: Id) returns (s: RPCStatus)
      requires Valid()
      modifies `statuses
      ensures Valid() && id in statuses && statuses[id] == s
      ensures statuses == if id in old(statuses) then old(statuses) else old(statuses)[id := s]
      ensures id in old(statuses) || (fresh(s) && s.View() == ZERO)
    {
      if id in statuses {
        return statuses[id];
      }
      s := new RPCStatus();
      statuses := statuses[id := s];
    }

    method BeginOne(id: Id)
      requires Valid()
      modifies `statuses, statuses.Values
      ensures Valid() && fresh(statuses.Values - old(statuses.Values))
      ensures forall key, name :: View() == Updated(old(View()), id, Begin(key, name))
    {
      hide Counted;
      var s := GetStatus(id);
      s.BeginCount0();
    }

    method EndOne(id: Id, elapsed: int, succeeded: bool, now: int)
      requires Valid()
      modifies `statuses, statuses.Values
      ensures Valid() && fresh(statuses.Values - old(statuses.Values))
      ensures forall key, name :: View() ==
                Updated(old(View()), id, End(key, name, elapsed, succeeded, now))
    {
      hide Counted;
      var s := GetStatus(id);
      s.EndCount0(elapsed, succeeded, now);
    }

    method BeginCount(key: string, name: string)
      requires Valid()
      modifies `statuses, statuses.Values
      ensures Valid() && fresh(statuses.Values - old(statuses.Values))
      ensures View() == Recorded(old(View()), Begin(key, name))
    {
      hide Counted;
      BeginOne(OfUrl(key));
      BeginOne(OfMethod(key, name));
    }

    method EndCount(key: string, name: string, elapsed: int, succeeded: bool, now: int)
      requires Valid()
      modifies `statuses, statuses.Values
      ensures Valid() && fresh(statuses.Values - old(statuses.Values))
      ensures View() == Recorded(old(View()), End(key, name, elapsed, succeeded, now))
    {
      hide Counted;
      EndOne(OfUrl(key), elapsed, succeeded, now);
      EndOne(OfMethod(key, name), elapsed, succeeded, now);
    }
  }

  // ---- the active filter ----

  /** What OnResponse finds: the start time it attached, or an attachment that is no number. */
  datatype Answer = Parsed(elapsed: int, succeeded: bool, now: int) | Unparsed

  function Calls(step: FilterChain.Event, p: nat, key: string, name: string, answer: Answer): seq<Event> {
    match step
    case Enter(q) => if q == p then [Begin(key, name)] else []
    case CallBase => []
    case Respond(q) =>
      if q == p && answer.Parsed? then [End(key, name, answer.elapsed, answer.succeeded, answer.now)] else []
  }

  /** What the active filter at position `p` records during a call through a chain: Invoke begins,
      OnResponse ends unless the attachment does not parse. */
  function History(trace: seq<FilterChain.Event>, p: nat, key: string, name: string,
    answers: nat -> Answer): seq<Event> {
    if trace == [] then []
    else
      var n := |trace| - 1;
      History(trace[..n], p, key, name, answers) + Calls(trace[n], p, key, name, answers(n))
  }

  /** The responses that found no start time. */
  function Lost(trace: seq<FilterChain.Event>, p: nat, answers: nat -> Answer): nat {
    if trace == [] then 0
    else
      var n := |trace| - 1;
      Lost(trace[..n], p, answers) + if trace[n] == FilterChain.Respond(p) && answers(n).Unparsed? then 1 else 0
  }

  lemma {:induction false} SumConcat(a: seq<Event>, b: seq<Event>, c: Cell)
    ensures Sum(a + b, c) == Sum(a, c) + Sum(b, c)
    decreases b
  {
    hide Worth;
    if b == [] {
      assert a + b == a;
    } else {
      SumConcat(a, b[..|b| - 1], c);
      assert (a + b)[..|a + b| - 1] == a + b[..|b| - 1];
    }
  }

  lemma CallsWorth(step: FilterChain.Event, p: nat, key: string, name: string, answer: Answer)
    ensures Sum(Calls(step, p, key, name, answer), Active) ==
            (if step == FilterChain.Enter(p) then 1 else 0) -
            (if step == FilterChain.Respond(p) && answer.Parsed? then 1 else 0)
  {
    var cs := Calls(step, p, key, name, answer);
    if cs != [] {
      assert cs[..0] == [];
    }
  }

  lemma {:induction false} HistoryBalance(trace: seq<FilterChain.Event>, p: nat, key: string, name: string,
    answers: nat -> Answer)
    ensures Sum(History(trace, p, key, name, answers), Active) ==
            FilterChain.Count(trace, FilterChain.Enter(p)) - FilterChain.Count(trace, FilterChain.Respond(p)) +
              Lost(trace, p, answers)
    decreases trace
  {
    hide Calls, Sum;
    if trace == [] {
      assert Sum([], Active) == 0 by { NothingAddsUp(OfUrl(key), Active); }
    } else {
      var n := |trace| - 1;
      var before, step := trace[..n], trace[n];
      assert trace == before + [step];
      HistoryBalance(before, p, key, name, answers);
      CallsWorth(step, p, key, name, answers(n));
      SumConcat(History(before, p, key, name, answers), Calls(step, p, key, name, answers(n)), Active);
    }
  }

  /** A call, however often its filters call on and however those calls go, moves the active count by
      the number of responses that found no start time: with all found, it returns to where it was. */
  lemma ActiveReturns(call: FilterChain.Call, p: nat, key: string, name: string, answers: nat -> Answer,
    before: seq<Event>)
    ensures var trace := FilterChain.Trace(call);
            Fold(before + History(trace, p, key, name, answers)).active ==
              Wrap32(Fold(before).active + Lost(trace, p, answers))
    ensures var trace := FilterChain.Trace(call);
            Lost(trace, p, answers) == 0 ==>
              Fold(before + History(trace, p, key, name, answers)).active == Fold(before).active
  {
    hide FilterChain.Trace, FilterChain.Count, History, Lost, Fold, Sum, Wrap32;
    var trace := FilterChain.Trace(call);
    var during := History(trace, p, key, name, answers);
    FilterChain.EveryEntryIsAnswered(call, p);
    HistoryBalance(trace, p, key, name, answers);
    SumConcat(before, during, Active);
    CountersAreSums(before, Active);
    CountersAreSums(before + during, Active);
    WrapAdds(Active, Sum(before, Active), Lost(trace, p, answers));
    WrapAdds(Active, Sum(before, Active), 0);
  }
}
