/** filter/execlmt/filter.go: the execute limiter on one limit target. Taking a ticket (the atomic
    increment), comparing it with the caller's own limit and giving it back (the deferred atomic
    decrement) are separate steps, and the steps of any number of callers interleave freely. */
module Limiter {

  datatype Phase = Entered | Admitted | Rejected

  /** A caller between its increment and its decrement: the limit it was configured with and the
      count its increment returned. */
  datatype Ticket = Ticket(limit: nat, number: int, phase: Phase)

  /** `active` lists the callers in the order of their increments. */
  datatype State = State(count: int, active: seq<Ticket>)

  datatype Step = Increase(limit: nat) | Compare(caller: nat) | Decrease(caller: nat)

  const Init := State(0, [])

  predicate Enabled(s: State, step: Step) {
    match step
    case Increase(_) => true
    case Compare(i) => i < |s.active| && s.active[i].phase == Entered
    case Decrease(i) => i < |s.active| && s.active[i].phase != Entered
  }

  function Next(s: State, step: Step): State
    requires Enabled(s, step)
  {
    match step
    case Increase(limit) => State(s.count + 1, s.active + [Ticket(limit, s.count + 1, Entered)])
    case Compare(i) =>
      var t := s.active[i];
      s.(active := s.active[i := t.(phase := if t.number > t.limit then Rejected else Admitted)])
    case Decrease(i) => State(s.count - 1, s.active[..i] + s.active[i + 1..])
  }

  predicate IsRun(s: State, steps: seq<Step>)
    decreases steps
  {
    steps == [] || (Enabled(s, steps[0]) && IsRun(Next(s, steps[0]), steps[1..]))
  }

  function Final(s: State, steps: seq<Step>): State
    requires IsRun(s, steps)
    decreases steps
  {
    if steps == [] then s else Final(Next(s, steps[0]), steps[1..])
  }

  /** A caller's number is never less than its place among the callers still active. */
  ghost predicate Inv(s: State) {
    && s.count == |s.active|
    && forall p :: 0 <= p < |s.active| ==>
         var t := s.active[p];
         && t.number >= p + 1
         && (t.phase == Admitted ==> t.number <= t.limit)
         && (t.phase == Rejected ==> t.number > t.limit)
  }

  lemma {:induction false} RunKeepsInv(s: State, steps: seq<Step>)
    requires Inv(s) && IsRun(s, steps)
    ensures Inv(Final(s, steps))
    decreases steps
  {
    if steps != [] {
      assert Inv(Next(s, steps[0]));
      RunKeepsInv(Next(s, steps[0]), steps[1..]);
    }
  }

  /** The callers running under a limit of at most `bound`. */
  function RunningWithin(s: State, bound: nat): set<nat> {
    set p | 0 <= p < |s.active| && s.active[p].phase == Admitted && s.active[p].limit <= bound
  }

  lemma {:induction false} SmallSet(s: set<nat>, n: nat)
    requires forall p :: p in s ==> p < n
    ensures |s| <= n
  {
    if n > 0 {
      SmallSet(s - {n - 1}, n - 1);
      assert s <= (s - {n - 1}) + {n - 1};
      if n - 1 !in s {
        assert s - {n - 1} == s;
      }
    }
  }

  lemma {:induction false} Greatest(s: set<nat>, bound: nat) returns (m: nat)
    requires s != {} && forall p :: p in s ==> p < bound
    ensures m in s && forall p :: p in s ==> p <= m
  {
    if bound - 1 in s {
      m := bound - 1;
    } else {
      m := Greatest(s, bound - 1);
    }
  }

  /** In every interleaving the running callers admitted under limits of at most `bound` number at
      most `bound`, whatever limits the other callers carry, and the counter is the number of
      callers between increment and decrement. */
  lemma LimitHolds(steps: seq<Step>, bound: nat)
    requires IsRun(Init, steps)
    ensures |RunningWithin(Final(Init, steps), bound)| <= bound
    ensures Final(Init, steps).count == |Final(Init, steps).active|
  {
    RunKeepsInv(Init, steps);
    var s := Final(Init, steps);
    var running := RunningWithin(s, bound);
    if running != {} {
      var last := Greatest(running, |s.active|);
      SmallSet(running, last + 1);
      assert last + 1 <= s.active[last].number <= s.active[last].limit <= bound;
    }
  }

  /** A caller is turned away exactly when, at its increment, as many callers as its limit allows
      were between increment and decrement. */
  lemma RejectedMeansCrowded(steps: seq<Step>, limit: nat)
    requires IsRun(Init, steps)
    ensures var s := Final(Init, steps);
            var entered := Next(s, Increase(limit));
            && Enabled(entered, Compare(|s.active|))
            && (Next(entered, Compare(|s.active|)).active[|s.active|].phase == Rejected <==> |s.active| >= limit)
  {
    RunKeepsInv(Init, steps);
  }

  /** The callers counted include ones already turned away, so a caller may be rejected although
      nobody is running: two callers enter under limit 1, the second is rejected, the first leaves,
      and a third is rejected before the second has given its ticket back. */
  lemma RejectedWhileNobodyRuns()
    ensures var steps := [Increase(1), Increase(1), Compare(0), Compare(1), Decrease(0), Increase(1), Compare(1)];
            && IsRun(Init, steps)
            && Final(Init, steps).active[1].phase == Rejected
            && RunningWithin(Final(Init, steps), 1) == {}
  {
    var s1 := Next(Init, Increase(1));
    assert s1 == State(1, [Ticket(1, 1, Entered)]);
    var s2 := Next(s1, Increase(1));
    assert s2 == State(2, [Ticket(1, 1, Entered), Ticket(1, 2, Entered)]);
    var s3 := Next(s2, Compare(0));
    assert s3 == State(2, [Ticket(1, 1, Admitted), Ticket(1, 2, Entered)]);
    var s4 := Next(s3, Compare(1));
    assert s4 == State(2, [Ticket(1, 1, Admitted), Ticket(1, 2, Rejected)]);
    var s5 := Next(s4, Decrease(0));
    assert s5 == State(1, [Ticket(1, 2, Rejected)]);
    var s6 := Next(s5, Increase(1));
    assert s6 == State(2, [Ticket(1, 2, Rejected), Ticket(1, 2, Entered)]);
    var s7 := Next(s6, Compare(1));
    assert s7 == State(2, [Ticket(1, 2, Rejected), Ticket(1, 2, Rejected)]);
    Chain(Init, Increase(1), [Increase(1), Compare(0), Compare(1), Decrease(0), Increase(1), Compare(1)], s1, s7);
  }

  lemma Chain(s: State, step: Step, rest: seq<Step>, s': State, last: State)
    requires Enabled(s, step) && Next(s, step) == s' && IsRun(s', rest) && Final(s', rest) == last
    ensures IsRun(s, [step] + rest) && Final(s, [step] + rest) == last
  {
    assert ([step] + rest)[1..] == rest;
  }

  // ---- the code ----

  class ExecuteState {
    var concurrentCount: int
    ghost var active: seq<Ticket>

    ghost function View(): State
      reads this
    {
      State(concurrentCount, active)
    }

    constructor ()
      ensures View() == Init
    {
      concurrentCount, active := 0, [];
    }

    method IncreaseCount(ghost limit: nat) returns (n: int)
      modifies this
      ensures n == concurrentCount && View() == Next(old(View()), Increase(limit))
    {
      concurrentCount := concurrentCount + 1;
      n := concurrentCount;
      active := active + [Ticket(limit, n, Entered)];
    }

    /** The comparison in Invoke, made with the count the caller's own increment returned. */
    method Admit(concurrentCount: int, limitRate: nat, ghost caller: nat) returns (admitted: bool)
      requires Enabled(View(), Compare(caller))
      requires active[caller].number == concurrentCount && active[caller].limit == limitRate
      modifies `active
      ensures View() == Next(old(View()), Compare(caller))
      ensures admitted <==> active[caller].phase == Admitted
    {
      admitted := !(concurrentCount > limitRate);
      active := active[caller := active[caller].(phase := if admitted then Admitted else Rejected)];
    }

    method DecreaseCount(ghost caller: nat)
      requires Enabled(View(), Decrease(caller))
      modifies this
      ensures View() == Next(old(View()), Decrease(caller))
    {
      concurrentCount := concurrentCount - 1;
      active := active[..caller] + active[caller + 1..];
    }
  }
}
