/** remoting/exchange.go and remoting/exchange_client.go: request ids and the table of pending
    responses. Issuing a request and handling a response are each one step; a request that times
    out leaves the table as it is. */
module Exchange {
  import opened MachineInts
  import opened Wrappers

  /** The id of the `n`-th request, counted from 1. */
  function IdOf(n: nat): int {
    Wrap64(2 * n)
  }

  /** Ids are even; they are positive up to the 2^62nd request, which gets the smallest int64, and
      from then on exactly when counting modulo 2^63 says so. */
  lemma IdsAreEvenAndWrap(n: nat)
    ensures IdOf(n) % 2 == 0
    ensures IdOf(n) > 0 <==> 0 < n % TWO_63 < TWO_62
    ensures n < TWO_62 ==> IdOf(n) == 2 * n
    ensures IdOf(TWO_62) == -TWO_63
  {
    assert 2 * n % TWO_64 == 2 * (n % TWO_63);
    Wrap64Is(2 * n);
    Wrap64Is(2 * TWO_62);
    hide Wrap64;
  }

  /** Two requests share an id exactly when their numbers are 2^63 apart, or a multiple of it. */
  lemma IdsRepeatAfterTwo63(m: nat, n: nat)
    ensures IdOf(m) == IdOf(n) <==> m % TWO_63 == n % TWO_63
  {
    Wrap64Is(2 * m);
    Wrap64Is(2 * n);
    assert 2 * n % TWO_64 == 2 * (n % TWO_63);
    assert 2 * m % TWO_64 == 2 * (m % TWO_63);
  }

  /** An asynchronous request may come without a callback. */
  datatype Kind = Sync | Async(hasCallback: bool) | OneWay

  datatype Response = Response(id: int, error: Option<string>, result: Option<string>)

  /** `issued` are the kinds of all requests so far, `log` the responses that completed one. */
  datatype State = State(sequence: int, issued: seq<Kind>, pending: set<int>, log: seq<Response>)

  datatype Step = Issue(kind: Kind) | Handle(response: Response)

  const Init := State(0, [], {}, [])

  function Next(s: State, step: Step): State {
    match step
    case Issue(kind) =>
      var id := Wrap64(s.sequence + 2);
      State(id, s.issued + [kind], if kind == OneWay then s.pending else s.pending + {id}, s.log)
    case Handle(r) =>
      if r.id in s.pending then s.(pending := s.pending - {r.id}, log := s.log + [r]) else s
  }

  function Run(s: State, steps: seq<Step>): State {
    if steps == [] then s else Next(Run(s, steps[..|steps| - 1]), steps[|steps| - 1])
  }

  ghost predicate IsTwoWay(s: State, id: int) {
    exists n :: 1 <= n <= |s.issued| && s.issued[n - 1] != OneWay && IdOf(n) == id
  }

  predicate Completed(s: State, id: int) {
    id in Ids(s.log)
  }

  function Ids(log: seq<Response>): set<int> {
    set i | 0 <= i < |log| :: log[i].id
  }

  ghost predicate Inv(s: State) {
    && s.sequence == IdOf(|s.issued|)
    && (forall id :: IsTwoWay(s, id) <==> id in s.pending || Completed(s, id))
    && (forall id :: id in s.pending ==> !Completed(s, id))
    && (forall i, j :: 0 <= i < j < |s.log| ==> s.log[i].id != s.log[j].id)
  }

  lemma EarlierIdsDiffer(n: nat)
    requires n <= TWO_63
    ensures forall m :: 1 <= m < n ==> IdOf(m) != IdOf(n)
  {
    forall m | 1 <= m < n ensures IdOf(m) != IdOf(n) {
      IdsRepeatAfterTwo63(m, n);
    }
  }

  lemma TwoWayGrows(s: State, kind: Kind, id: int)
    ensures IsTwoWay(Next(s, Issue(kind)), id) <==>
            IsTwoWay(s, id) || (kind != OneWay && id == IdOf(|s.issued| + 1))
  {
    hide IdOf, Wrap64;
    var s' := Next(s, Issue(kind));
    if IsTwoWay(s, id) {
      var m :| 1 <= m <= |s.issued| && s.issued[m - 1] != OneWay && IdOf(m) == id;
      assert s'.issued[m - 1] == s.issued[m - 1];
    }
    if kind != OneWay {
      assert s'.issued[|s.issued|] == kind;
    }
  }

  /** The next id belongs to no request so far. */
  lemma NextIdIsNew(s: State)
    requires |s.issued| + 1 <= TWO_63
    ensures !IsTwoWay(s, IdOf(|s.issued| + 1))
  {
    hide IdOf;
    EarlierIdsDiffer(|s.issued| + 1);
  }

  lemma NextSequence(sequence: int, n: nat)
    requires sequence == IdOf(n)
    ensures Wrap64(sequence + 2) == IdOf(n + 1)
  {
    hide Wrap64;
    WrapsAdd(2 * n, 2);
    assert 2 * n + 2 == 2 * (n + 1);
  }

  lemma IssueKeepsInv(s: State, kind: Kind)
    requires Inv(s) && |s.issued| + 1 <= TWO_63
    ensures Inv(Next(s, Issue(kind)))
    ensures Next(s, Issue(kind)).sequence == IdOf(|s.issued| + 1)
  {
    hide IdOf, Wrap64, IsTwoWay, Ids;
    var s' := Next(s, Issue(kind));
    NextSequence(s.sequence, |s.issued|);
    NextIdIsNew(s);
    forall id ensures IsTwoWay(s', id) <==> IsTwoWay(s, id) || (kind != OneWay && id == IdOf(|s.issued| + 1)) {
      TwoWayGrows(s, kind, id);
    }
  }

  lemma LogGrows(log: seq<Response>, r: Response)
    ensures Ids(log + [r]) == Ids(log) + {r.id}
  {
    var log' := log + [r];
    assert log'[|log|] == r;
    forall i | 0 <= i < |log| ensures log[i].id in Ids(log') {
      assert log'[i] == log[i];
    }
  }

  lemma HandleKeepsInv(s: State, r: Response)
    requires Inv(s)
    ensures Inv(Next(s, Handle(r)))
  {
    var s' := Next(s, Handle(r));
    assert forall id :: IsTwoWay(s', id) <==> IsTwoWay(s, id);
    if r.id in s.pending {
      LogGrows(s.log, r);
      assert !Completed(s, r.id);
    }
  }

  lemma {:induction false} RunKeepsInv(steps: seq<Step>)
    requires |Run(Init, steps).issued| <= TWO_63
    ensures Inv(Run(Init, steps))
  {
    if steps == [] {
      assert forall id :: !IsTwoWay(Init, id) && !Completed(Init, id);
    } else {
      var before := Run(Init, steps[..|steps| - 1]);
      RunKeepsInv(steps[..|steps| - 1]);
      match steps[|steps| - 1]
      case Issue(kind) => IssueKeepsInv(before, kind);
      case Handle(r) => HandleKeepsInv(before, r);
    }
  }

  /** In every run of up to 2^63 requests each two-way id is pending or completed, never both, and
      is completed at most once, by a response that carries that id; nothing else ever is. */
  lemma EveryRequestCompletesAtMostOnce(steps: seq<Step>, id: int)
    requires |Run(Init, steps).issued| <= TWO_63
    ensures var s := Run(Init, steps);
            && (IsTwoWay(s, id) <==> id in s.pending || Completed(s, id))
            && !(id in s.pending && Completed(s, id))
            && (forall i, j :: 0 <= i < |s.log| && 0 <= j < |s.log| && s.log[i].id == s.log[j].id ==> i == j)
  {
    RunKeepsInv(steps);
  }

  /** In every run of fewer than 2^62 requests the ids are positive, even and all different. */
  lemma IdsAreFresh(steps: seq<Step>, m: nat, n: nat)
    requires 1 <= m < n <= |Run(Init, steps).issued| < TWO_62
    ensures IdOf(m) > 0 && IdOf(n) > 0 && IdOf(m) % 2 == 0 && IdOf(n) % 2 == 0 && IdOf(m) != IdOf(n)
    ensures Run(Init, steps).sequence == IdOf(|Run(Init, steps).issued|)
  {
    IdsAreEvenAndWrap(m);
    IdsAreEvenAndWrap(n);
    IdsRepeatAfterTwo63(m, n);
    RunKeepsInv(steps);
  }

  /** A response to a one-way, unknown or already completed id changes nothing. */
  lemma StrayResponsesAreIgnored(steps: seq<Step>, r: Response)
    requires |Run(Init, steps).issued| <= TWO_63
    ensures var s := Run(Init, steps);
            Next(s, Handle(r)) == s <==> !IsTwoWay(s, r.id) || Completed(s, r.id)
  {
    var s := Run(Init, steps);
    RunKeepsInv(steps);
    if r.id in s.pending {
      assert |Next(s, Handle(r)).log| == |s.log| + 1;
    }
  }

  // ---- the objects ----

  class PendingResponse {
    const seq': int
    const callback: bool
    var err: Option<string>
    var response: Response
    var done: bool
    var callbackRuns: nat

    constructor (id: int, callback: bool)
      ensures seq' == id && this.callback == callback && Untouched()
    {
      seq', this.callback, err, response, done, callbackRuns := id, callback, None, Response(id, None, None), false, 0;
    }

    predicate Untouched()
      reads this
    {
      !done && callbackRuns == 0
    }

    /** What Response.Handle does with the entry it took out. The channel is open and no callback has run. */
    method Complete(r: Response)
      requires Untouched()
      modifies this
      ensures FinishedBy(r)
    {
      response := r;
      if !callback {
        err := r.error;
        done := true;
      } else {
        callbackRuns := callbackRuns + 1;
      }
    }

    /** Finished by `r`: the waiter was released or the callback ran, once. */
    predicate FinishedBy(r: Response)
      reads this
    {
      response == r && done == !callback && callbackRuns == (if callback then 1 else 0) &&
        (!callback ==> err == r.error)
    }
  }

  class ExchangeTable {
    var sequence: int
    var pendingResponses: map<int, PendingResponse>
    ghost var issued: seq<Kind>
    ghost var log: seq<Response>
    ghost var finished: map<int, PendingResponse>
    ghost var Repr: set<PendingResponse>

    ghost function View(): State
      reads this
    {
      State(sequence, issued, pendingResponses.Keys, log)
    }

    ghost predicate Valid()
      reads this, Repr
    {
      && Inv(View()) && |issued| <= TWO_63
      && (forall id :: id in pendingResponses ==>
        pendingResponses[id] in Repr && pendingResponses[id].seq' == id && pendingResponses[id].Untouched())
      && finished.Keys == Ids(log)
      && (forall id :: id in finished ==> finished[id] in Repr && finished[id].seq' == finished[id].response.id == id)
      && (forall id :: id in finished ==>
        finished[id].FinishedBy(finished[id].response) && finished[id].response in log)
    }

    constructor ()
      ensures Valid() && View() == Init && Repr == {}
    {
      sequence, pendingResponses, issued, log, finished, Repr := 0, map[], [], [], map[], {};
      new;
      assert forall id :: !IsTwoWay(View(), id) && !Completed(View(), id);
    }

    method SequenceID() returns (id: int)
      modifies `sequence
      ensures id == sequence == Wrap64(old(sequence) + 2)
    {
      sequence := Wrap64(sequence + 2);
      id := sequence;
    }

    /** The head of Request, AsyncRequest and Send: a new id and, for two-way requests, its entry. */
    method IssueRequest(kind: Kind) returns (rsp: PendingResponse)
      requires Valid() && |issued| < TWO_63
      modifies this
      ensures Valid() && View() == Next(old(View()), Issue(kind))
      ensures fresh(rsp) && rsp.seq' == sequence && rsp.Untouched() && (rsp.callback <==> kind == Async(true))
      ensures kind != OneWay ==> sequence in pendingResponses && pendingResponses[sequence] == rsp
      ensures forall id :: id in old(pendingResponses) ==>
                id in pendingResponses && pendingResponses[id] == old(pendingResponses)[id]
      ensures finished == old(finished) && Repr == old(Repr) + {rsp}
    {
      hide Inv, Ids, Wrap64;
      ghost var before := View();
      IssueKeepsInv(before, kind);
      FreshIdIsNew(before);
      var id := SequenceID();
      rsp := new PendingResponse(id, kind == Async(true));
      issued, Repr := issued + [kind], Repr + {rsp};
      if kind != OneWay {
        pendingResponses := pendingResponses[id := rsp];
      }
      assert View() == Next(before, Issue(kind));
    }

    /** Response.Handle. No channel is ever closed twice and no callback runs twice. */
    method HandleResponse(r: Response)
      requires Valid()
      modifies this, Repr
      ensures Valid() && View() == Next(old(View()), Handle(r))
      ensures r.id in old(pendingResponses) ==> old(pendingResponses)[r.id].FinishedBy(r)
      ensures Repr == old(Repr) && forall o :: o in Repr && o.seq' != r.id ==> unchanged(o)
    {
      hide Inv, Ids, Next;
      HandleIs(View(), r);
      if r.id !in pendingResponses {
        return;
      }
      HandleKeepsInv(View(), r);
      LogGrows(log, r);
      var p := pendingResponses[r.id];
      pendingResponses := pendingResponses - {r.id};
      p.Complete(r);
      log := log + [r];
      finished := finished[r.id := p];
    }
  }

  lemma HandleIs(s: State, r: Response)
    requires Inv(s)
    ensures Next(s, Handle(r)) ==
            if r.id in s.pending then State(s.sequence, s.issued, s.pending - {r.id}, s.log + [r]) else s
    ensures r.id in s.pending ==> r.id !in Ids(s.log)
  {
  }

  lemma FreshIdIsNew(s: State)
    requires Inv(s) && |s.issued| < TWO_63
    ensures Wrap64(s.sequence + 2) !in s.pending
  {
    hide IdOf, Wrap64, IsTwoWay;
    NextSequence(s.sequence, |s.issued|);
    NextIdIsNew(s);
  }
}
