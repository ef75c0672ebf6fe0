/** protocol/dubbo and remoting/exchange_client.go: connections shared per address and counted by
    the invokers that use them. Refer and Destroy are each one step. A pointer to a client or an
    invoker is its position in the table of all clients or invokers ever made. */
module Clients {
  import opened MachineInts
  import opened Wrappers

  datatype Client = Client(address: string, init: bool, activeNum: int, closes: nat)

  datatype Invoker = Invoker(location: string, client: Option<nat>, quit: bool)

  datatype Net = Net(clients: seq<Client>, byAddress: map<string, nat>, invokers: seq<Invoker>)

  /** A shared client is known under its address and points into the table. */
  predicate Indexed(n: Net) {
    && (forall a :: a in n.byAddress ==> n.byAddress[a] < |n.clients| && n.clients[n.byAddress[a]].address == a)
    && (forall i :: 0 <= i < |n.invokers| && n.invokers[i].client.Some? ==>
          n.invokers[i].client.value < |n.clients| &&
            n.clients[n.invokers[i].client.value].address == n.invokers[i].location)
  }

  /** getExchangeClient with the connection attempt and its one retry, then NewDubboInvoker. */
  function Refer(n: Net, location: string, dials: (bool, bool)): (Net, Option<nat>)
    requires Indexed(n)
  {
    if location in n.byAddress then
      var c := n.byAddress[location];
      (Net(n.clients[c := n.clients[c].(activeNum := (n.clients[c].activeNum + 1) % TWO_32)], n.byAddress,
           n.invokers + [Invoker(location, Some(c), false)]), Some(|n.invokers|))
    else if dials.0 || dials.1 then
      (Net(n.clients + [Client(location, true, 1, 0)], n.byAddress[location := |n.clients|],
           n.invokers + [Invoker(location, Some(|n.clients|), false)]), Some(|n.invokers|))
    else (n, None)
  }

  function Destroy(n: Net, i: nat): Net
    requires Indexed(n) && i < |n.invokers|
  {
    var v := n.invokers[i];
    if v.quit then n
    else if v.client.None? then n.(invokers := n.invokers[i := v.(quit := true)])
    else
      var c := v.client.value;
      var left := (n.clients[c].activeNum - 1) % TWO_32;
      var client := n.clients[c].(activeNum := left);
      var invokers := n.invokers[i := Invoker(v.location, None, true)];
      if left == 0 then
        Net(n.clients[c := client.(init := false, closes := client.closes + 1)], n.byAddress - {v.location}, invokers)
      else Net(n.clients[c := client], n.byAddress, invokers)
  }

  /** Refer makes an invoker exactly if the address is known or can be connected to. Its client is the one
      known for the address, or the first one of it. */
  lemma ReferMakes(n: Net, location: string, dials: (bool, bool))
    requires Indexed(n)
    ensures var (n', made) := Refer(n, location, dials);
            && (made.Some? <==> location in n.byAddress || dials.0 || dials.1)
            && (made.None? ==> n' == n)
            && (made.Some? ==>
                  && Indexed(n') && made.value == |n.invokers| && n.invokers < n'.invokers
                  && location in n'.byAddress && n'.byAddress - {location} == n.byAddress - {location}
                  && n'.invokers[made.value] == Invoker(location, Some(n'.byAddress[location]), false)
                  && |n'.clients| == |n.clients| + (if location in n.byAddress then 0 else 1)
                  && (location in n.byAddress ==> n'.byAddress[location] == n.byAddress[location]))
  {
  }

  // ---- the invariant ----

  /** The undestroyed invokers that use client `c`. */
  function Users(invokers: seq<Invoker>, c: nat): set<nat> {
    set i | 0 <= i < |invokers| && invokers[i].client == Some(c)
  }

  /** A client is counted by its users, is reachable under its address exactly while it has some,
      and is closed once, when the last one has gone. */
  ghost predicate Counted(n: Net, c: nat)
    requires c < |n.clients|
  {
    var users, client := Users(n.invokers, c), n.clients[c];
    && client.activeNum == |users| < TWO_32
    && (users != {} <==> client.address in n.byAddress && n.byAddress[client.address] == c)
    && client.closes == (if users == {} then 1 else 0)
    && (client.init <==> users != {})
  }

  ghost predicate Inv(n: Net) {
    && Indexed(n)
    && (forall c :: 0 <= c < |n.clients| ==> Counted(n, c))
    && (forall i :: 0 <= i < |n.invokers| ==> (n.invokers[i].quit <==> n.invokers[i].client.None?))
  }

  /** The client that a Refer would share can be counted once more. */
  predicate HasRoom(n: Net, location: string)
    requires Indexed(n)
  {
    location in n.byAddress ==> n.clients[n.byAddress[location]].activeNum + 1 < TWO_32
  }

  lemma UsersOfAppend(invokers: seq<Invoker>, v: Invoker, c: nat)
    ensures Users(invokers + [v], c) == Users(invokers, c) + if v.client == Some(c) then {|invokers|} else {}
    ensures |Users(invokers + [v], c)| == |Users(invokers, c)| + if v.client == Some(c) then 1 else 0
  {
    assert |invokers| !in Users(invokers, c);
  }

  lemma UsersOfQuit(invokers: seq<Invoker>, i: nat, c: nat)
    requires i < |invokers|
    ensures var quit := invokers[i := Invoker(invokers[i].location, None, true)];
            && Users(quit, c) == Users(invokers, c) - {i}
            && |Users(quit, c)| == |Users(invokers, c)| - if invokers[i].client == Some(c) then 1 else 0
  {
    var quit := invokers[i := Invoker(invokers[i].location, None, true)];
    assert Users(quit, c) == Users(invokers, c) - {i};
  }

  lemma NoUsersYet(n: Net, c: nat)
    requires Indexed(n) && c >= |n.clients|
    ensures Users(n.invokers, c) == {}
  {
  }

  lemma ReferKeepsCounts(n: Net, location: string, dials: (bool, bool), c: nat)
    requires Inv(n) && HasRoom(n, location)
    requires Refer(n, location, dials).1.Some? && c < |Refer(n, location, dials).0.clients|
    ensures Counted(Refer(n, location, dials).0, c)
  {
    hide Users, Inv;
    InvIs(n);
    var n' := Refer(n, location, dials).0;
    var v := n'.invokers[|n.invokers|];
    UsersOfAppend(n.invokers, v, c);
    if c == |n.clients| {
      NoUsersYet(n, c);
    } else {
      assert Counted(n, c);
    }
  }

  /** Sharing a full client takes its count to zero while it is in use. */
  lemma FullClientWraps(n: Net, location: string, dials: (bool, bool))
    requires Inv(n) && !HasRoom(n, location)
    ensures var n', c := Refer(n, location, dials).0, n.byAddress[location];
            n'.clients[c].activeNum == 0 && |Users(n'.invokers, c)| == TWO_32 && !Counted(n', c)
  {
    hide Users, Inv;
    InvIs(n);
    var c := n.byAddress[location];
    assert Counted(n, c);
    UsersOfAppend(n.invokers, Invoker(location, Some(c), false), c);
  }

  lemma InvIs(n: Net)
    requires Inv(n)
    ensures Indexed(n) && forall c :: 0 <= c < |n.clients| ==> Counted(n, c)
  {
  }

  /** Refer keeps the account if and only if the client it shares has room for one more. */
  lemma ReferKeepsInv(n: Net, location: string, dials: (bool, bool))
    requires Inv(n)
    ensures Inv(Refer(n, location, dials).0) <==> HasRoom(n, location)
  {
    hide Counted;
    var (n', made) := Refer(n, location, dials);
    if !HasRoom(n, location) {
      FullClientWraps(n, location, dials);
    } else if made.Some? {
      forall c: nat | c < |n'.clients| ensures Counted(n', c) {
        ReferKeepsCounts(n, location, dials, c);
      }
    }
  }

  lemma LiveInvokerIsUser(n: Net, i: nat)
    requires Inv(n) && i < |n.invokers| && !n.invokers[i].quit
    ensures n.invokers[i].client.Some?
    ensures forall c: nat :: i in Users(n.invokers, c) <==> n.invokers[i].client == Some(c)
    ensures |Users(n.invokers, n.invokers[i].client.value)| > 0
  {
    assert i in Users(n.invokers, n.invokers[i].client.value);
  }

  lemma DestroyKeepsCounts(n: Net, i: nat, c: nat)
    requires Inv(n) && i < |n.invokers| && !n.invokers[i].quit && c < |n.clients|
    ensures Counted(Destroy(n, i), c)
  {
    hide Users, Inv;
    InvIs(n);
    LiveInvokerIsUser(n, i);
    var d := n.invokers[i].client.value;
    UsersOfQuit(n.invokers, i, c);
    assert Counted(n, d);
    assert (n.clients[d].activeNum - 1) % TWO_32 == n.clients[d].activeNum - 1;
    if c != d {
      assert Counted(n, c);
      assert i !in Users(n.invokers, c);
      assert Users(n.invokers, c) - {i} == Users(n.invokers, c);
    }
  }

  lemma DestroyKeepsInv(n: Net, i: nat)
    requires Inv(n) && i < |n.invokers|
    ensures Inv(Destroy(n, i))
  {
    hide Counted;
    var n' := Destroy(n, i);
    if !n.invokers[i].quit {
      forall c: nat | c < |n'.clients| ensures Counted(n', c) {
        DestroyKeepsCounts(n, i, c);
      }
    }
  }

  // ---- whole runs ----

  datatype Step = ReferStep(location: string, dials: (bool, bool)) | DestroyStep(invoker: nat)

  const Init := Net([], map[], [])

  predicate IsRun(n: Net, steps: seq<Step>)
    decreases steps
  {
    steps == [] ||
    (Enabled(n, steps[0]) && IsRun(Next(n, steps[0]), steps[1..]))
  }

  /** Destroy names an invoker that was made, and no Refer fills a client. */
  predicate Enabled(n: Net, s: Step) {
    Indexed(n) && if s.DestroyStep? then s.invoker < |n.invokers| else HasRoom(n, s.location)
  }

  function Next(n: Net, s: Step): Net
    requires Enabled(n, s)
  {
    match s
    case ReferStep(location, dials) => Refer(n, location, dials).0
    case DestroyStep(i) => Destroy(n, i)
  }

  function Final(n: Net, steps: seq<Step>): Net
    requires IsRun(n, steps)
    decreases steps
  {
    if steps == [] then n else Final(Next(n, steps[0]), steps[1..])
  }

  lemma {:induction false} RunKeepsInv(n: Net, steps: seq<Step>)
    requires Inv(n) && IsRun(n, steps)
    ensures Inv(Final(n, steps))
    decreases steps
  {
    if steps != [] {
      match steps[0] {
        case ReferStep(location, dials) => ReferKeepsInv(n, location, dials);
        case DestroyStep(i) => DestroyKeepsInv(n, i);
      }
      RunKeepsInv(Next(n, steps[0]), steps[1..]);
    }
  }

  /** After any run, however long, every client's count is the number of its undestroyed invokers, it
      is in the map exactly while that is positive, and it was closed exactly once if the number has
      come back to zero and never otherwise. */
  lemma SharedClientsAreCounted(steps: seq<Step>, c: nat)
    requires IsRun(Init, steps) && c < |Final(Init, steps).clients|
    ensures var n := Final(Init, steps);
            var users, client := Users(n.invokers, c), n.clients[c];
            && client.activeNum == |users|
            && (client.activeNum > 0 <==> client.address in n.byAddress && n.byAddress[client.address] == c)
            && client.closes == (if client.activeNum > 0 then 0 else 1)
  {
    RunKeepsInv(Init, steps);
    assert Counted(Final(Init, steps), c);
  }

  /** No live invoker holds a closed client, and live invokers of one address share one client. */
  lemma LiveInvokersShareOpenClients(steps: seq<Step>, i: nat, j: nat)
    requires IsRun(Init, steps)
    requires var n := Final(Init, steps);
             i < |n.invokers| && j < |n.invokers| && !n.invokers[i].quit && !n.invokers[j].quit
    ensures var n := Final(Init, steps);
            && n.invokers[i].client.Some? && n.invokers[i].client.value < |n.clients|
            && n.clients[n.invokers[i].client.value].closes == 0 && n.clients[n.invokers[i].client.value].init
            && (n.invokers[i].location == n.invokers[j].location ==> n.invokers[i].client == n.invokers[j].client)
  {
    RunKeepsInv(Init, steps);
    var n := Final(Init, steps);
    var c, d := n.invokers[i].client.value, n.invokers[j].client.value;
    assert i in Users(n.invokers, c) && j in Users(n.invokers, d);
    assert Counted(n, c) && Counted(n, d);
  }

  // ---- the code ----

  class DubboProtocol {
    var clients: seq<Client>
    var exchangeClientMap: map<string, nat>
    var invokers: seq<Invoker>

    function View(): Net
      reads this
    {
      Net(clients, exchangeClientMap, invokers)
    }

    ghost predicate Valid()
      reads this
    {
      Inv(View())
    }

    constructor ()
      ensures Valid() && View() == Init
    {
      clients, exchangeClientMap, invokers := [], map[], [];
    }

    /** NewExchangeClient, with doInit's one retry unless it is put off. */
    method NewExchangeClient(location: string, lazyInit: bool, dials: (bool, bool)) returns (client: Option<nat>)
      modifies `clients
      ensures client == if lazyInit || dials.0 || dials.1 then Some(|old(clients)|) else None
      ensures clients == if client.Some? then old(clients) + [Client(location, !lazyInit, 1, 0)] else old(clients)
    {
      var fresh' := Client(location, false, 0, 0);
      if !lazyInit {
        if !dials.0 {
          if !dials.1 {
            return None;
          }
        }
        fresh' := fresh'.(init := true);
      }
      fresh' := fresh'.(activeNum := (fresh'.activeNum + 1) % TWO_32);
      client := Some(|clients|);
      clients := clients + [fresh'];
    }

    method GetExchangeClient(location: string, dials: (bool, bool)) returns (client: Option<nat>)
      requires Valid()
      modifies this
      ensures View() == Refer(old(View()), location, dials).0.(invokers := old(invokers))
      ensures client.Some? <==> Refer(old(View()), location, dials).1.Some?
      ensures client.Some? ==>
                Refer(old(View()), location, dials).0.invokers == old(invokers) + [Invoker(location, client, false)]
    {
      if location !in exchangeClientMap {
        client := NewExchangeClient(location, false, dials);
        if client.Some? {
          exchangeClientMap := exchangeClientMap[location := client.value];
        }
        return;
      }
      var c := exchangeClientMap[location];
      clients := clients[c := clients[c].(activeNum := (clients[c].activeNum + 1) % TWO_32)];
      client := Some(c);
    }

    method ReferTo(location: string, dials: (bool, bool)) returns (invoker: Option<nat>)
      requires Valid()
      modifies this
      ensures (View(), invoker) == Refer(old(View()), location, dials)
      ensures Valid() <==> old(HasRoom(View(), location))
    {
      ReferKeepsInv(View(), location, dials);
      var client := GetExchangeClient(location, dials);
      if client.None? {
        return None;
      }
      invoker := Some(|invokers|);
      invokers := invokers + [Invoker(location, client, false)];
    }

    /** DubboInvoker.Destroy, guarded by quitOnce. */
    method DestroyInvoker(i: nat)
      requires Valid() && i < |invokers|
      modifies this
      ensures Valid() && View() == Destroy(old(View()), i)
    {
      hide Counted;
      ghost var before := View();
      DestroyKeepsInv(before, i);
      if invokers[i].quit {
        return;
      }
      var client := invokers[i].client;
      invokers := invokers[i := invokers[i].(quit := true)];
      if client.Some? {
        var c := client.value;
        var activeNumber := (clients[c].activeNum - 1) % TWO_32;
        clients := clients[c := clients[c].(activeNum := activeNumber)];
        invokers := invokers[i := invokers[i].(client := None)];
        if activeNumber == 0 {
          exchangeClientMap := exchangeClientMap - {invokers[i].location};
          clients := clients[c := clients[c].(init := false, closes := clients[c].closes + 1)];
        }
      }
      assert View() == Destroy(before, i);
    }
  }
}
