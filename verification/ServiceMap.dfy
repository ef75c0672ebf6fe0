/** common/rpc_service.go: the provider's services under two indexes, by protocol and service key
    and by interface. Register and UnRegister are each one step. */
module ServiceMap {
  import opened Wrappers
  import opened Keys

  /** A pointer to a Service: `id` tells two allocations apart. */
  datatype Service = Service(id: nat, name: string)

  /** What reflection finds in the object to register: the type name and its suitable methods. */
  datatype Receiver = Receiver(typeName: string, exported: bool, suitableMethods: nat)

  type ByKey = map<string, map<string, Service>>
  type ByInterface = map<string, seq<Service>>

  datatype Maps = Maps(services: ByKey, interfaces: ByInterface, next: nat)

  function Find(m: ByKey, protocol: string, key: string): Option<Service> {
    if protocol in m && key in m[protocol] then Some(m[protocol][key]) else None
  }

  function ListOf(m: ByInterface, intf: string): seq<Service> {
    if intf in m then m[intf] else []
  }

  /** Register first makes the empty tables it may need, and keeps them also when it fails. */
  function Opened(m: Maps, intf: string, protocol: string): Maps {
    Maps(if protocol in m.services then m.services else m.services[protocol := map[]],
         if intf in m.interfaces then m.interfaces else m.interfaces[intf := []], m.next)
  }

  predicate Registrable(m: Maps, protocol: string, key: string, r: Receiver) {
    r.typeName != "" && r.exported && Find(m.services, protocol, key).None? && r.suitableMethods > 0
  }

  function Registered(m: Maps, intf: string, protocol: string, key: string, r: Receiver): Maps {
    var o := Opened(m, intf, protocol);
    if !Registrable(m, protocol, key, r) then o
    else
      var s := Service(m.next, key);
      Maps(o.services[protocol := o.services[protocol][key := s]], o.interfaces[intf := o.interfaces[intf] + [s]],
        m.next + 1)
  }

  predicate Removable(m: Maps, intf: string, protocol: string, key: string) {
    protocol != "" && key != "" && Find(m.services, protocol, key).Some? && intf in m.interfaces
  }

  /** The list without its last `s`. */
  function Remove(list: seq<Service>, s: Service): seq<Service> {
    if list == [] then []
    else if list[|list| - 1] == s then list[..|list| - 1]
    else Remove(list[..|list| - 1], s) + [list[|list| - 1]]
  }

  function Closed(m: ByKey, protocol: string, key: string): ByKey
    requires protocol in m
  {
    if (m[protocol] - {key}).Keys == {} then m - {protocol} else m[protocol := m[protocol] - {key}]
  }

  function Unregistered(m: Maps, intf: string, protocol: string, key: string): Maps {
    if !Removable(m, intf, protocol, key) then m
    else
      var s := m.services[protocol][key];
      Maps(Closed(m.services, protocol, key), m.interfaces[intf := Remove(m.interfaces[intf], s)], m.next)
  }

  // ---- what the two indexes describe ----

  /** One registration in force. */
  datatype Entry = Entry(intf: string, protocol: string, service: Service)

  function Listed(log: seq<Entry>, intf: string): seq<Service> {
    if log == [] then []
    else
      var e := log[|log| - 1];
      Listed(log[..|log| - 1], intf) + if e.intf == intf then [e.service] else []
  }

  function Lookup(log: seq<Entry>, protocol: string, key: string): Option<Service> {
    if log == [] then None
    else
      var e := log[|log| - 1];
      if e.protocol == protocol && e.service.name == key then Some(e.service)
      else Lookup(log[..|log| - 1], protocol, key)
  }

  ghost predicate Separate(log: seq<Entry>, next: nat) {
    && (forall e :: e in log ==> e.service.id < next)
    && (forall i, j :: 0 <= i < j < |log| ==>
          && log[i].service.id != log[j].service.id
          && (log[i].protocol != log[j].protocol || log[i].service.name != log[j].service.name))
  }

  /** Both indexes show exactly the registrations in `log`: a lookup finds the one registration of
      that protocol and key, and every interface lists its services in the order they came. */
  ghost predicate Describes(m: Maps, log: seq<Entry>) {
    && (forall p, k :: Find(m.services, p, k) == Lookup(log, p, k))
    && (forall i :: ListOf(m.interfaces, i) == Listed(log, i))
    && (forall e :: e in log ==> e.intf in m.interfaces)
    && Separate(log, m.next)
  }

  lemma ListedSnoc(log: seq<Entry>, e: Entry, intf: string)
    ensures Listed(log + [e], intf) == Listed(log, intf) + if e.intf == intf then [e.service] else []
  {
    assert (log + [e])[..|log|] == log;
  }

  lemma LookupSnoc(log: seq<Entry>, e: Entry, protocol: string, key: string)
    ensures Lookup(log + [e], protocol, key) ==
            if e.protocol == protocol && e.service.name == key then Some(e.service) else Lookup(log, protocol, key)
  {
    assert (log + [e])[..|log|] == log;
  }

  lemma RemoveSnoc(list: seq<Service>, x: Service, s: Service)
    ensures Remove(list + [x], s) == if x == s then list else Remove(list, s) + [x]
  {
    assert (list + [x])[..|list|] == list;
  }

  lemma {:induction false} LookupIs(log: seq<Entry>, protocol: string, key: string)
    ensures match Lookup(log, protocol, key)
            case Some(s) => exists e :: e in log && e.protocol == protocol && e.service == s && s.name == key
            case None => forall e :: e in log ==> e.protocol != protocol || e.service.name != key
  {
    if log != [] {
      LookupIs(log[..|log| - 1], protocol, key);
      assert log == log[..|log| - 1] + [log[|log| - 1]];
      assert log[|log| - 1] in log;
    }
  }

  lemma RegisterDescribes(m: Maps, log: seq<Entry>, intf: string, protocol: string, key: string, r: Receiver)
    requires Describes(m, log)
    ensures Describes(Registered(m, intf, protocol, key, r),
                      if Registrable(m, protocol, key, r) then log + [Entry(intf, protocol, Service(m.next, key))]
                        else log)
  {
    hide Lookup, Listed, Separate;
    var m' := Registered(m, intf, protocol, key, r);
    if Registrable(m, protocol, key, r) {
      var e := Entry(intf, protocol, Service(m.next, key));
      FoundAfterRegister(m, intf, protocol, key, r);
      forall p, k ensures Find(m'.services, p, k) == Lookup(log + [e], p, k) {
        LookupSnoc(log, e, p, k);
      }
      forall i ensures ListOf(m'.interfaces, i) == Listed(log + [e], i) {
        ListedSnoc(log, e, i);
      }
      LookupIs(log, protocol, key);
      SeparateSnoc(log, e, m.next);
    } else {
      FailedRegisterChangesNothing(m, intf, protocol, key, r);
    }
  }

  lemma FoundAfterRegister(m: Maps, intf: string, protocol: string, key: string, r: Receiver)
    requires Registrable(m, protocol, key, r)
    ensures var m', s := Registered(m, intf, protocol, key, r), Service(m.next, key);
            && (forall p, k :: Find(m'.services, p, k) ==
                  if p == protocol && k == key then Some(s) else Find(m.services, p, k))
            && (forall i :: ListOf(m'.interfaces, i) == ListOf(m.interfaces, i) + if i == intf then [s] else [])
  {
  }

  lemma SeparateSnoc(log: seq<Entry>, e: Entry, next: nat)
    requires Separate(log, next) && e.service.id == next
    requires forall x :: x in log ==> x.protocol != e.protocol || x.service.name != e.service.name
    ensures Separate(log + [e], next + 1)
  {
  }

  /** A failed Register, a duplicate one in particular, changes no lookup and no list. */
  lemma FailedRegisterChangesNothing(m: Maps, intf: string, protocol: string, key: string, r: Receiver)
    requires !Registrable(m, protocol, key, r)
    ensures var m' := Registered(m, intf, protocol, key, r);
            && (forall p, k :: Find(m'.services, p, k) == Find(m.services, p, k))
            && (forall i :: ListOf(m'.interfaces, i) == ListOf(m.interfaces, i))
            && m'.interfaces.Keys >= m.interfaces.Keys && m'.next == m.next
  {
  }

  /** The registrations without that of `s`, in the same order. */
  function Drop(log: seq<Entry>, s: Service): seq<Entry> {
    if log == [] then []
    else Drop(log[..|log| - 1], s) + if log[|log| - 1].service == s then [] else [log[|log| - 1]]
  }

  lemma {:induction false} DropAbsent(log: seq<Entry>, s: Service)
    requires forall e :: e in log ==> e.service != s
    ensures Drop(log, s) == log
  {
    if log != [] {
      assert log[|log| - 1] in log;
      DropAbsent(log[..|log| - 1], s);
    }
  }

  lemma EmptyLists(intf: string, s: Service)
    ensures Listed([], intf) == [] && Remove([], s) == []
  {
  }

  lemma SeparateFront(log: seq<Entry>, e: Entry, next: nat)
    requires Separate(log + [e], next)
    ensures Separate(log, next) && forall x :: x in log ==> x.service != e.service
  {
    var all := log + [e];
    forall i | 0 <= i < |log| ensures all[i] == log[i] && log[i].service.id != e.service.id {
      assert all[|log|] == e;
    }
  }

  lemma {:induction false} DropListed(log: seq<Entry>, next: nat, s: Service, intf: string)
    requires Separate(log, next)
    ensures Listed(Drop(log, s), intf) == Remove(Listed(log, intf), s)
  {
    hide Separate, Listed, Remove;
    if log == [] {
      EmptyLists(intf, s);
    } else {
      var front, e := log[..|log| - 1], log[|log| - 1];
      assert log == front + [e];
      SeparateFront(front, e, next);
      DropListed(front, next, s, intf);
      ListedSnoc(front, e, intf);
      RemoveSnoc(Listed(front, intf), e.service, s);
      if e.service == s {
        DropAbsent(front, s);
        ListedHas(front, intf, s);
        RemoveAbsent(Listed(front, intf), s);
        assert Drop(log, s) == front;
      } else {
        ListedSnoc(Drop(front, s), e, intf);
        assert Drop(log, s) == Drop(front, s) + [e];
      }
      assert Listed(front, intf) + [] == Listed(front, intf);
    }
  }

  lemma {:induction false} DropMembers(log: seq<Entry>, s: Service, next: nat)
    requires Separate(log, next)
    ensures Separate(Drop(log, s), next)
    ensures forall e :: e in Drop(log, s) <==> e in log && e.service != s
  {
    if log != [] {
      var front, e := log[..|log| - 1], log[|log| - 1];
      assert log == front + [e];
      DropMembers(front, s, next);
      forall x | x in front
        ensures x.service.id != e.service.id && (x.protocol != e.protocol || x.service.name != e.service.name)
      {
        var i :| 0 <= i < |front| && front[i] == x;
        assert log[i] == x;
      }
    }
  }

  lemma SameEntry(log: seq<Entry>, next: nat, x: Entry, y: Entry)
    requires Separate(log, next) && x in log && y in log
    requires (x.protocol == y.protocol && x.service.name == y.service.name) || x.service.id == y.service.id
    ensures x == y
  {
    var i :| 0 <= i < |log| && log[i] == x;
    var j :| 0 <= j < |log| && log[j] == y;
  }

  lemma DropLookup(log: seq<Entry>, next: nat, s: Service, protocol: string, key: string)
    requires Separate(log, next)
    ensures Lookup(Drop(log, s), protocol, key) ==
            if Lookup(log, protocol, key) == Some(s) then None else Lookup(log, protocol, key)
  {
    hide Lookup, Drop, Separate;
    LookupIs(log, protocol, key);
    LookupIs(Drop(log, s), protocol, key);
    DropMembers(log, s, next);
    var was, now := Lookup(log, protocol, key), Lookup(Drop(log, s), protocol, key);
    if now.Some? {
      var x :| x in Drop(log, s) && x.protocol == protocol && x.service == now.value && x.service.name == key;
      var y :| y in log && y.protocol == protocol && y.service == was.value && y.service.name == key;
      SameEntry(log, next, x, y);
    } else if was.Some? {
      var y :| y in log && y.protocol == protocol && y.service == was.value && y.service.name == key;
      assert y !in Drop(log, s);
    }
  }

  /** The interface under which the service of this protocol and key was registered. */
  ghost predicate RegisteredUnder(log: seq<Entry>, intf: string, protocol: string, key: string) {
    forall e :: e in log && e.protocol == protocol && e.service.name == key ==> e.intf == intf
  }

  lemma {:induction false} RemoveAbsent(list: seq<Service>, s: Service)
    requires s !in list
    ensures Remove(list, s) == list
  {
    if list != [] {
      RemoveAbsent(list[..|list| - 1], s);
    }
  }

  lemma {:induction false} ListedHas(log: seq<Entry>, intf: string, s: Service)
    ensures s in Listed(log, intf) <==> exists e :: e in log && e.intf == intf && e.service == s
  {
    if log != [] {
      var front, e := log[..|log| - 1], log[|log| - 1];
      ListedHas(front, intf, s);
      assert log == front + [e];
      assert forall x :: x in log <==> x in front || x == e;
    }
  }

  lemma FindAfterClose(m: ByKey, protocol: string, key: string, p: string, k: string)
    requires protocol in m
    ensures Find(Closed(m, protocol, key), p, k) == if p == protocol && k == key then None else Find(m, p, k)
  {
    if p == protocol && k != key && k in m[protocol] {
      assert k in (m[protocol] - {key}).Keys;
    }
  }

  /** UnRegister that names the right interface takes out that one registration and no other. */
  lemma UnregisterDescribes(m: Maps, log: seq<Entry>, intf: string, protocol: string, key: string)
    requires Describes(m, log) && Removable(m, intf, protocol, key) && RegisteredUnder(log, intf, protocol, key)
    ensures Describes(Unregistered(m, intf, protocol, key), Drop(log, m.services[protocol][key]))
  {
    var m', s := Unregistered(m, intf, protocol, key), m.services[protocol][key];
    LookupIs(log, protocol, key);
    assert Find(m.services, protocol, key) == Lookup(log, protocol, key) == Some(s);
    var e :| e in log && e.protocol == protocol && e.service == s && s.name == key;
    forall p, k ensures Find(m'.services, p, k) == Lookup(Drop(log, s), p, k) {
      FindAfterClose(m.services, protocol, key, p, k);
      DropLookup(log, m.next, s, p, k);
      OnlyOneKey(log, m.next, e, p, k);
    }
    forall i ensures ListOf(m'.interfaces, i) == Listed(Drop(log, s), i) {
      OtherInterface(log, m.next, e, i);
      DropListed(log, m.next, s, i);
    }
    DropMembers(log, s, m.next);
  }

  lemma OnlyOneKey(log: seq<Entry>, next: nat, e: Entry, p: string, k: string)
    requires Separate(log, next) && e in log
    ensures Lookup(log, p, k) == Some(e.service) ==> p == e.protocol && k == e.service.name
  {
    LookupIs(log, p, k);
    if Lookup(log, p, k) == Some(e.service) {
      var x :| x in log && x.protocol == p && x.service == e.service && x.service.name == k;
      SameEntry(log, next, x, e);
    }
  }

  lemma OtherInterface(log: seq<Entry>, next: nat, e: Entry, i: string)
    requires Separate(log, next) && e in log
    ensures i != e.intf ==> Remove(Listed(log, i), e.service) == Listed(log, i)
  {
    ListedHas(log, i, e.service);
    if i != e.intf {
      if e.service in Listed(log, i) {
        var x :| x in log && x.intf == i && x.service == e.service;
        SameEntry(log, next, x, e);
      }
      RemoveAbsent(Listed(log, i), e.service);
    }
  }

  /** UnRegister that names another interface leaves the service in its interface's list but under
      no key: after that no set of registrations explains both indexes any more. */
  lemma WrongInterfaceBreaksIndexes(m: Maps, log: seq<Entry>, intf: string, protocol: string, key: string,
    log': seq<Entry>)
    requires Describes(m, log) && Removable(m, intf, protocol, key) && !RegisteredUnder(log, intf, protocol, key)
    ensures !Describes(Unregistered(m, intf, protocol, key), log')
  {
    var m', s := Unregistered(m, intf, protocol, key), m.services[protocol][key];
    var e :| e in log && e.protocol == protocol && e.service.name == key && e.intf != intf;
    FoundIsEntry(m, log, e);
    ListedHas(log, e.intf, s);
    if Describes(m', log') {
      assert ListOf(m'.interfaces, e.intf) == Listed(log, e.intf);
      ListedHas(log', e.intf, s);
      var x :| x in log' && x.intf == e.intf && x.service == s;
      FoundIsEntry(m', log', x);
      FindAfterClose(m.services, protocol, key, x.protocol, key);
      OnlyOneKey(log, m.next, e, x.protocol, key);
      assert false;
    }
  }

  lemma FoundIsEntry(m: Maps, log: seq<Entry>, e: Entry)
    requires Describes(m, log) && e in log
    ensures Find(m.services, e.protocol, e.service.name) == Some(e.service)
  {
    LookupIs(log, e.protocol, e.service.name);
    var found := Lookup(log, e.protocol, e.service.name);
    var x :| x in log && x.protocol == e.protocol && x.service == found.value && x.service.name == e.service.name;
    SameEntry(log, m.next, x, e);
  }

  // ---- whole runs ----

  datatype Step =
    | Register(intf: string, protocol: string, group: string, version: string, receiver: Receiver)
    | UnRegister(intf: string, protocol: string, key: string)

  function Next(m: Maps, s: Step): Maps {
    match s
    case Register(i, p, g, v, r) => Registered(m, i, p, ServiceKey(i, g, v), r)
    case UnRegister(i, p, k) => Unregistered(m, i, p, k)
  }

  function NextLog(m: Maps, log: seq<Entry>, s: Step): seq<Entry> {
    match s
    case Register(i, p, g, v, r) =>
      var key := ServiceKey(i, g, v);
      if Registrable(m, p, key, r) then log + [Entry(i, p, Service(m.next, key))] else log
    case UnRegister(i, p, k) =>
      if Removable(m, i, p, k) then Drop(log, m.services[p][k]) else log
  }

  /** Every UnRegister of the run that goes through names the interface its key came in under. */
  ghost predicate NamesItsInterface(m: Maps, log: seq<Entry>, steps: seq<Step>)
    decreases steps
  {
    steps == [] ||
    ((steps[0].UnRegister? ==> RegisteredUnder(log, steps[0].intf, steps[0].protocol, steps[0].key)) &&
     NamesItsInterface(Next(m, steps[0]), NextLog(m, log, steps[0]), steps[1..]))
  }

  function Final(m: Maps, log: seq<Entry>, steps: seq<Step>): (Maps, seq<Entry>)
    decreases steps
  {
    if steps == [] then (m, log) else Final(Next(m, steps[0]), NextLog(m, log, steps[0]), steps[1..])
  }

  const Init := Maps(map[], map[], 0)

  lemma {:induction false} RunDescribes(m: Maps, log: seq<Entry>, steps: seq<Step>)
    requires Describes(m, log) && NamesItsInterface(m, log, steps)
    ensures Describes(Final(m, log, steps).0, Final(m, log, steps).1)
    decreases steps
  {
    hide Describes;
    if steps != [] {
      match steps[0] {
        case Register(i, p, g, v, r) => RegisterDescribes(m, log, i, p, ServiceKey(i, g, v), r);
        case UnRegister(i, p, k) => if Removable(m, i, p, k) { UnregisterDescribes(m, log, i, p, k); }
      }
      RunDescribes(Next(m, steps[0]), NextLog(m, log, steps[0]), steps[1..]);
    }
  }

  lemma StartsEmpty()
    ensures Describes(Init, [])
  {
  }

  /** After any such run from the start both indexes describe the registrations that were made and
      not taken back, in the order they were made. */
  lemma IndexesAgree(steps: seq<Step>)
    requires NamesItsInterface(Init, [], steps)
    ensures Describes(Final(Init, [], steps).0, Final(Init, [], steps).1)
  {
    StartsEmpty();
    RunDescribes(Init, [], steps);
  }

  // ---- the code ----

  class ServiceTable {
    var serviceMap: ByKey
    var interfaceMap: ByInterface
    var next: nat

    ghost function View(): Maps
      reads this
    {
      Maps(serviceMap, interfaceMap, next)
    }

    constructor ()
      ensures View() == Init
    {
      serviceMap, interfaceMap, next := map[], map[], 0;
    }

    function GetServiceByServiceKey(protocol: string, serviceKey: string): Option<Service>
      reads this
    {
      Find(serviceMap, protocol, serviceKey)
    }

    method RegisterService(interfaceName: string, protocol: string, group: string, version: string, rcvr: Receiver)
      returns (ok: bool)
      modifies this
      ensures View() == Next(old(View()), Register(interfaceName, protocol, group, version, rcvr))
      ensures ok <==> Registrable(old(View()), protocol, ServiceKey(interfaceName, group, version), rcvr)
      ensures var key := ServiceKey(interfaceName, group, version);
              && (ok <==> rcvr.typeName != "" && rcvr.exported && rcvr.suitableMethods > 0 &&
                          (protocol !in old(serviceMap) || key !in old(serviceMap)[protocol]))
              && (ok ==> GetServiceByServiceKey(protocol, key) == Some(Service(old(next), key)))
    {
      if protocol !in serviceMap {
        serviceMap := serviceMap[protocol := map[]];
      }
      if interfaceName !in interfaceMap {
        interfaceMap := interfaceMap[interfaceName := []];
      }
      if rcvr.typeName == "" || !rcvr.exported {
        return false;
      }
      var sname := ServiceKey(interfaceName, group, version);
      if GetServiceByServiceKey(protocol, sname).Some? {
        return false;
      }
      if rcvr.suitableMethods == 0 {
        return false;
      }
      var s := Service(next, sname);
      next := next + 1;
      serviceMap := serviceMap[protocol := serviceMap[protocol][sname := s]];
      interfaceMap := interfaceMap[interfaceName := interfaceMap[interfaceName] + [s]];
      return true;
    }

    method UnRegisterService(interfaceName: string, protocol: string, serviceKey: string) returns (ok: bool)
      modifies this
      ensures View() == Next(old(View()), UnRegister(interfaceName, protocol, serviceKey))
      ensures ok <==> Removable(old(View()), interfaceName, protocol, serviceKey)
      ensures ok <==> protocol != "" && serviceKey != "" && protocol in old(serviceMap) &&
                      serviceKey in old(serviceMap)[protocol] && interfaceName in old(interfaceMap)
    {
      hide Remove, ServiceKey, Registered, Closed;
      if protocol == "" || serviceKey == "" {
        return false;
      }
      if protocol !in serviceMap || serviceKey !in serviceMap[protocol] || interfaceName !in interfaceMap {
        return false;
      }
      var s, svrs := serviceMap[protocol][serviceKey], interfaceMap[interfaceName];
      var index := LastIndexOf(svrs, s);
      var rest := AllBut(svrs, index);
      RemoveAt(svrs, s, index);
      interfaceMap := interfaceMap[interfaceName := rest];
      DeleteKey(protocol, serviceKey);
      return true;
    }

    method DeleteKey(protocol: string, serviceKey: string)
      requires protocol in serviceMap
      modifies `serviceMap
      ensures serviceMap == Closed(old(serviceMap), protocol, serviceKey)
    {
      var svcs := serviceMap[protocol] - {serviceKey};
      serviceMap := serviceMap[protocol := svcs];
      if |svcs| == 0 {
        serviceMap := serviceMap - {protocol};
      }
    }
  }

  method LastIndexOf(svrs: seq<Service>, s: Service) returns (index: int)
    ensures -1 <= index < |svrs| && (index >= 0 ==> svrs[index] == s)
    ensures forall j :: index < j < |svrs| ==> svrs[j] != s
  {
    index := -1;
    for i := 0 to |svrs|
      invariant -1 <= index < i && (index >= 0 ==> svrs[index] == s)
      invariant forall j :: index < j < i ==> svrs[j] != s
    {
      if svrs[i] == s {
        index := i;
      }
    }
  }

  method AllBut(svrs: seq<Service>, index: int) returns (rest: seq<Service>)
    requires -1 <= index < |svrs|
    ensures rest == if index < 0 then svrs else svrs[..index] + svrs[index + 1..]
  {
    rest := [];
    for i := 0 to |svrs|
      invariant rest == if index < 0 || i <= index then svrs[..i] else svrs[..index] + svrs[index + 1..i]
    {
      if i != index {
        rest := rest + [svrs[i]];
      }
    }
    assert svrs[..|svrs|] == svrs;
  }

  lemma {:induction false} RemoveLastOf(a: seq<Service>, s: Service, b: seq<Service>)
    requires s !in b
    ensures Remove(a + [s] + b, s) == a + b
  {
    hide Remove;
    if b == [] {
      RemoveSnoc(a, s, s);
      assert a + [s] + b == a + [s] && a + b == a;
    } else {
      var front, x := b[..|b| - 1], b[|b| - 1];
      RemoveLastOf(a, s, front);
      RemoveSnoc(a + [s] + front, x, s);
      assert a + [s] + b == (a + [s] + front) + [x] && a + b == (a + front) + [x];
    }
  }

  lemma RemoveAt(list: seq<Service>, s: Service, index: int)
    requires -1 <= index < |list| && (index >= 0 ==> list[index] == s)
    requires forall j :: index < j < |list| ==> list[j] != s
    ensures Remove(list, s) == if index < 0 then list else list[..index] + list[index + 1..]
  {
    hide Remove;
    if index < 0 {
      RemoveAbsent(list, s);
    } else {
      RemoveLastOf(list[..index], s, list[index + 1..]);
      assert list == list[..index] + [s] + list[index + 1..];
    }
  }
}
