/** common/metadata_info.go: the services of an application and the revision computed from them. */
module Metadata {
  import Keys
  import opened MachineInts

  /** `crc` stands for crc32.ChecksumIEEE. */
  ghost predicate IsChecksum(crc: string -> nat) {
    forall s :: crc(s) < TWO_32
  }

  // ---- candidates ----

  datatype Entry = Entry(serviceKey: string, methods: seq<string>)

  function Candidates(e: Entry): seq<string> {
    if e.methods == [] then [e.serviceKey]
    else seq(|e.methods|, i requires 0 <= i < |e.methods| => e.serviceKey + ":" + e.methods[i])
  }

  /** The candidates of all services together. */
  ghost function Bag(services: map<string, Entry>): multiset<string> {
    if services == map[] then multiset{}
    else
      var k :| k in services;
      multiset(Candidates(services[k])) + Bag(services - {k})
  }

  lemma UnfoldBag(services: map<string, Entry>) returns (k: string)
    requires services != map[]
    ensures k in services && Bag(services) == multiset(Candidates(services[k])) + Bag(services - {k})
  {
    hide Candidates;
    k :| k in services && Bag(services) == multiset(Candidates(services[k])) + Bag(services - {k});
  }

  lemma DropEitherFirst(services: map<string, Entry>, j: string, k: string)
    ensures services - {j} - {k} == services - {k} - {j}
  {
  }

  lemma {:induction false} BagInAnyOrder(services: map<string, Entry>, k: string)
    requires k in services
    ensures Bag(services) == multiset(Candidates(services[k])) + Bag(services - {k})
    decreases services
  {
    hide Candidates, Bag;
    var j := UnfoldBag(services);
    if j != k {
      BagInAnyOrder(services - {j}, k);
      BagInAnyOrder(services - {k}, j);
      DropEitherFirst(services, j, k);
    }
  }

  /** The checksums of a bag, added up. */
  ghost function Total(bag: multiset<string>, crc: string -> nat): nat {
    if bag == multiset{} then 0
    else
      var s :| s in bag;
      crc(s) + Total(bag - multiset{s}, crc)
  }

  lemma UnfoldTotal(bag: multiset<string>, crc: string -> nat) returns (s: string)
    requires bag != multiset{}
    ensures s in bag && Total(bag, crc) == crc(s) + Total(bag - multiset{s}, crc)
  {
    s :| s in bag && Total(bag, crc) == crc(s) + Total(bag - multiset{s}, crc);
  }

  lemma EitherFirst(bag: multiset<string>, s: string, t: string)
    ensures bag - multiset{t} - multiset{s} == bag - multiset{s} - multiset{t}
  {
  }

  lemma {:induction false} TotalInAnyOrder(bag: multiset<string>, s: string, crc: string -> nat)
    requires s in bag
    ensures Total(bag, crc) == crc(s) + Total(bag - multiset{s}, crc)
    decreases bag
  {
    hide Total;
    var t := UnfoldTotal(bag, crc);
    if t != s {
      TotalInAnyOrder(bag - multiset{t}, s, crc);
      TotalInAnyOrder(bag - multiset{s}, t, crc);
      EitherFirst(bag, s, t);
    }
  }

  lemma {:induction false} TotalIsBounded(bag: multiset<string>, crc: string -> nat)
    requires IsChecksum(crc)
    ensures Total(bag, crc) <= |bag| * (TWO_32 - 1)
    decreases bag
  {
    if bag != multiset{} {
      var s :| s in bag;
      TotalInAnyOrder(bag, s, crc);
      TotalIsBounded(bag - multiset{s}, crc);
    }
  }

  /** The list starts out with eight empty strings. */
  ghost function AllCandidates(services: map<string, Entry>): multiset<string> {
    Bag(services)["" := Bag(services)[""] + 8]
  }

  /** The 64-bit sum does not wrap for fewer than 2^32 candidates. */
  lemma SumDoesNotWrap(services: map<string, Entry>, crc: string -> nat)
    requires IsChecksum(crc) && |AllCandidates(services)| < TWO_32
    ensures Total(AllCandidates(services), crc) % TWO_64 == Total(AllCandidates(services), crc)
  {
    TotalIsBounded(AllCandidates(services), crc);
  }

  // ---- what a method adds ----

  lemma OneMoreCandidate(key: string, methods: seq<string>, m: string)
    ensures multiset(Candidates(Entry(key, methods + [m]))) ==
            (if methods == [] then multiset{} else multiset(Candidates(Entry(key, methods)))) + multiset{key + ":" + m}
  {
    var all := Candidates(Entry(key, methods + [m]));
    if methods == [] {
      assert all == [key + ":" + m];
    } else {
      assert all == Candidates(Entry(key, methods)) + [key + ":" + m];
    }
  }

  /** A further method of a service adds the candidate that names it; the first one also takes away the
      candidate that names the service alone. */
  lemma OneMoreMethod(services: map<string, Entry>, k: string, m: string)
    requires k in services
    ensures var e := services[k];
            Bag(services[k := Entry(e.serviceKey, e.methods + [m])]) ==
            (if e.methods == [] then Bag(services) - multiset{e.serviceKey} else Bag(services)) +
              multiset{e.serviceKey + ":" + m}
  {
    hide Bag;
    var e := services[k];
    var more := services[k := Entry(e.serviceKey, e.methods + [m])];
    BagInAnyOrder(services, k);
    BagInAnyOrder(more, k);
    assert more - {k} == services - {k};
    OneMoreCandidate(e.serviceKey, e.methods, m);
  }

  /** A further service without methods adds the candidate that names it. */
  lemma OneMoreService(services: map<string, Entry>, k: string, key: string)
    requires k !in services
    ensures Bag(services[k := Entry(key, [])]) == Bag(services) + multiset{key} && Bag(map[]) == multiset{}
  {
    hide Bag;
    var more := services[k := Entry(key, [])];
    BagInAnyOrder(more, k);
    assert more - {k} == services;
    NoServices();
  }

  lemma NoServices()
    ensures Bag(map[]) == multiset{}
  {
  }

  lemma SumsDiffer(t: nat, c: nat)
    requires c < TWO_64
    ensures (t + c) % TWO_64 == t % TWO_64 <==> c == 0
  {
  }

  /** So a service that gains a further method gets a new revision unless the checksum of that one
      candidate is zero. */
  lemma RevisionSeesTheMethod(services: map<string, Entry>, k: string, m: string, crc: string -> nat)
    requires IsChecksum(crc) && k in services && services[k].methods != []
    ensures var e := services[k];
            Revision(services[k := Entry(e.serviceKey, e.methods + [m])], crc) == Revision(services, crc) <==>
            crc(e.serviceKey + ":" + m) == 0
  {
    hide Bag, Total, Decimal;
    var e := services[k];
    var more, s := services[k := Entry(e.serviceKey, e.methods + [m])], e.serviceKey + ":" + m;
    OneMoreMethod(services, k, m);
    assert s[|e.serviceKey|] == ':' && s != "";
    assert AllCandidates(more) == AllCandidates(services) + multiset{s};
    TotalInAnyOrder(AllCandidates(more), s, crc);
    assert AllCandidates(more) - multiset{s} == AllCandidates(services);
    RevisionsAgree(more, services, crc);
    SumsDiffer(Total(AllCandidates(services), crc), crc(s));
  }

  // ---- decimals ----

  const DIGITS := "0123456789"

  function Decimal(n: nat): string {
    if n < 10 then [DIGITS[n]] else Decimal(n / 10) + [DIGITS[n % 10]]
  }

  function ValueOf(s: string): int {
    if s == "" then 0 else 10 * ValueOf(s[..|s| - 1]) + (s[|s| - 1] as int - '0' as int)
  }

  /** The digits of a number read back as that number, and start with a zero only for zero itself. */
  lemma {:induction false} DecimalReadsBack(n: nat)
    ensures ValueOf(Decimal(n)) == n && Decimal(n) != "" && forall c :: c in Decimal(n) ==> '0' <= c <= '9'
    ensures Decimal(n)[0] == '0' ==> n == 0
  {
    DigitIs(n % 10);
    if n >= 10 {
      DecimalReadsBack(n / 10);
      assert Decimal(n)[..|Decimal(n)| - 1] == Decimal(n / 10);
    } else {
      assert [DIGITS[n]][..0] == "" && ValueOf("") == 0;
    }
  }

  lemma DigitIs(i: nat)
    requires i < 10
    ensures '0' <= DIGITS[i] <= '9' && DIGITS[i] as int - '0' as int == i
  {
  }

  lemma DigitsDiffer(i: nat, j: nat)
    requires i < 10 && j < 10 && DIGITS[i] == DIGITS[j]
    ensures i == j
  {
  }

  lemma {:induction false} DecimalIsInjective(m: nat, n: nat)
    requires Decimal(m) == Decimal(n)
    ensures m == n
    decreases m
  {
    var a, b := Decimal(m), Decimal(n);
    assert a[|a| - 1] == DIGITS[m % 10] && b[|b| - 1] == DIGITS[n % 10];
    DigitsDiffer(m % 10, n % 10);
    if m >= 10 && n >= 10 {
      assert a[..|a| - 1] == Decimal(m / 10) && b[..|b| - 1] == Decimal(n / 10);
      DecimalIsInjective(m / 10, n / 10);
    } else {
      LongerDecimals(m);
      LongerDecimals(n);
    }
  }

  lemma LongerDecimals(n: nat)
    ensures if n < 10 then |Decimal(n)| == 1 else |Decimal(n)| > 1
  {
  }

  /** Two service sets get the same revision exactly if their checksums add up alike, and so
      whenever their candidates are the same, in whatever order they are listed. */
  lemma RevisionsAgree(a: map<string, Entry>, b: map<string, Entry>, crc: string -> nat)
    ensures Revision(a, crc) == Revision(b, crc) <==>
              Total(AllCandidates(a), crc) % TWO_64 == Total(AllCandidates(b), crc) % TWO_64
    ensures Bag(a) == Bag(b) ==> Revision(a, crc) == Revision(b, crc)
  {
    hide Total, Bag, Decimal;
    if Revision(a, crc) == Revision(b, crc) {
      DecimalIsInjective(Total(AllCandidates(a), crc) % TWO_64, Total(AllCandidates(b), crc) % TWO_64);
    }
  }

  ghost function Revision(services: map<string, Entry>, crc: string -> nat): string {
    Decimal(Total(AllCandidates(services), crc) % TWO_64)
  }

  // ---- the code ----

  class ServiceInfo {
    const name: string
    const group: string
    const version: string
    const protocol: string
    const methods: seq<string>
    var serviceKey: string
    var matchKey: string

    constructor (name: string, group: string, version: string, protocol: string, methods: seq<string>)
      ensures this.name == name && this.group == group && this.version == version && this.protocol == protocol
      ensures this.methods == methods
      ensures serviceKey == Keys.ServiceKey(name, group, version) && matchKey == serviceKey + ":" + protocol
    {
      this.name, this.group, this.version, this.protocol, this.methods := name, group, version, protocol, methods;
      var key := Keys.ServiceKey(name, group, version);
      serviceKey, matchKey := key, key + ":" + protocol;
    }

    /** What GetServiceKey and GetMatchKey answer: the stored key, or the one they make and store. */
    ghost function ServiceKeyNow(): string
      reads this
    {
      if serviceKey != "" then serviceKey else Keys.ServiceKey(name, group, version)
    }

    ghost function MatchKeyNow(): string
      reads this
    {
      if matchKey != "" then matchKey else ServiceKeyNow() + ":" + protocol
    }

    method GetServiceKey() returns (key: string)
      modifies this
      ensures key == serviceKey == old(ServiceKeyNow()) && matchKey == old(matchKey)
    {
      if serviceKey == "" {
        serviceKey := Keys.ServiceKey(name, group, version);
      }
      return serviceKey;
    }

    method GetMatchKey() returns (key: string)
      modifies this
      ensures key == matchKey == old(MatchKeyNow())
      ensures serviceKey == if old(matchKey) != "" then old(serviceKey) else old(ServiceKeyNow())
    {
      if matchKey != "" {
        return matchKey;
      }
      var sk := GetServiceKey();
      matchKey := sk + ":" + protocol;
      return matchKey;
    }
  }

  class MetadataInfo {
    var reported: bool
    var revision: string
    var services: map<string, ServiceInfo>

    ghost function Entries(): map<string, Entry>
      reads `services, services.Values
    {
      map k | k in services :: Entry(services[k].serviceKey, services[k].methods)
    }

    constructor ()
      ensures !reported && revision == "" && services == map[]
    {
      reported, revision, services := false, "", map[];
    }

    method MarkReported()
      modifies `reported
      ensures reported
    {
      reported := true;
    }

    /** Stores under the service's match key, which the service then knows. */
    method AddService(service: ServiceInfo?)
      modifies `services, service
      ensures service == null ==> services == old(services)
      ensures service != null ==> services == old(services)[old(service.MatchKeyNow()) := service]
      ensures service != null ==> service.matchKey == old(service.MatchKeyNow())
    {
      if service == null {
        return;
      }
      var key := service.GetMatchKey();
      services := services[key := service];
    }

    /** Removes what is stored under the match key the service knows: right after AddService of
        the same object that is what was added. */
    method RemoveService(service: ServiceInfo?)
      modifies `services
      ensures services == if service == null then old(services) else old(services) - {service.matchKey}
    {
      if service != null {
        services := services - {service.matchKey};
      }
    }

    /** The services' candidates, in any order of the services. */
    method CollectCandidates() returns (candidates: seq<string>)
      ensures multiset(candidates) == AllCandidates(Entries())
    {
      hide Candidates, Bag, AllCandidates, Collected;
      candidates := ["", "", "", "", "", "", "", ""];
      ghost var all, left := AllCandidates(Entries()), Entries();
      NothingCollected(left);
      var todo := services.Keys;
      while todo != {}
        invariant left.Keys == todo <= services.Keys
        invariant forall k :: k in todo ==> left[k] == Entry(services[k].serviceKey, services[k].methods)
        invariant Collected(candidates, left, all)
      {
        var k :| k in todo;
        var more := CandidatesOf(services[k]);
        CollectedMore(candidates, more, left, k, all);
        candidates, todo, left := candidates + more, todo - {k}, left - {k};
      }
      AllCollected(candidates, left, all);
    }

    method CandidatesOf(s: ServiceInfo) returns (cs: seq<string>)
      ensures cs == Candidates(Entry(s.serviceKey, s.methods))
    {
      cs := [];
      if s.methods == [] {
        return [s.serviceKey];
      }
      for i := 0 to |s.methods|
        invariant |cs| == i && forall j :: 0 <= j < i ==> cs[j] == s.serviceKey + ":" + s.methods[j]
      {
        cs := cs + [s.serviceKey + ":" + s.methods[i]];
      }
    }

    /** sort.Strings is any rearrangement: the sum does not depend on it. */
    method CalAndGetRevision(crc: string -> nat) returns (r: string)
      modifies `revision
      ensures old(revision) != "" && reported ==> r == old(revision) == revision
      ensures !(old(revision) != "" && reported) && services == map[] ==> r == "0" && revision == old(revision)
      ensures !(old(revision) != "" && reported) && services != map[] ==> r == revision == Revision(Entries(), crc)
    {
      hide Candidates, Bag, Total, Decimal;
      if revision != "" && reported {
        return revision;
      }
      if services == map[] {
        return "0";
      }
      var candidates := CollectCandidates();
      var sorted :| multiset(sorted) == multiset(candidates);
      var res := SumChecksums(sorted, crc);
      revision := Decimal(res);
      return revision;
    }
  }

  /** With the candidates of the services left to visit these are all. */
  ghost predicate Collected(candidates: seq<string>, left: map<string, Entry>, all: multiset<string>) {
    multiset(candidates) + Bag(left) == all
  }

  lemma NothingCollected(services: map<string, Entry>)
    ensures Collected(["", "", "", "", "", "", "", ""], services, AllCandidates(services))
  {
    hide Bag;
  }

  lemma CollectedMore(
    candidates: seq<string>, more: seq<string>, left: map<string, Entry>, k: string, all: multiset<string>)
    requires k in left && more == Candidates(left[k]) && Collected(candidates, left, all)
    ensures Collected(candidates + more, left - {k}, all)
  {
    hide Bag, Candidates;
    BagInAnyOrder(left, k);
    assert multiset(candidates + more) == multiset(candidates) + multiset(more);
  }

  lemma AllCollected(candidates: seq<string>, left: map<string, Entry>, all: multiset<string>)
    requires Collected(candidates, left, all) && left.Keys == {}
    ensures multiset(candidates) == all
  {
    assert left == map[];
  }

  method SumChecksums(cs: seq<string>, crc: string -> nat) returns (res: nat)
    ensures res == Total(multiset(cs), crc) % TWO_64
  {
    hide Total;
    res := 0;
    EmptyTotal(crc);
    for i := 0 to |cs|
      invariant res == Total(multiset(cs[..i]), crc) % TWO_64
    {
      TotalOfMore(cs[..i], cs[i], crc);
      assert cs[..i + 1] == cs[..i] + [cs[i]];
      SumWraps(Total(multiset(cs[..i]), crc), crc(cs[i]));
      res := (res + crc(cs[i])) % TWO_64;
    }
    assert cs[..|cs|] == cs;
  }

  lemma SumWraps(a: nat, b: nat)
    ensures (a % TWO_64 + b) % TWO_64 == (a + b) % TWO_64
  {
    WholeTurns64(a % TWO_64 + b, a / TWO_64);
  }

  lemma EmptyTotal(crc: string -> nat)
    ensures Total(multiset{}, crc) == 0
  {
  }

  lemma TotalOfMore(cs: seq<string>, c: string, crc: string -> nat)
    ensures Total(multiset(cs + [c]), crc) == Total(multiset(cs), crc) + crc(c)
  {
    hide Total;
    TotalInAnyOrder(multiset(cs + [c]), c, crc);
    assert multiset(cs + [c]) - multiset{c} == multiset(cs);
  }
}
