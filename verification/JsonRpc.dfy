/** protocol/jsonrpc/json.go: which requests a server accepts. */
module JsonRpc {
  import opened Wrappers

  /** A JSON value by its kind; the text of compound values and numbers is kept as it stands. */
  datatype Json =
    | Null
    | Bool(value: bool)
    | Number(text: string)
    | String(text: string)
    | Array(text: string)
    | Object(text: string)

  /** A member of the request object, in document order; names may repeat. */
  datatype Member = Member(name: string, value: Json)

  datatype Field = Version | Method | Params | Id | Unknown

  /** encoding/json matches member names to fields without regard to case: `lower` folds case. */
  function FieldOf(name: string, lower: string -> string): Field {
    if name == "jsonrpc" then Version else if name == "method" then Method else if name == "params" then Params
    else if name == "id" then Id
    else if lower(name) == "jsonrpc" then Version else if lower(name) == "method" then Method
    else if lower(name) == "params" then Params else if lower(name) == "id" then Id else Unknown
  }

  function Names(ms: seq<Member>): set<string> {
    set i | 0 <= i < |ms| :: ms[i].name
  }

  /** The value of the last member of that name. */
  function Last(ms: seq<Member>, name: string): (r: Option<Json>)
    ensures r.Some? <==> name in Names(ms)
  {
    if ms == [] then None
    else
      assert ms == ms[..|ms| - 1] + [ms[|ms| - 1]];
      if ms[|ms| - 1].name == name then Some(ms[|ms| - 1].value) else Last(ms[..|ms| - 1], name)
  }

  predicate IsText(v: Json) {
    v.String? || v.Null?
  }

  /** The request object of section 4 of the JSON-RPC 2.0 Specification; of repeated members the last counts, but all
      versions and methods must be texts. */
  ghost predicate Acceptable(ms: seq<Member>) {
    && Names(ms) - {"id", "params"} == {"jsonrpc", "method"}
    && (forall i :: 0 <= i < |ms| && ms[i].name in {"jsonrpc", "method"} ==> IsText(ms[i].value))
    && Last(ms, "jsonrpc") == Some(String("2.0"))
    && Last(ms, "method").value.String?
    && ("params" in Names(ms) ==> Last(ms, "params").value.Array? || Last(ms, "params").value.Object?)
    && ("id" in Names(ms) ==>
      !Last(ms, "id").value.Bool? && !Last(ms, "id").value.Array? && !Last(ms, "id").value.Object?)
  }

  // ---- decoding into the struct ----

  /** A pointer field: not met yet, set to nil by null, or pointing to the value. */
  datatype Slot = Untouched | Nil | Holds(value: Json)

  datatype Decoded = Decoded(failed: bool, version: string, methodName: string, params: Slot, id: Slot)

  const BLANK := Decoded(false, "", "", Untouched, Untouched)

  function Slotted(v: Json): Slot {
    if v.Null? then Nil else Holds(v)
  }

  /** Null leaves a string field alone; any other value that is no string is an error. */
  function DecodeOne(d: Decoded, f: Field, v: Json): Decoded {
    match f
    case Version => if v.String? then d.(version := v.text) else d.(failed := d.failed || !v.Null?)
    case Method => if v.String? then d.(methodName := v.text) else d.(failed := d.failed || !v.Null?)
    case Params => d.(params := Slotted(v))
    case Id => d.(id := Slotted(v))
    case Unknown => d
  }

  function Decode(ms: seq<Member>, lower: string -> string): Decoded {
    if ms == [] then BLANK
    else
      var m := ms[|ms| - 1];
      DecodeOne(Decode(ms[..|ms| - 1], lower), FieldOf(m.name, lower), m.value)
  }

  ghost predicate KnownNames(ms: seq<Member>) {
    forall i :: 0 <= i < |ms| ==> ms[i].name in {"jsonrpc", "method", "params", "id"}
  }

  ghost predicate Texts(ms: seq<Member>) {
    forall i :: 0 <= i < |ms| && ms[i].name in {"jsonrpc", "method"} ==> IsText(ms[i].value)
  }

  /** What decoding leaves in the fields, when no member but the four occurs. */
  ghost predicate FieldsAreLast(d: Decoded, ms: seq<Member>) {
    && (d.failed <==> !Texts(ms))
    && (Last(ms, "jsonrpc").Some? && Last(ms, "jsonrpc").value.String? ==> d.version == Last(ms, "jsonrpc").value.text)
    && (Last(ms, "method").Some? && Last(ms, "method").value.String? ==> d.methodName == Last(ms, "method").value.text)
    && d.params == SlotOf(Last(ms, "params"))
    && d.id == SlotOf(Last(ms, "id"))
  }

  function SlotOf(v: Option<Json>): Slot {
    if v.None? then Untouched else Slotted(v.value)
  }

  lemma {:induction false} DecodeTakesLast(ms: seq<Member>, lower: string -> string)
    requires KnownNames(ms)
    ensures FieldsAreLast(Decode(ms, lower), ms)
    decreases ms
  {
    if ms != [] {
      hide FieldsAreLast, DecodeOne, FieldOf;
      var before, m := ms[..|ms| - 1], ms[|ms| - 1];
      assert ms == before + [m];
      DecodeTakesLast(before, lower);
      DecodeOneMore(Decode(before, lower), before, m, lower);
    }
  }

  lemma DecodeOneMore(d: Decoded, ms: seq<Member>, m: Member, lower: string -> string)
    requires FieldsAreLast(d, ms) && m.name in {"jsonrpc", "method", "params", "id"}
    ensures FieldsAreLast(DecodeOne(d, FieldOf(m.name, lower), m.value), ms + [m])
  {
    hide Names, Texts, Last;
    TextsOfMore(ms, m);
    LastOfMore(ms, m, "jsonrpc");
    LastOfMore(ms, m, "method");
    LastOfMore(ms, m, "params");
    LastOfMore(ms, m, "id");
  }

  lemma LastOfMore(ms: seq<Member>, m: Member, name: string)
    ensures Last(ms + [m], name) == if m.name == name then Some(m.value) else Last(ms, name)
  {
    hide Names;
    assert (ms + [m])[..|ms|] == ms;
  }

  lemma TextsOfMore(ms: seq<Member>, m: Member)
    ensures Texts(ms + [m]) <==> Texts(ms) && (m.name in {"jsonrpc", "method"} ==> IsText(m.value))
  {
    var all := ms + [m];
    assert all[|ms|] == m && forall i :: 0 <= i < |ms| ==> all[i] == ms[i];
  }

  // ---- the members by count ----

  predicate CountedOut(names: set<string>) {
    || (|names| == 3 && !("id" in names || "params" in names))
    || (|names| == 4 && !("id" in names && "params" in names))
    || |names| > 4
  }

  /** Counting the members finds exactly the requests with foreign members. */
  lemma CountingFindsForeignMembers(names: set<string>)
    requires "jsonrpc" in names && "method" in names
    ensures CountedOut(names) <==> names - {"id", "params"} != {"jsonrpc", "method"}
  {
    var extra := names - {"id", "params"} - {"jsonrpc", "method"};
    CountByParts(names, extra);
    OptionalCount(names);
    if extra == {} {
      assert names - {"id", "params"} == {"jsonrpc", "method"};
    } else {
      var x :| x in extra;
      assert |extra| >= 1 && x in names - {"id", "params"} && x !in {"jsonrpc", "method"};
    }
  }

  lemma CountByParts(names: set<string>, extra: set<string>)
    requires "jsonrpc" in names && "method" in names && extra == names - {"id", "params"} - {"jsonrpc", "method"}
    ensures |names| == 2 + |names * {"id", "params"}| + |extra|
  {
    var needed, optional := {"jsonrpc", "method"}, names * {"id", "params"};
    assert needed !! optional;
    assert needed + optional !! extra;
    assert names == needed + optional + extra;
    assert |needed| == 2;
  }

  lemma OptionalCount(names: set<string>)
    ensures |names * {"id", "params"}| == (if "id" in names then 1 else 0) + (if "params" in names then 1 else 0)
  {
    var a := if "id" in names then {"id"} else {};
    var b := if "params" in names then {"params"} else {};
    assert names * {"id", "params"} == a + b;
    assert a * b == {};
  }

  // ---- the code ----

  /** A json.RawMessage on the heap; None is the empty message. */
  class RawMessage {
    var text: Option<Json>

    constructor (v: Json)
      ensures text == Some(v)
    {
      text := Some(v);
    }
  }

  /** Decoding into a pointer field: null makes it nil, any other value is written through it. */
  method Store(slot: RawMessage?, v: Json) returns (r: RawMessage?)
    modifies slot
    ensures v.Null? ==> r == null && (slot != null ==> slot.text == old(slot.text))
    ensures !v.Null? ==> r != null && r.text == Some(v) && if slot != null then r == slot else fresh(r)
  {
    if v.Null? {
      return null;
    }
    if slot == null {
      r := new RawMessage(v);
    } else {
      slot.text := Some(v);
      r := slot;
    }
  }

  function NonNull(v: Option<Json>): Option<Json> {
    if v == Some(Null) then None else v
  }

  /** Decoding into a map of pointers: of repeated members the last counts, null gives nil. */
  method ReadMembers(ms: seq<Member>) returns (o: map<string, Option<Json>>)
    ensures o.Keys == Names(ms)
    ensures forall name :: name in o ==> o[name] == NonNull(Last(ms, name))
  {
    o := map[];
    for i := 0 to |ms|
      invariant o.Keys == Names(ms[..i])
      invariant forall name :: name in o ==> o[name] == NonNull(Last(ms[..i], name))
    {
      hide Last;
      var m := ms[i];
      assert ms[..i + 1] == ms[..i] + [m];
      forall name ensures Last(ms[..i + 1], name) == if m.name == name then Some(m.value) else Last(ms[..i], name) {
        LastOfMore(ms[..i], m, name);
      }
      NamesOfMore(ms[..i], m);
      o := o[m.name := if m.value.Null? then None else Some(m.value)];
    }
    assert ms[..|ms|] == ms;
  }

  lemma NamesOfMore(ms: seq<Member>, m: Member)
    ensures Names(ms + [m]) == Names(ms) + {m.name}
  {
    var all := ms + [m];
    assert forall i :: 0 <= i < |ms| ==> all[i] == ms[i];
    assert all[|ms|] == m;
  }

  /** What a pointer field refers to after decoding, given what it pointed to before. */
  ghost predicate Refers(p: RawMessage?, before: RawMessage?, slot: Slot)
    reads p
  {
    match slot
    case Untouched => p == before && (p != null ==> p.text == None)
    case Nil => p == null
    case Holds(v) => p != null && p.text == Some(v)
  }

  /** Every member read into the id is null. */
  ghost predicate OnlyNullIds(ms: seq<Member>, lower: string -> string) {
    forall i :: 0 <= i < |ms| && FieldOf(ms[i].name, lower) == Id ==> ms[i].value.Null?
  }

  /** The shared null while a request whose id points to it is read into: whether the id still
      points to it, and its text. */
  datatype Sharing = Sharing(attached: bool, text: Option<Json>)

  /** The reset empties it, then members are written through the id until a null one makes it nil. */
  function Shared(ms: seq<Member>, lower: string -> string): Sharing {
    if ms == [] then Sharing(true, None)
    else ShareOne(Shared(ms[..|ms| - 1], lower), FieldOf(ms[|ms| - 1].name, lower), ms[|ms| - 1].value)
  }

  function ShareOne(s: Sharing, f: Field, v: Json): Sharing {
    if f != Id then s
    else if v.Null? then s.(attached := false)
    else if s.attached then s.(text := Some(v))
    else s
  }

  /** The shared null after reading a body into a request whose id points to it, or does not. */
  function NullAfter(body: Option<seq<Member>>, lower: string -> string, points: bool,
    text: Option<Json>): Option<Json> {
    if !points then text else if body.None? then None else Shared(body.value, lower).text
  }

  lemma {:induction false} NullIdsLeaveItEmpty(ms: seq<Member>, lower: string -> string)
    requires OnlyNullIds(ms, lower)
    ensures Shared(ms, lower).text == None
    decreases ms
  {
    hide FieldOf;
    if ms != [] {
      NullIdsLeaveItEmpty(ms[..|ms| - 1], lower);
    }
  }

  class ServerRequest {
    /** The package variable null, which requests share. */
    const nullMessage: RawMessage
    var version: string
    var methodName: string
    var params: RawMessage?
    var id: RawMessage?

    ghost predicate Valid()
      reads this
    {
      params != nullMessage && (params != null ==> params != id)
    }

    constructor (nullMessage: RawMessage)
      ensures Valid() && this.nullMessage == nullMessage && params == null && id == null
    {
      this.nullMessage, version, methodName, params, id := nullMessage, "", "", null, null;
    }

    /** Empties the messages in place. */
    method Reset()
      requires Valid()
      modifies this, params, id
      ensures params == old(params) && id == old(id) && Hold(BLANK, params, id)
      ensures nullMessage.text == if id == nullMessage then None else old(nullMessage.text)
    {
      version, methodName := "", "";
      if params != null {
        params.text := None;
      }
      if id != null {
        id.text := None;
      }
    }

    /** The fields hold what decoding gives, the pointers having been `p` and `i`. */
    ghost predicate Hold(d: Decoded, p: RawMessage?, i: RawMessage?)
      reads this, params, id
    {
      version == d.version && methodName == d.methodName && Refers(params, p, d.params) && Refers(id, i, d.id)
    }

    lemma NothingHeld()
      requires Hold(BLANK, params, id)
      ensures id == nullMessage ==> nullMessage.text == None
    {
    }

    method DecodeField(f: Field, v: Json, ghost d: Decoded, ghost p: RawMessage?, ghost i: RawMessage?)
      returns (bad: bool)
      requires Valid() && Hold(d, p, i)
      modifies this, params, id
      ensures Valid() && Hold(DecodeOne(d, f, v), p, i)
      ensures bad <==> (f == Version || f == Method) && !IsText(v)
      ensures params == old(params) || params == null || fresh(params)
      ensures id == old(id) || id == null || fresh(id)
      ensures Sharing(id == nullMessage, nullMessage.text) ==
              if old(id) == nullMessage then ShareOne(Sharing(true, old(nullMessage.text)), f, v)
              else Sharing(false, old(nullMessage.text))
    {
      bad := false;
      match f
      case Version =>
        if v.String? {
          version := v.text;
        } else {
          bad := !v.Null?;
        }
      case Method =>
        if v.String? {
          methodName := v.text;
        } else {
          bad := !v.Null?;
        }
      case Params =>
        params := Store(params, v);
      case Id =>
        id := Store(id, v);
      case Unknown =>
    }

    method DecodeFields(ms: seq<Member>, lower: string -> string) returns (failed: bool)
      requires Valid() && Hold(BLANK, params, id)
      modifies this, params, id
      ensures Valid() && Hold(Decode(ms, lower), old(params), old(id)) && failed == Decode(ms, lower).failed
      ensures Sharing(id == nullMessage, nullMessage.text) ==
              if old(id) == nullMessage then Shared(ms, lower) else Sharing(false, old(nullMessage.text))
      ensures params == old(params) || params == null || fresh(params)
      ensures id == old(id) || id == null || fresh(id)
    {
      hide FieldOf, DecodeOne, Hold;
      failed := false;
      DecodeNone(ms, lower);
      NothingHeld();
      ghost var p0, i0 := params, id;
      for k := 0 to |ms|
        invariant Valid() && Hold(Decode(ms[..k], lower), p0, i0) && failed == Decode(ms[..k], lower).failed
        invariant params == p0 || params == null || fresh(params)
        invariant id == i0 || id == null || fresh(id)
        invariant Sharing(id == nullMessage, nullMessage.text) ==
                  if i0 == nullMessage then Shared(ms[..k], lower) else Sharing(false, old(nullMessage.text))
      {
        hide FieldOf, Decode, Shared, DecodeOne, Hold;
        var f := FieldOf(ms[k].name, lower);
        DecodeStep(ms, k, lower);
        DecodeFails(Decode(ms[..k], lower), f, ms[k].value);
        var bad := DecodeField(f, ms[k].value, Decode(ms[..k], lower), p0, i0);
        failed := failed || bad;
      }
      assert ms[..|ms|] == ms;
    }

    /** Fails for a body that is no JSON object. Otherwise accepts exactly the acceptable bodies, a
        null id only while the shared null reads as an id, and takes over their values. A request
        whose id points to the shared null, because its last id was null, empties or overwrites it. */
    method UnmarshalJSON(body: Option<seq<Member>>, lower: string -> string) returns (ok: bool)
      requires Valid()
      modifies this, params, id
      ensures Valid() && (params == old(params) || params == null || fresh(params))
      ensures nullMessage.text == NullAfter(body, lower, old(id) == nullMessage, old(nullMessage.text))
      ensures ok <==>
                body.Some? && Acceptable(body.value) &&
                (Last(body.value, "id") == Some(Null) ==> IdText(nullMessage.text))
      ensures ok ==> version == "2.0" && Last(body.value, "method") == Some(String(methodName))
      ensures ok && "params" in Names(body.value) ==> params != null && params.text == Last(body.value, "params")
      ensures ok && Last(body.value, "id") == Some(Null) ==> id == nullMessage
      ensures ok && "id" in Names(body.value) && Last(body.value, "id") != Some(Null) ==>
                id != null && id.text == Last(body.value, "id")
      ensures ok && "id" !in Names(body.value) ==> id == old(id) && (id != null ==> id.text == None)
    {
      hide FieldOf, Decode, Shared, Acceptable, Last, Names, Passes;
      Reset();
      if body.None? {
        return false;
      }
      var ms := body.value;
      DecodeDecides(ms, lower);
      IdIsTouched(ms, lower);
      var failed := DecodeFields(ms, lower);
      if failed {
        FailedDoesNotPass(ms, Decode(ms, lower));
        return false;
      }
      ok := CheckMembers(ms, Decode(ms, lower), old(params), old(id));
    }

    /** Everything UnmarshalJSON does after decoding into the fields. */
    method CheckMembers(ms: seq<Member>, ghost d: Decoded, ghost p: RawMessage?, ghost i: RawMessage?)
      returns (ok: bool)
      requires Valid() && Hold(d, p, i) && !d.failed && ("id" in Names(ms) ==> d.id != Untouched)
      modifies `id
      ensures Valid()
      ensures ok <==> Passes(ms, d) && ("id" in Names(ms) && d.id == Nil ==> IdText(nullMessage.text))
      ensures ok ==> id == if "id" in Names(ms) && d.id == Nil then nullMessage else old(id)
    {
      hide Last, CountedOut, Names;
      var o := ReadMembers(ms);
      if "jsonrpc" !in o || o["jsonrpc"].None? || "method" !in o || o["method"].None? {
        return false;
      }
      var okId, okParams := "id" in o, "params" in o;
      if CountedOut(o.Keys) || version != "2.0" {
        return false;
      }
      if okParams {
        if params == null || params.text.None? {
          return false;
        }
        if !params.text.value.Array? && !params.text.value.Object? {
          return false;
        }
      }
      if okId && id == null {
        id := nullMessage;
      }
      if okId {
        if id.text.None? {
          return false;
        }
        if id.text.value.Bool? || id.text.value.Array? || id.text.value.Object? {
          return false;
        }
      }
      return true;
    }
  }

  predicate IdText(t: Option<Json>) {
    t.Some? && !(t.value.Bool? || t.value.Array? || t.value.Object?)
  }

  lemma FailedDoesNotPass(ms: seq<Member>, d: Decoded)
    requires d.failed
    ensures !Passes(ms, d)
  {
  }

  /** The tests on the decoded fields. */
  ghost predicate Passes(ms: seq<Member>, d: Decoded) {
    && !d.failed
    && NonNull(Last(ms, "jsonrpc")).Some? && NonNull(Last(ms, "method")).Some?
    && !CountedOut(Names(ms)) && d.version == "2.0"
    && ("params" in Names(ms) ==> d.params.Holds? && (d.params.value.Array? || d.params.value.Object?))
    && ("id" in Names(ms) ==> !d.id.Holds? || !(d.id.value.Bool? || d.id.value.Array? || d.id.value.Object?))
  }

  /** They pass exactly the acceptable bodies, and then the fields are the members' last values. */
  lemma DecodeDecides(ms: seq<Member>, lower: string -> string)
    ensures Acceptable(ms) <==> Passes(ms, Decode(ms, lower))
    ensures Passes(ms, Decode(ms, lower)) ==> Values(Decode(ms, lower), ms)
  {
    hide Decode, Last, Names, Acceptable, Passes, FieldsAreLast, Values;
    if Acceptable(ms) {
      AcceptableIsKnown(ms);
      DecodeTakesLast(ms, lower);
      AcceptablePasses(ms, Decode(ms, lower));
    }
    if Passes(ms, Decode(ms, lower)) {
      PassedIsKnown(ms, Decode(ms, lower));
      DecodeTakesLast(ms, lower);
      PassedIsAcceptable(ms, Decode(ms, lower));
    }
  }

  lemma NamesAreKnown(ms: seq<Member>)
    requires Names(ms) - {"id", "params"} == {"jsonrpc", "method"}
    ensures KnownNames(ms)
  {
    forall i | 0 <= i < |ms| ensures ms[i].name in {"jsonrpc", "method", "params", "id"} {
      assert ms[i].name in Names(ms);
      assert ms[i].name in {"id", "params"} || ms[i].name in Names(ms) - {"id", "params"};
    }
  }

  lemma AcceptableIsKnown(ms: seq<Member>)
    requires Acceptable(ms)
    ensures KnownNames(ms)
  {
    hide Names, Last;
    NamesAreKnown(ms);
  }

  lemma PassedIsKnown(ms: seq<Member>, d: Decoded)
    requires Passes(ms, d)
    ensures KnownNames(ms) && Names(ms) - {"id", "params"} == {"jsonrpc", "method"}
  {
    hide Names, Last, CountedOut;
    CountingFindsForeignMembers(Names(ms));
    NamesAreKnown(ms);
  }

  lemma AcceptablePasses(ms: seq<Member>, d: Decoded)
    requires Acceptable(ms) && FieldsAreLast(d, ms)
    ensures Passes(ms, d)
  {
    hide Names, Last, CountedOut;
    assert "jsonrpc" in Names(ms) - {"id", "params"} && "method" in Names(ms) - {"id", "params"};
    CountingFindsForeignMembers(Names(ms));
  }

  /** The fields hold the values of an accepted body. */
  ghost predicate Values(d: Decoded, ms: seq<Member>) {
    && d.version == "2.0" && Last(ms, "method") == Some(String(d.methodName))
    && d.params == SlotOf(Last(ms, "params")) && d.id == SlotOf(Last(ms, "id"))
    && ("params" in Names(ms) ==> d.params.Holds?)
  }

  lemma PassedIsAcceptable(ms: seq<Member>, d: Decoded)
    requires Passes(ms, d) && FieldsAreLast(d, ms)
    ensures Acceptable(ms) && Values(d, ms)
  {
    PassedIsKnown(ms, d);
    TextsOfLast(ms);
    hide Names, Last, CountedOut;
  }

  /** Of texts the last of a name is a text. */
  lemma {:induction false} TextsOfLast(ms: seq<Member>)
    ensures Texts(ms) && "jsonrpc" in Names(ms) ==> IsText(Last(ms, "jsonrpc").value)
    ensures Texts(ms) && "method" in Names(ms) ==> IsText(Last(ms, "method").value)
    decreases ms
  {
    if ms != [] {
      hide Last, Names;
      var before, m := ms[..|ms| - 1], ms[|ms| - 1];
      assert ms == before + [m];
      TextsOfLast(before);
      TextsOfMore(before, m);
      NamesOfMore(before, m);
      LastOfMore(before, m, "jsonrpc");
      LastOfMore(before, m, "method");
    }
  }

  /** A member named id is read into the id. */
  lemma {:induction false} IdIsTouched(ms: seq<Member>, lower: string -> string)
    ensures "id" in Names(ms) ==> Decode(ms, lower).id != Untouched
    decreases ms
  {
    if ms != [] {
      hide FieldOf, Decode, Shared, Names;
      var k := |ms| - 1;
      assert ms[..k + 1] == ms == ms[..k] + [ms[k]];
      DecodeStep(ms, k, lower);
      IdIsTouched(ms[..k], lower);
      NamesOfMore(ms[..k], ms[k]);
      IdIsId(ms[k].name, lower);
    }
  }

  lemma IdIsId(name: string, lower: string -> string)
    ensures name == "id" ==> FieldOf(name, lower) == Id
  {
  }

  lemma DecodeNone(ms: seq<Member>, lower: string -> string)
    ensures Decode(ms[..0], lower) == BLANK && Shared(ms[..0], lower) == Sharing(true, None)
  {
  }

  lemma DecodeFails(d: Decoded, f: Field, v: Json)
    ensures DecodeOne(d, f, v).failed <==> d.failed || ((f == Version || f == Method) && !IsText(v))
  {
  }

  lemma DecodeStep(ms: seq<Member>, k: nat, lower: string -> string)
    requires k < |ms|
    ensures Decode(ms[..k + 1], lower) == DecodeOne(Decode(ms[..k], lower), FieldOf(ms[k].name, lower), ms[k].value)
    ensures Shared(ms[..k + 1], lower) == ShareOne(Shared(ms[..k], lower), FieldOf(ms[k].name, lower), ms[k].value)
  {
    hide FieldOf, DecodeOne, ShareOne;
    assert ms[..k + 1][..k] == ms[..k];
  }

  // ---- runs ----

  /** The server reads every request into a new codec: over any run it accepts exactly the acceptable
      bodies, and the shared null stays intact. */
  method Serve(bodies: seq<Option<seq<Member>>>, nullMessage: RawMessage, lower: string -> string)
    returns (accepted: seq<bool>)
    requires nullMessage.text == Some(Null)
    ensures |accepted| == |bodies|
    ensures forall i :: 0 <= i < |bodies| ==> (accepted[i] <==> bodies[i].Some? && Acceptable(bodies[i].value))
  {
    hide Acceptable, Last, Names;
    accepted := [];
    for i := 0 to |bodies|
      invariant nullMessage.text == Some(Null) && |accepted| == i
      invariant forall j :: 0 <= j < i ==> (accepted[j] <==> bodies[j].Some? && Acceptable(bodies[j].value))
    {
      var r := new ServerRequest(nullMessage);
      var ok := r.UnmarshalJSON(bodies[i], lower);
      accepted := accepted + [ok];
    }
  }

  /** A request read into twice, and then a new one. An acceptable body with a null id is accepted
      first. What it leaves of the shared null decides the other two, and with no id but null in
      the body both are refused: the shared null stays empty for all later requests. */
  method ReadTwice(ms: seq<Member>, nullMessage: RawMessage, lower: string -> string)
    returns (first: bool, second: bool, third: bool)
    requires nullMessage.text == Some(Null) && Acceptable(ms) && Last(ms, "id") == Some(Null)
    modifies nullMessage
    ensures first && nullMessage.text == Shared(ms, lower).text
    ensures (second <==> IdText(Shared(ms, lower).text)) && (third <==> IdText(Shared(ms, lower).text))
    ensures OnlyNullIds(ms, lower) ==> !second && !third && nullMessage.text == None
  {
    hide Acceptable, OnlyNullIds, Last, Names, Shared;
    if OnlyNullIds(ms, lower) {
      NullIdsLeaveItEmpty(ms, lower);
    }
    var r := new ServerRequest(nullMessage);
    first := r.UnmarshalJSON(Some(ms), lower);
    second := r.UnmarshalJSON(Some(ms), lower);
    var fresh' := new ServerRequest(nullMessage);
    third := fresh'.UnmarshalJSON(Some(ms), lower);
  }
}
