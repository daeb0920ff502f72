/** Binding a batch to the principal that sent it, before it enters the pipeline. */
module Admission {
  import opened Options
  import opened Sequences
  import opened Routing
  import opened Placement

  datatype Indexes = All | Only(list: seq<string>)

  predicate Allows(i: Indexes, index: string) { i.All? || index in i.list }

  datatype Principal = Principal(tenant: string, indexes: Indexes)

  datatype Verdict = Admitted(defaulted: nat, refused: nat) | WrongTenant | IndexRefused

  /** The first index of the list the tenant has. */
  function FirstOwned(t: Tenancy, tenant: string, list: seq<string>): (r: Option<string>)
    ensures r.Some? ==> r.value in list && IndexOf(t, tenant, r.value) == r
  {
    if list == [] then None
    else if IndexOf(t, tenant, list[0]).Some? then Some(list[0])
    else FirstOwned(t, tenant, list[1..])
  }

  /** Where a record of this principal goes when it names no index it may use. */
  function DefaultFor(t: Tenancy, p: Principal): (r: Option<string>)
    requires Sound(t)
    ensures r.Some? ==> Allows(p.indexes, r.value) && IndexOf(t, p.tenant, r.value) == r
  {
    match DefaultIndexOf(t, p.tenant)
    case None => None
    case Some(d) =>
      if Allows(p.indexes, d) then Some(d)
      else match p.indexes
        case All => Some(d)
        case Only(list) => FirstOwned(t, p.tenant, list)
  }

  function UnknownOf(t: Tenancy, tenant: string): UnknownIndex {
    match Configured(t, tenant)
    case None => Refuse
    case Some(x) => x.unknown
  }

  predicate ForeignTenant(a: Attr, tenant: string) {
    a.key == ATTR_TENANT && a.value != Str(tenant)
  }

  /** What a record asks for; the tenant attribute is never read as an index. */
  function Asked(attrs: seq<Attr>, key: string): Option<string> {
    if attrs == [] then None
    else if attrs[0].key != ATTR_TENANT && NamesIndex(attrs[0], key) then Some(attrs[0].value.text)
    else Asked(attrs[1..], key)
  }

  /** The index may be used as asked. */
  predicate Usable(t: Tenancy, p: Principal, index: string) {
    IndexOf(t, p.tenant, index).Some? && Allows(p.indexes, index)
  }

  /** The record names an index it may not use, and the tenant sends those to the default. */
  predicate GoesToDefault(t: Tenancy, p: Principal, asked: Option<string>)
    requires Sound(t)
  {
    asked.Some? && !Usable(t, p, asked.value) && UnknownOf(t, p.tenant).ToDefault? && DefaultFor(t, p).Some?
  }

  function ChosenIndex(t: Tenancy, p: Principal, asked: Option<string>): (r: Option<string>)
    requires Sound(t)
    ensures r.Some? ==> Allows(p.indexes, r.value) && IndexOf(t, p.tenant, r.value) == r
  {
    if asked.None? then DefaultFor(t, p)
    else if Usable(t, p, asked.value) then asked
    else if GoesToDefault(t, p, asked) then DefaultFor(t, p)
    else None
  }

  function Stripped(attrs: seq<Attr>, key: string): (r: seq<Attr>)
    ensures forall a :: a in r <==> a in attrs && !NamesIndex(a, key) && a.key != ATTR_TENANT
  {
    if attrs == [] then []
    else
      var rest := Stripped(attrs[1..], key);
      if NamesIndex(attrs[0], key) || attrs[0].key == ATTR_TENANT then rest else [attrs[0]] + rest
  }

  /** The record as it enters the pipeline. */
  function Placed(t: Tenancy, p: Principal, record: Record, key: string, index: string): Record
    requires Sound(t)
  {
    var indexed := WithIndex(t, Stripped(record.attributes, key), p.tenant, index);
    var attrs := if p.tenant == Own(t) then indexed else indexed + [Attr(ATTR_TENANT, Str(p.tenant))];
    record.(attributes := attrs)
  }

  /** The batch after the second pass: each record with a chosen index, placed; the others taken out. */
  function Kept(t: Tenancy, p: Principal, records: seq<Record>, key: string): seq<Record>
    requires Sound(t)
  {
    if records == [] then []
    else
      var k := |records| - 1;
      var index := ChosenIndex(t, p, Asked(records[k].attributes, key));
      var here := if index.Some? then [Placed(t, p, records[k], key, index.value)] else [];
      Kept(t, p, records[..k], key) + here
  }

  function CountRefused(t: Tenancy, p: Principal, records: seq<Record>, key: string): nat
    requires Sound(t)
  {
    if records == [] then 0
    else
      var k := |records| - 1;
      var here := if ChosenIndex(t, p, Asked(records[k].attributes, key)).None? then 1 else 0;
      CountRefused(t, p, records[..k], key) + here
  }

  function CountDefaulted(t: Tenancy, p: Principal, records: seq<Record>, key: string): nat
    requires Sound(t)
  {
    if records == [] then 0
    else
      var k := |records| - 1;
      var here := if GoesToDefault(t, p, Asked(records[k].attributes, key)) then 1 else 0;
      CountDefaulted(t, p, records[..k], key) + here
  }

  predicate ForeignRecord(r: Record, tenant: string) {
    exists j :: 0 <= j < |r.attributes| && ForeignTenant(r.attributes[j], tenant)
  }

  /** Some record carries another tenant than the principal's. */
  ghost predicate Foreign(records: seq<Record>, tenant: string) {
    exists i :: 0 <= i < |records| && ForeignRecord(records[i], tenant)
  }

  // ---- what a record is due

  ghost predicate May(p: Principal, index: string) { p.indexes.All? || index in p.indexes.list }

  /** Where this principal's records go by default: the tenant's default when the principal may use it, else the
      first index of its list the tenant has. */
  ghost predicate FallbackIs(t: Tenancy, p: Principal, index: string) {
    if DefaultIs(t, p.tenant, index) && May(p, index) then true
    else
      && p.indexes.Only? && (exists d :: DefaultIs(t, p.tenant, d) && !May(p, d))
      && exists i: nat :: FirstOwnedAt(t, p.tenant, p.indexes.list, i) && p.indexes.list[i] == index
  }

  ghost predicate FirstOwnedAt(t: Tenancy, tenant: string, list: seq<string>, i: nat) {
    i < |list| && Has(t, tenant, list[i]) && forall j :: 0 <= j < i ==> !Has(t, tenant, list[j])
  }

  /** Attribute `i` is the first that names an index; the tenant attribute never does. */
  predicate AsksAt(attrs: seq<Attr>, key: string, i: nat) {
    && i < |attrs| && Asking(attrs[i], key)
    && forall j :: 0 <= j < i ==> !Asking(attrs[j], key)
  }

  predicate Asking(a: Attr, key: string) {
    a.key != "logless.tenant" && (a.key == key || a.key == "logless.index")
  }

  /** The record asks for an index it may not have, and the tenant sends those to the default. */
  ghost predicate Redirected(t: Tenancy, p: Principal, attrs: seq<Attr>, key: string) {
    && (exists i: nat :: AsksAt(attrs, key, i) && !(Has(t, p.tenant, attrs[i].value.text) && May(p, attrs[i].value.text)))
    && SendsToDefault(t, p.tenant)
  }

  /** The index due to a record: the one it asks for when the tenant has it and the principal may use it; the
      default when it asks for none, or for another and the tenant sends those to the default. */
  ghost predicate IndexDue(t: Tenancy, p: Principal, attrs: seq<Attr>, key: string, index: string) {
    || (exists i: nat :: AsksAt(attrs, key, i) && attrs[i].value.text == index && Has(t, p.tenant, index) && May(p, index))
    || ((Redirected(t, p, attrs, key) || forall i: nat :: !AsksAt(attrs, key, i)) && FallbackIs(t, p, index))
  }

  lemma {:induction false} AskedAt(attrs: seq<Attr>, key: string) returns (i: nat)
    ensures var r := Asked(attrs, key);
      if r.Some? then AsksAt(attrs, key, i) && attrs[i].value.text == r.value && (forall j: nat :: AsksAt(attrs, key, j) ==> j == i)
      else forall j: nat :: !AsksAt(attrs, key, j)
  {
    i := 0;
    if attrs != [] {
      assert ATTR_TENANT == "logless.tenant" && ATTR_INDEX == "logless.index";
      if !Asking(attrs[0], key) {
        var k := AskedAt(attrs[1..], key);
        i := k + 1;
        forall j: nat | AsksAt(attrs, key, j) ensures j > 0 && AsksAt(attrs[1..], key, j - 1) {}
      }
    }
  }

  lemma {:induction false} FirstOwnedIs(t: Tenancy, tenant: string, list: seq<string>) returns (i: nat)
    requires Sound(t)
    ensures var r := FirstOwned(t, tenant, list);
      if r.Some? then FirstOwnedAt(t, tenant, list, i) && list[i] == r.value
      else forall j :: 0 <= j < |list| ==> !Has(t, tenant, list[j])
  {
    hide IndexOf, Has;
    i := 0;
    if list != [] {
      TenancySays(t, tenant, list[0]);
      if IndexOf(t, tenant, list[0]).None? {
        var k := FirstOwnedIs(t, tenant, list[1..]);
        i := k + 1;
      }
    }
  }

  lemma FallbackIsDefault(t: Tenancy, p: Principal, index: string)
    requires Sound(t)
    ensures DefaultFor(t, p) == Some(index) <==> FallbackIs(t, p, index)
  {
    hide IndexOf, DefaultIndexOf, Has, DefaultIs, FirstOwned;
    TenancySays(t, p.tenant, index);
    var d := DefaultIndexOf(t, p.tenant);
    forall x ensures d == Some(x) <==> DefaultIs(t, p.tenant, x) { TenancySays(t, p.tenant, x); }
    if p.indexes.Only? {
      var i := FirstOwnedIs(t, p.tenant, p.indexes.list);
      forall j: nat | FirstOwnedAt(t, p.tenant, p.indexes.list, j) && FirstOwned(t, p.tenant, p.indexes.list).Some?
        ensures j == i {}
    }
  }

  /** The chosen index is the one due; a record none is due to is refused. */
  lemma ChosenIsDue(t: Tenancy, p: Principal, attrs: seq<Attr>, key: string, index: string)
    requires Sound(t)
    ensures ChosenIndex(t, p, Asked(attrs, key)) == Some(index) <==> IndexDue(t, p, attrs, key, index)
    ensures GoesToDefault(t, p, Asked(attrs, key)) <==> Redirected(t, p, attrs, key) && DefaultFor(t, p).Some?
  {
    hide IndexOf, Has, DefaultFor, FallbackIs, Configured, SendsToDefault, Asked, AsksAt;
    var i := AskedAt(attrs, key);
    FallbackIsDefault(t, p, index);
    TenancySays(t, p.tenant, index);
    if Asked(attrs, key).Some? { TenancySays(t, p.tenant, attrs[i].value.text); }
  }

  // ---- what a batch is due

  ghost predicate NoneDue(t: Tenancy, p: Principal, attrs: seq<Attr>, key: string) {
    forall index :: !IndexDue(t, p, attrs, key, index)
  }

  /** The record as kept: body and other attributes as they came, in order; then its index unless that is the
      tenant's default; then its tenant unless that is the instance's own. */
  ghost predicate PlacedAs(t: Tenancy, p: Principal, was: Record, now: Record, key: string, index: string)
    requires Sound(t)
  {
    && now.body == was.body
    && now.attributes == Filter(was.attributes, (a: Attr) => a.key != key && a.key != "logless.index" && a.key != "logless.tenant")
         + (if DefaultIs(t, p.tenant, index) then [] else [Attr("logless.index", Str(index))])
         + (if p.tenant == t.tenants[0].id then [] else [Attr("logless.tenant", Str(p.tenant))])
  }

  /** `batch` holds, in order, the records some index is due to, each placed in that index. */
  ghost predicate AdmittedFrom(t: Tenancy, p: Principal, records: seq<Record>, key: string, batch: seq<Record>, places: seq<nat>)
    requires Sound(t)
  {
    && (forall j, k :: 0 <= j < k < |places| ==> places[j] < places[k])
    && (forall i: nat :: i in places <==> i < |records| && !NoneDue(t, p, records[i].attributes, key))
    && |batch| == |places|
    && forall j :: 0 <= j < |batch| ==> places[j] < |records| && KeptAs(t, p, records[places[j]], batch[j], key)
  }

  ghost predicate KeptAs(t: Tenancy, p: Principal, was: Record, now: Record, key: string)
    requires Sound(t)
  {
    exists index :: IndexDue(t, p, was.attributes, key, index) && PlacedAs(t, p, was, now, key, index)
  }

  ghost predicate AdmittedAs(t: Tenancy, p: Principal, records: seq<Record>, key: string, batch: seq<Record>)
    requires Sound(t)
  {
    exists places :: AdmittedFrom(t, p, records, key, batch, places)
  }

  /** The records no index is due to. */
  ghost function RefusedAt(t: Tenancy, p: Principal, records: seq<Record>, key: string): set<nat> {
    set i: nat | i < |records| && NoneDue(t, p, records[i].attributes, key)
  }

  /** The records sent to the default instead of the index they ask for. */
  ghost function DefaultedAt(t: Tenancy, p: Principal, records: seq<Record>, key: string): set<nat> {
    set i: nat | i < |records| && Redirected(t, p, records[i].attributes, key) && !NoneDue(t, p, records[i].attributes, key)
  }

  lemma {:induction false} StrippedIs(attrs: seq<Attr>, key: string)
    ensures Stripped(attrs, key) ==
      Filter(attrs, (a: Attr) => a.key != key && a.key != "logless.index" && a.key != "logless.tenant")
  {
    if attrs != [] {
      var keep := (a: Attr) => a.key != key && a.key != "logless.index" && a.key != "logless.tenant";
      StrippedIs(attrs[1..], key);
      FilterJoins([attrs[0]], attrs[1..], keep);
      assert attrs == [attrs[0]] + attrs[1..];
      FilterOne(attrs[0], keep);
    }
  }

  lemma PlacedIsAs(t: Tenancy, p: Principal, record: Record, key: string, index: string)
    requires Sound(t)
    ensures PlacedAs(t, p, record, Placed(t, p, record, key, index), key, index)
  {
    hide Stripped, DefaultIs, DefaultIndexOf;
    StrippedIs(record.attributes, key);
    TenancySays(t, p.tenant, index);
  }

  lemma RecordIsDue(t: Tenancy, p: Principal, record: Record, key: string)
    requires Sound(t)
    ensures var index := ChosenIndex(t, p, Asked(record.attributes, key));
      && (index.None? <==> NoneDue(t, p, record.attributes, key))
      && (index.Some? ==> KeptAs(t, p, record, Placed(t, p, record, key, index.value), key))
    ensures GoesToDefault(t, p, Asked(record.attributes, key)) <==>
      Redirected(t, p, record.attributes, key) && !NoneDue(t, p, record.attributes, key)
  {
    var attrs := record.attributes;
    var index := ChosenIndex(t, p, Asked(attrs, key));
    RedirectedIsKept(t, p, attrs, key);
    hide ChosenIndex, Asked, IndexDue, PlacedAs, GoesToDefault, Placed, Redirected;
    forall x ensures index == Some(x) <==> IndexDue(t, p, attrs, key, x) { ChosenIsDue(t, p, attrs, key, x); }
    if index.Some? { PlacedIsAs(t, p, record, key, index.value); }
  }

  lemma ChosenOrNone(t: Tenancy, p: Principal, record: Record, key: string)
    requires Sound(t)
    ensures var index := ChosenIndex(t, p, Asked(record.attributes, key));
      if index.Some? then IndexDue(t, p, record.attributes, key, index.value) else NoneDue(t, p, record.attributes, key)
  {
    hide ChosenIndex, Asked, IndexDue, KeptAs;
    RecordIsDue(t, p, record, key);
    var index := ChosenIndex(t, p, Asked(record.attributes, key));
    if index.Some? { ChosenIsDue(t, p, record.attributes, key, index.value); }
  }

  lemma RedirectedIsKept(t: Tenancy, p: Principal, attrs: seq<Attr>, key: string)
    requires Sound(t)
    ensures GoesToDefault(t, p, Asked(attrs, key)) <==>
      Redirected(t, p, attrs, key) && ChosenIndex(t, p, Asked(attrs, key)).Some?
  {
    hide IndexOf, Has, DefaultFor, Configured, SendsToDefault, Asked, AsksAt;
    var i := AskedAt(attrs, key);
    ChosenIsDue(t, p, attrs, key, "");
    if Asked(attrs, key).Some? { TenancySays(t, p.tenant, attrs[i].value.text); }
  }

  lemma {:induction false} KeptAreDue(t: Tenancy, p: Principal, records: seq<Record>, key: string) returns (places: seq<nat>)
    requires Sound(t)
    ensures AdmittedFrom(t, p, records, key, Kept(t, p, records, key), places)
  {
    hide ChosenIndex, Asked, Placed, KeptAs, NoneDue;
    if records == [] {
      places := [];
    } else {
      var k := |records| - 1;
      places := KeptAreDue(t, p, records[..k], key);
      RecordIsDue(t, p, records[k], key);
      assert forall j :: 0 <= j < |places| ==> places[j] in places;
      if !NoneDue(t, p, records[k].attributes, key) {
        places := places + [k];
      }
    }
  }

  lemma {:induction false} CountsAreDue(t: Tenancy, p: Principal, records: seq<Record>, key: string)
    requires Sound(t)
    ensures CountRefused(t, p, records, key) == |RefusedAt(t, p, records, key)|
    ensures CountDefaulted(t, p, records, key) == |DefaultedAt(t, p, records, key)|
  {
    hide ChosenIndex, GoesToDefault, Asked, KeptAs, NoneDue, Redirected, RefusedAt, DefaultedAt;
    PlacesNext(t, p, records, key);
    if records != [] {
      CountsAreDue(t, p, records[..|records|-1], key);
      RecordIsDue(t, p, records[|records|-1], key);
    }
  }

  lemma PlacesNext(t: Tenancy, p: Principal, records: seq<Record>, key: string)
    ensures records == [] ==> RefusedAt(t, p, records, key) == {} && DefaultedAt(t, p, records, key) == {}
    ensures records != [] ==>
      var k := |records| - 1; var attrs := records[k].attributes;
      && |RefusedAt(t, p, records, key)| == |RefusedAt(t, p, records[..k], key)| + (if NoneDue(t, p, attrs, key) then 1 else 0)
      && |DefaultedAt(t, p, records, key)| == |DefaultedAt(t, p, records[..k], key)|
           + if Redirected(t, p, attrs, key) && !NoneDue(t, p, attrs, key) then 1 else 0
  {
    hide NoneDue, Redirected;
    if records != [] {
      var k := |records| - 1;
      var attrs := records[k].attributes;
      var refused, defaulted := RefusedAt(t, p, records[..k], key), DefaultedAt(t, p, records[..k], key);
      assert RefusedAt(t, p, records, key) == refused + if NoneDue(t, p, attrs, key) then {k} else {};
      assert DefaultedAt(t, p, records, key) ==
        defaulted + if Redirected(t, p, attrs, key) && !NoneDue(t, p, attrs, key) then {k} else {};
    }
  }

  class Verifier {
    const tenancy: Tenancy
    var routesDefaulted: nat
    var routesRefused: nat

    constructor (t: Tenancy)
      requires Sound(t)
      ensures tenancy == t && routesDefaulted == 0 && routesRefused == 0
    {
      tenancy, routesDefaulted, routesRefused := t, 0, 0;
    }

    /** One record's attributes: whether the tenant is its own, and the index it asks for. */
    method Inspect(r: Record, tenant: string, key: string) returns (foreign: bool, asked: Option<string>)
      ensures foreign <==> ForeignRecord(r, tenant)
      ensures !foreign ==> asked == Asked(r.attributes, key)
      ensures !foreign ==>
        if asked.None? then forall i: nat :: !AsksAt(r.attributes, key, i)
        else exists i: nat :: AsksAt(r.attributes, key, i) && r.attributes[i].value.text == asked.value
    {
      ghost var at := AskedAt(r.attributes, key);
      hide AsksAt;
      var attrs := r.attributes;
      asked := None;
      for j := 0 to |attrs|
        invariant forall i :: 0 <= i < j ==> !ForeignTenant(attrs[i], tenant)
        invariant Asked(attrs, key) == if asked.Some? then asked else Asked(attrs[j..], key)
      {
        assert attrs[j..][0] == attrs[j] && attrs[j..][1..] == attrs[j + 1..];
        if attrs[j].key == ATTR_TENANT {
          if attrs[j].value != Str(tenant) {
            return true, asked;
          }
        } else if asked.None? && NamesIndex(attrs[j], key) {
          asked := Some(attrs[j].value.text);
        }
      }
      foreign := false;
    }

    /** Binds a batch to its principal: a first pass decides every record's index, a second rewrites the
        batch. A batch that is turned away is returned as it came. */
    method Admit(p: Principal, records: seq<Record>, key: string, whole: bool)
      returns (verdict: Verdict, batch: seq<Record>)
      requires Sound(tenancy)
      modifies this
      ensures verdict.WrongTenant? <==> Foreign(records, p.tenant)
      ensures verdict.IndexRefused? <==>
        !Foreign(records, p.tenant) && whole && RefusedAt(tenancy, p, records, key) != {}
      ensures verdict.Admitted? ==>
        && batch == Kept(tenancy, p, records, key) && AdmittedAs(tenancy, p, records, key, batch)
        && verdict.refused == |RefusedAt(tenancy, p, records, key)|
        && verdict.defaulted == |DefaultedAt(tenancy, p, records, key)|
      ensures !verdict.Admitted? ==> batch == records
      ensures verdict.WrongTenant? ==> routesDefaulted == old(routesDefaulted) && routesRefused == old(routesRefused)
      ensures !verdict.WrongTenant? ==>
        && routesDefaulted == old(routesDefaulted) + |DefaultedAt(tenancy, p, records, key)|
        && routesRefused == old(routesRefused) + |RefusedAt(tenancy, p, records, key)|
    {
      hide Kept, Foreign, RefusedAt, DefaultedAt, AdmittedAs, ChosenIndex, Asked, IndexDue, NoneDue;
      var foreign, chosen, defaulted, refused := Decide(p, records, key);
      if foreign {
        return WrongTenant, records;
      }
      routesDefaulted := routesDefaulted + defaulted;
      routesRefused := routesRefused + refused;
      if whole && refused > 0 {
        return IndexRefused, records;
      }
      batch := Rewrite(p, records, key, chosen);
      verdict := Admitted(defaulted, refused);
    }

    /** The first pass: an index per record, or none for a refused one; it stops at a foreign tenant. */
    method Decide(p: Principal, records: seq<Record>, key: string)
      returns (foreign: bool, chosen: seq<Option<string>>, defaulted: nat, refused: nat)
      requires Sound(tenancy)
      ensures foreign <==> Foreign(records, p.tenant)
      ensures !foreign ==>
        && |chosen| == |records|
        && (forall k :: 0 <= k < |records| ==> chosen[k] == ChosenIndex(tenancy, p, Asked(records[k].attributes, key)))
        && (forall k :: 0 <= k < |records| ==>
              if chosen[k].Some? then IndexDue(tenancy, p, records[k].attributes, key, chosen[k].value)
              else NoneDue(tenancy, p, records[k].attributes, key))
        && defaulted == |DefaultedAt(tenancy, p, records, key)| && refused == |RefusedAt(tenancy, p, records, key)|
    {
      hide DefaultFor, Asked, AsksAt, ForeignRecord, GoesToDefault, ChosenIndex, IndexDue, NoneDue, DefaultedAt, RefusedAt;
      CountsAreDue(tenancy, p, records, key);
      foreign, chosen, defaulted, refused := false, [], 0, 0;
      for i := 0 to |records|
        invariant |chosen| == i
        invariant forall k :: 0 <= k < i ==> chosen[k] == ChosenIndex(tenancy, p, Asked(records[k].attributes, key))
        invariant forall k :: 0 <= k < i ==>
          if chosen[k].Some? then IndexDue(tenancy, p, records[k].attributes, key, chosen[k].value)
          else NoneDue(tenancy, p, records[k].attributes, key)
        invariant forall k :: 0 <= k < i ==> !ForeignRecord(records[k], p.tenant)
        invariant defaulted == CountDefaulted(tenancy, p, records[..i], key)
        invariant refused == CountRefused(tenancy, p, records[..i], key)
      {
        assert records[..i + 1][..i] == records[..i];
        var asked;
        foreign, asked := Inspect(records[i], p.tenant, key);
        if foreign {
          return;
        }
        if GoesToDefault(tenancy, p, asked) {
          defaulted := defaulted + 1;
        }
        var index := ChosenIndex(tenancy, p, asked);
        ChosenOrNone(tenancy, p, records[i], key);
        if index.None? {
          refused := refused + 1;
        }
        chosen := chosen + [index];
      }
      assert records[..|records|] == records;
    }

    /** The second pass: refused records taken out, the others rewritten to what was decided. */
    method Rewrite(p: Principal, records: seq<Record>, key: string, chosen: seq<Option<string>>)
      returns (batch: seq<Record>)
      requires Sound(tenancy) && |chosen| == |records|
      requires forall k :: 0 <= k < |records| ==> chosen[k] == ChosenIndex(tenancy, p, Asked(records[k].attributes, key))
      ensures batch == Kept(tenancy, p, records, key) && AdmittedAs(tenancy, p, records, key, batch)
    {
      ghost var places := KeptAreDue(tenancy, p, records, key);
      assert AdmittedAs(tenancy, p, records, key, Kept(tenancy, p, records, key));
      hide Placed, Asked, ChosenIndex, AdmittedAs, AdmittedFrom;
      batch := [];
      for i := 0 to |records|
        invariant batch == Kept(tenancy, p, records[..i], key)
      {
        assert records[..i + 1][..i] == records[..i];
        if chosen[i].Some? {
          batch := batch + [Placed(tenancy, p, records[i], key, chosen[i].value)];
        }
      }
      assert records[..|records|] == records;
    }
  }

  // ---- what admission promises

  /** A placed record is bound to the principal's tenant and the index chosen for it. */
  lemma PlacedIsBound(t: Tenancy, p: Principal, record: Record, key: string, index: string)
    requires Sound(t) && key != ATTR_TENANT && IndexOf(t, p.tenant, index) == Some(index)
    ensures Bound(t, Placed(t, p, record, key, index).attributes, key, p.tenant, index)
  {
    assert ATTR_INDEX[8] != ATTR_TENANT[8];
    var stripped := Stripped(record.attributes, key);
    var indexed := WithIndex(t, stripped, p.tenant, index);
    var attrs := Placed(t, p, record, key, index).attributes;
    var mark := Attr(ATTR_INDEX, Str(index));
    AppendAttr(stripped, mark, ATTR_TENANT);
    assert FindAttr(indexed, ATTR_TENANT) == None;
    if p.tenant != Own(t) {
      LastAttr(indexed, Attr(ATTR_TENANT, Str(p.tenant)));
    }
    assert DefaultIndexOf(t, p.tenant) != Some(index) ==> mark in attrs && NamesIndex(mark, key);
  }

  lemma {:induction false} LastAttr(attrs: seq<Attr>, a: Attr)
    requires FindAttr(attrs, a.key).None?
    ensures FindAttr(attrs + [a], a.key) == Some(a.value)
  {
    if attrs != [] {
      assert (attrs + [a])[1..] == attrs[1..] + [a];
      LastAttr(attrs[1..], a);
    }
  }

  /** A record of a batch, where the batch put it. */
  ghost predicate Settles(t: Tenancy, p: Principal, r: Record, key: string, index: string)
    requires Sound(t)
  {
    Allows(p.indexes, index) && Bound(t, r.attributes, key, p.tenant, index)
  }

  /** Every record admission keeps is placed in the principal's tenant and an index the tenant has and the
      principal may use; kept plus refused is received. */
  lemma {:induction false} AdmissionPlaces(t: Tenancy, p: Principal, records: seq<Record>, key: string)
    requires Sound(t) && key != ATTR_TENANT
    ensures |Kept(t, p, records, key)| + CountRefused(t, p, records, key) == |records|
    ensures forall r :: r in Kept(t, p, records, key) ==> exists index :: Settles(t, p, r, key, index)
  {
    hide Bound, Placed, Asked, ChosenIndex;
    if records != [] {
      var k := |records| - 1;
      AdmissionPlaces(t, p, records[..k], key);
      var index := ChosenIndex(t, p, Asked(records[k].attributes, key));
      if index.Some? {
        PlacedIsBound(t, p, records[k], key, index.value);
        assert Settles(t, p, Placed(t, p, records[k], key, index.value), key, index.value);
      }
    }
  }

  /** Any number of later routings of one record, each under the protocol's key or the standard one. */
  function RouteAll(t: Tenancy, record: Record, uses: seq<string>): (seq<Route>, Record)
    requires Sound(t)
    decreases |uses|
  {
    if uses == [] then ([], record)
    else
      var r := RouteRecord(t, record, uses[0]);
      var (routes, last) := RouteAll(t, r.1, uses[1..]);
      ([r.0] + routes, last)
  }

  lemma {:induction false} BoundRoutesKnown(t: Tenancy, record: Record, key: string, uses: seq<string>, tenant: string,
                                            index: string)
    requires Sound(t) && key != ATTR_TENANT && Bound(t, record.attributes, key, tenant, index)
    requires forall u :: u in uses ==> u == key || u == ATTR_INDEX
    ensures var r := RouteAll(t, record, uses);
      && (forall x :: x in r.0 ==> x == Known(index)) && |r.0| == |uses|
      && TenantOf(t, r.1.attributes) == Some(tenant)
    decreases |uses|
  {
    hide RouteRecord;
    if uses == [] {
    } else {
      hide Bound;
      assert uses[0] in uses && forall u :: u in uses[1..] ==> u in uses;
      BoundIsKnown(t, record, key, uses[0], tenant, index);
      BoundRoutesKnown(t, RouteRecord(t, record, uses[0]).1, key, uses[1..], tenant, index);
    }
  }

  /** Admission is final: whatever later stages route a kept record, however often, find it Known in the
      tenant and index admission chose. */
  lemma AdmissionIsFinal(t: Tenancy, p: Principal, records: seq<Record>, key: string, r: Record, uses: seq<string>)
    requires Sound(t) && key != ATTR_TENANT && r in Kept(t, p, records, key)
    requires forall u :: u in uses ==> u == key || u == ATTR_INDEX
    ensures exists index ::
      && Settles(t, p, r, key, index) && IndexOf(t, p.tenant, index).Some?
      && (forall x :: x in RouteAll(t, r, uses).0 ==> x == Known(index))
      && TenantOf(t, RouteAll(t, r, uses).1.attributes) == Some(p.tenant)
  {
    hide Kept, RouteAll;
    AdmissionPlaces(t, p, records, key);
    var index :| Settles(t, p, r, key, index);
    BoundRoutesKnown(t, r, key, uses, p.tenant, index);
    assert Settles(t, p, r, key, index) && IndexOf(t, p.tenant, index).Some?;
  }
}
