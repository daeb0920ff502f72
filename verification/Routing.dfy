/** Tenants, indexes and the routing of one record by its attributes. */
module Routing {
  import opened Options

  const ATTR_INDEX: string := "logless.index"
  const ATTR_TENANT: string := "logless.tenant"
  const DEFAULT_INDEX: string := "default"

  /** An attribute value: text, or a number or flag with the text it renders as. */
  datatype Value = Str(text: string) | Other(text: string)

  datatype Attr = Attr(key: string, value: Value)

  datatype Record = Record(attributes: seq<Attr>, body: string)

  datatype UnknownIndex = ToDefault | Refuse

  datatype Tenant = Tenant(id: string, unknown: UnknownIndex, indexes: seq<string>)

  /** The first tenant is the instance's own. */
  datatype Tenancy = Tenancy(tenants: seq<Tenant>)

  /** What `Tenancy::new` checks and routing relies on. */
  ghost predicate Sound(t: Tenancy) {
    t.tenants != [] && forall x :: x in t.tenants ==> x.indexes != []
  }

  datatype Route = Known(index: string) | Defaulted(index: string) | Refused

  function Own(t: Tenancy): string
    requires Sound(t)
  {
    t.tenants[0].id
  }

  function FindTenant(tenants: seq<Tenant>, id: string): (r: Option<Tenant>)
    ensures r.Some? ==> r.value in tenants && r.value.id == id
    ensures r.None? ==> forall x :: x in tenants ==> x.id != id
  {
    if tenants == [] then None else if tenants[0].id == id then Some(tenants[0]) else FindTenant(tenants[1..], id)
  }

  function Configured(t: Tenancy, tenant: string): (r: Option<Tenant>)
    ensures r.Some? ==> r.value in t.tenants
  {
    FindTenant(t.tenants, tenant)
  }

  /** The index named `default`, or else the first. */
  function DefaultOf(x: Tenant): (r: string)
    requires x.indexes != []
    ensures r in x.indexes
  {
    if DEFAULT_INDEX in x.indexes then DEFAULT_INDEX else x.indexes[0]
  }

  function DefaultIndexOf(t: Tenancy, tenant: string): Option<string>
    requires Sound(t)
  {
    match Configured(t, tenant)
    case None => None
    case Some(x) => Some(DefaultOf(x))
  }

  /** `index` as the tenant has it. */
  function IndexOf(t: Tenancy, tenant: string, index: string): Option<string> {
    match Configured(t, tenant)
    case None => None
    case Some(x) => if index in x.indexes then Some(index) else None
  }

  function RouteIn(t: Tenancy, tenant: string, requested: Option<string>): Route
    requires Sound(t)
  {
    match Configured(t, tenant)
    case None => Refused
    case Some(x) =>
      match requested
      case None => Known(DefaultOf(x))
      case Some(i) =>
        if i in x.indexes then Known(i)
        else if x.unknown.ToDefault? then Defaulted(DefaultOf(x))
        else Refused
  }

  // ---- attributes

  predicate NamesIndex(a: Attr, key: string) { a.key == key || a.key == ATTR_INDEX }

  function FindAttr(attrs: seq<Attr>, key: string): (r: Option<Value>)
    ensures r.None? <==> forall a :: a in attrs ==> a.key != key
  {
    if attrs == [] then None else if attrs[0].key == key then Some(attrs[0].value) else FindAttr(attrs[1..], key)
  }

  /** The text of the first attribute that names an index. */
  function Requested(attrs: seq<Attr>, key: string): (r: Option<string>)
    ensures r.None? <==> forall a :: a in attrs ==> !NamesIndex(a, key)
  {
    if attrs == [] then None
    else if NamesIndex(attrs[0], key) then Some(attrs[0].value.text)
    else Requested(attrs[1..], key)
  }

  /** The attributes left when those naming an index under `key` are taken out. */
  function WithoutIndex(attrs: seq<Attr>, key: string): (r: seq<Attr>)
    ensures forall a :: a in r <==> a in attrs && !NamesIndex(a, key)
  {
    if attrs == [] then []
    else
      var rest := WithoutIndex(attrs[1..], key);
      if NamesIndex(attrs[0], key) then rest else [attrs[0]] + rest
  }

  /** The tenant a record carries: the own one when it carries none; none when its value is not text. */
  function TenantOf(t: Tenancy, attrs: seq<Attr>): Option<string>
    requires Sound(t)
  {
    match FindAttr(attrs, ATTR_TENANT)
    case None => Some(Own(t))
    case Some(Str(s)) => Some(s)
    case Some(Other(_)) => None
  }

  function WithIndex(t: Tenancy, attrs: seq<Attr>, tenant: string, index: string): seq<Attr>
    requires Sound(t)
  {
    if DefaultIndexOf(t, tenant) == Some(index) then attrs else attrs + [Attr(ATTR_INDEX, Str(index))]
  }

  /** The route of a record, and the record with at most one attribute left that names an index: the chosen one,
      unless it is the tenant's default. */
  function RouteRecord(t: Tenancy, record: Record, key: string): (Route, Record)
    requires Sound(t)
  {
    match TenantOf(t, record.attributes)
    case None => (Refused, record)
    case Some(tenant) =>
      var route := RouteIn(t, tenant, Requested(record.attributes, key));
      if route.Refused? then (route, record)
      else (route, record.(attributes := WithIndex(t, WithoutIndex(record.attributes, key), tenant, route.index)))
  }

  // ---- records already placed

  /** A record every later stage places in (tenant, index): it carries the tenant, and under `key` and under
      the standard name it asks for the index, or for none when that is the tenant's default. */
  ghost predicate Bound(t: Tenancy, attrs: seq<Attr>, key: string, tenant: string, index: string)
    requires Sound(t)
  {
    && IndexOf(t, tenant, index) == Some(index)
    && TenantOf(t, attrs) == Some(tenant)
    && (forall a :: a in attrs && NamesIndex(a, key) ==> a == Attr(ATTR_INDEX, Str(index)))
    && ((forall a :: a in attrs ==> !NamesIndex(a, key)) ==> DefaultIndexOf(t, tenant) == Some(index))
  }

  lemma {:induction false} FirstNamed(attrs: seq<Attr>, key: string, a: Attr)
    requires forall x :: x in attrs && NamesIndex(x, key) ==> x == a
    ensures Requested(attrs, key).Some? ==> Requested(attrs, key) == Some(a.value.text)
  {
    if attrs != [] {
      assert attrs[0] in attrs && forall x :: x in attrs[1..] ==> x in attrs;
      FirstNamed(attrs[1..], key, a);
    }
  }

  lemma {:induction false} SameTenantAttr(attrs: seq<Attr>, key: string)
    requires key != ATTR_TENANT
    ensures FindAttr(WithoutIndex(attrs, key), ATTR_TENANT) == FindAttr(attrs, ATTR_TENANT)
  {
    assert ATTR_INDEX[8] != ATTR_TENANT[8];
    if attrs != [] {
      SameTenantAttr(attrs[1..], key);
      var rest := WithoutIndex(attrs[1..], key);
      assert ([attrs[0]] + rest)[1..] == rest;
    }
  }

  lemma {:induction false} AppendAttr(attrs: seq<Attr>, a: Attr, key: string)
    requires a.key != key
    ensures FindAttr(attrs + [a], key) == FindAttr(attrs, key)
  {
    if attrs == [] {
      assert ([a])[1..] == [];
    } else {
      AppendAttr(attrs[1..], a, key);
      assert (attrs + [a])[1..] == attrs[1..] + [a];
    }
  }

  /** Routing finds a bound record already placed, and leaves it bound. */
  lemma BoundIsKnown(t: Tenancy, record: Record, key: string, use: string, tenant: string, index: string)
    requires Sound(t) && Bound(t, record.attributes, key, tenant, index)
    requires (use == key || use == ATTR_INDEX) && key != ATTR_TENANT
    ensures RouteRecord(t, record, use).0 == Known(index)
    ensures TenantOf(t, RouteRecord(t, record, use).1.attributes) == Some(tenant)
    ensures Bound(t, RouteRecord(t, record, use).1.attributes, key, tenant, index)
  {
    var attrs := record.attributes;
    var mark := Attr(ATTR_INDEX, Str(index));
    FirstNamed(attrs, use, mark);
    assert ATTR_INDEX[8] != ATTR_TENANT[8];
    SameTenantAttr(attrs, use);
    AppendAttr(WithoutIndex(attrs, use), mark, ATTR_TENANT);
    var after := RouteRecord(t, record, use).1.attributes;
    assert Requested(attrs, use).None? ==> DefaultIndexOf(t, tenant) == Some(index) by {
      if Requested(attrs, use).None? {
        forall a | a in attrs ensures !NamesIndex(a, key) { assert NamesIndex(mark, use); }
      }
    }
    assert DefaultIndexOf(t, tenant) != Some(index) ==> mark in after;
  }
}
