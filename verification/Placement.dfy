/** What a tenancy says about a record, attribute by attribute and tenant by tenant, and that routing goes by it. */
module Placement {
  import opened Options
  import opened Sequences
  import opened Routing

  // ---- tenants and their indexes

  /** Tenant `k` of the configuration is the one with this id. */
  predicate TenantAt(t: Tenancy, id: string, k: nat) {
    k < |t.tenants| && t.tenants[k].id == id && forall j :: 0 <= j < k ==> t.tenants[j].id != id
  }

  ghost predicate Has(t: Tenancy, id: string, index: string) {
    exists k: nat :: TenantAt(t, id, k) && index in t.tenants[k].indexes
  }

  /** The index named `default` where there is one, else the first. */
  ghost predicate DefaultIs(t: Tenancy, id: string, index: string) {
    exists k: nat :: TenantAt(t, id, k) && IsDefault(t.tenants[k].indexes, index)
  }

  predicate IsDefault(indexes: seq<string>, index: string) {
    if "default" in indexes then index == "default" else indexes != [] && index == indexes[0]
  }

  ghost predicate SendsToDefault(t: Tenancy, id: string) {
    exists k: nat :: TenantAt(t, id, k) && t.tenants[k].unknown == ToDefault
  }

  lemma {:induction false} FoundAt(tenants: seq<Tenant>, id: string) returns (k: nat)
    ensures var r := FindTenant(tenants, id);
      if r.Some? then TenantAt(Tenancy(tenants), id, k) && r.value == tenants[k]
      else forall j :: 0 <= j < |tenants| ==> tenants[j].id != id
  {
    k := 0;
    if tenants != [] && tenants[0].id != id {
      var j := FoundAt(tenants[1..], id);
      k := j + 1;
    }
  }

  /** The configuration's own functions, spelled out. */
  lemma TenancySays(t: Tenancy, id: string, index: string)
    requires Sound(t)
    ensures IndexOf(t, id, index) == if Has(t, id, index) then Some(index) else None
    ensures DefaultIndexOf(t, id) == Some(index) <==> DefaultIs(t, id, index)
    ensures DefaultIndexOf(t, id).Some? ==> DefaultIs(t, id, DefaultIndexOf(t, id).value)
    ensures Configured(t, id).Some? && Configured(t, id).value.unknown.ToDefault? <==> SendsToDefault(t, id)
  {
    hide FindTenant;
    var k := FoundAt(t.tenants, id);
    assert t == Tenancy(t.tenants);
  }

  // ---- what a record asks for

  predicate NamedAt(attrs: seq<Attr>, names: seq<string>, i: nat) {
    i < |attrs| && attrs[i].key in names && forall j :: 0 <= j < i ==> attrs[j].key !in names
  }

  predicate NamesNone(attrs: seq<Attr>, names: seq<string>) {
    forall j :: 0 <= j < |attrs| ==> attrs[j].key !in names
  }

  lemma {:induction false} RequestedAt(attrs: seq<Attr>, key: string) returns (i: nat)
    ensures var r := Requested(attrs, key);
      if r.Some? then NamedAt(attrs, [key, ATTR_INDEX], i) && r.value == attrs[i].value.text
      else NamesNone(attrs, [key, ATTR_INDEX])
  {
    i := 0;
    if attrs != [] && !NamesIndex(attrs[0], key) {
      var j := RequestedAt(attrs[1..], key);
      i := j + 1;
    }
  }

  lemma {:induction false} FoundAttr(attrs: seq<Attr>, key: string) returns (i: nat)
    ensures var r := FindAttr(attrs, key);
      if r.Some? then NamedAt(attrs, [key], i) && r.value == attrs[i].value else NamesNone(attrs, [key])
  {
    i := 0;
    if attrs != [] && attrs[0].key != key {
      var j := FoundAttr(attrs[1..], key);
      i := j + 1;
    }
  }

  /** The record carries this tenant: by its first tenant attribute, or as one of the instance's own. */
  ghost predicate Carries(t: Tenancy, attrs: seq<Attr>, tenant: string)
    requires Sound(t)
  {
    if NamesNone(attrs, [ATTR_TENANT]) then tenant == t.tenants[0].id
    else exists i: nat :: NamedAt(attrs, [ATTR_TENANT], i) && attrs[i].value == Str(tenant)
  }

  lemma NamedOnce(attrs: seq<Attr>, names: seq<string>, i: nat, j: nat)
    requires NamedAt(attrs, names, i) && NamedAt(attrs, names, j)
    ensures i == j
  {
  }

  lemma TenantIsCarried(t: Tenancy, attrs: seq<Attr>, tenant: string)
    requires Sound(t)
    ensures TenantOf(t, attrs) == Some(tenant) <==> Carries(t, attrs, tenant)
  {
    hide FindAttr;
    var i := FoundAttr(attrs, ATTR_TENANT);
    if FindAttr(attrs, ATTR_TENANT).Some? {
      forall j: nat | NamedAt(attrs, [ATTR_TENANT], j) ensures j == i { NamedOnce(attrs, [ATTR_TENANT], i, j); }
    }
  }

  // ---- routing

  /** The route due to a record of this tenant: the index its first naming attribute asks for when the tenant has
      it, the default when none asks, and for another the default or a refusal, as the tenant says. */
  ghost predicate RouteDue(t: Tenancy, tenant: string, attrs: seq<Attr>, key: string, route: Route) {
    var names := [key, ATTR_INDEX];
    match route
    case Known(index) =>
      || (NamesNone(attrs, names) && DefaultIs(t, tenant, index))
      || exists i: nat :: NamedAt(attrs, names, i) && attrs[i].value.text == index && Has(t, tenant, index)
    case Defaulted(index) =>
      && (exists i: nat :: NamedAt(attrs, names, i) && !Has(t, tenant, attrs[i].value.text))
      && SendsToDefault(t, tenant) && DefaultIs(t, tenant, index)
    case Refused =>
      || (forall k: nat :: !TenantAt(t, tenant, k))
      || ((exists i: nat :: NamedAt(attrs, names, i) && !Has(t, tenant, attrs[i].value.text)) && !SendsToDefault(t, tenant))
  }

  /** The attributes of a routed record: the others in order, then the index unless it is the tenant's default. */
  ghost predicate IndexedAs(t: Tenancy, tenant: string, was: seq<Attr>, now: seq<Attr>, key: string, index: string) {
    now == Filter(was, (a: Attr) => a.key != key && a.key != "logless.index")
      + if DefaultIs(t, tenant, index) then [] else [Attr("logless.index", Str(index))]
  }

  lemma {:induction false} WithoutIndexIs(attrs: seq<Attr>, key: string)
    ensures WithoutIndex(attrs, key) == Filter(attrs, (a: Attr) => a.key != key && a.key != "logless.index")
  {
    if attrs != [] {
      var keep := (a: Attr) => a.key != key && a.key != "logless.index";
      WithoutIndexIs(attrs[1..], key);
      FilterJoins([attrs[0]], attrs[1..], keep);
      assert attrs == [attrs[0]] + attrs[1..];
      FilterOne(attrs[0], keep);
    }
  }

  lemma RouteInIsDue(t: Tenancy, tenant: string, attrs: seq<Attr>, key: string)
    requires Sound(t)
    ensures RouteDue(t, tenant, attrs, key, RouteIn(t, tenant, Requested(attrs, key)))
  {
    hide Requested, FindTenant, NamedAt, NamesNone;
    var i := RequestedAt(attrs, key);
    var k := FoundAt(t.tenants, tenant);
    var r := Requested(attrs, key);
    assert t == Tenancy(t.tenants);
    hide Has, DefaultIs, SendsToDefault;
    TenancySays(t, tenant, if r.Some? then r.value else "");
  }

  /** Routing gives a record the route it is due and leaves it in its index; one refused stays as it is. */
  lemma RouteIsDue(t: Tenancy, record: Record, key: string)
    requires Sound(t)
    ensures var (route, after) := RouteRecord(t, record, key);
      if forall tenant :: !Carries(t, record.attributes, tenant) then route.Refused? && after == record
      else exists tenant ::
        && Carries(t, record.attributes, tenant) && RouteDue(t, tenant, record.attributes, key, route)
        && after.body == record.body
        && (route.Refused? ==> after == record)
        && (!route.Refused? ==> IndexedAs(t, tenant, record.attributes, after.attributes, key, route.index))
  {
    hide Carries, RouteDue, Requested, RouteIn, TenantOf, WithoutIndex, DefaultIs, Has;
    var attrs := record.attributes;
    forall tenant ensures TenantOf(t, attrs) == Some(tenant) <==> Carries(t, attrs, tenant) { TenantIsCarried(t, attrs, tenant); }
    if TenantOf(t, attrs).Some? {
      var tenant := TenantOf(t, attrs).value;
      RouteInIsDue(t, tenant, attrs, key);
      WithoutIndexIs(attrs, key);
      var route := RouteIn(t, tenant, Requested(attrs, key));
      if !route.Refused? { TenancySays(t, tenant, route.index); }
    }
  }

  /** One route is due. */
  lemma RouteOnce(t: Tenancy, tenant: string, attrs: seq<Attr>, key: string, a: Route, b: Route)
    requires Sound(t) && RouteDue(t, tenant, attrs, key, a) && RouteDue(t, tenant, attrs, key, b)
    ensures a == b
  {
    hide NamesIndex;
    TenantOnce(t, tenant);
    forall i: nat, j: nat | NamedAt(attrs, [key, ATTR_INDEX], i) && NamedAt(attrs, [key, ATTR_INDEX], j) ensures i == j {
      NamedOnce(attrs, [key, ATTR_INDEX], i, j);
    }
  }

  lemma TenantOnce(t: Tenancy, id: string)
    ensures forall j: nat, k: nat :: TenantAt(t, id, j) && TenantAt(t, id, k) ==> j == k
  {
  }
}
