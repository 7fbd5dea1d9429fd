/**
 The declarative Kong configuration of the syncer: one service per active database
 row, with a path route and a virtual-host route, and which request a route takes.
 */
module Kong {
  import opened Basics
  import opened WireIds

  datatype ServiceEntry = ServiceEntry(id: string, tenantId: string, tenantSlug: string, slug: string, baseUrl: string)

  datatype Route = Route(name: string, paths: seq<string>, hosts: seq<string>, stripPath: bool, addHeaders: seq<string>)

  datatype Service = Service(name: string, url: string, routes: seq<Route>)

  datatype Config = Config(formatVersion: string, services: seq<Service>)

  function Path(id: string): string { "/v1/call/" + id }

  function Host(slug: string, tenantSlug: string): string { slug + "." + tenantSlug + ".proxy.local" }

  function Headers(svc: ServiceEntry): seq<string> {
    ["X-Mintkey-Service-ID:" + svc.id, "X-Mintkey-Tenant-ID:" + svc.tenantId]
  }

  function ServiceOf(svc: ServiceEntry, url: string): (s: Service)
    ensures |s.routes| == 2
  {
    Service(svc.id, url, [
      Route(svc.id + "-path", [Path(svc.id)], [], true, Headers(svc)),
      Route(svc.id + "-vhost", [], [Host(svc.slug, svc.tenantSlug)], false, Headers(svc))])
  }

  /** A row of the database with its id in wire form. */
  function Published(row: ServiceEntry): ServiceEntry
    requires IsUuid(row.id)
  {
    row.(id := Wire(row.id, "svc"))
  }

  /** `fetchActiveServices`: one malformed UUID fails the whole list. */
  method FetchActiveServices(rows: seq<ServiceEntry>) returns (r: Option<seq<ServiceEntry>>)
    ensures r.Some? <==> forall i :: 0 <= i < |rows| ==> IsUuid(rows[i].id)
    ensures r.Some? ==> |r.value| == |rows| && forall i :: 0 <= i < |rows| ==> r.value[i] == Published(rows[i])
  {
    var entries := [];
    var i := 0;
    while i < |rows|
      invariant 0 <= i == |entries| <= |rows|
      invariant forall j :: 0 <= j < i ==> IsUuid(rows[j].id) && entries[j] == Published(rows[j])
    {
      var id := DBUUIDToWire(rows[i].id, "svc");
      if id.None? { return None; }
      entries := entries + [rows[i].(id := id.value)];
      i := i + 1;
    }
    return Some(entries);
  }

  /** The configuration before it is written as YAML. */
  method Generate(services: seq<ServiceEntry>, url: string) returns (config: Config)
    ensures config.formatVersion == "3.0" && |config.services| == |services|
    ensures forall i :: 0 <= i < |services| ==> config.services[i] == ServiceOf(services[i], url)
  {
    var all := [];
    var i := 0;
    while i < |services|
      invariant 0 <= i == |all| <= |services|
      invariant forall j :: 0 <= j < i ==> all[j] == ServiceOf(services[j], url)
    {
      all := all + [ServiceOf(services[i], url)];
      i := i + 1;
    }
    return Config("3.0", all);
  }

  /** The two in a row: the configuration of every row, or an error when a UUID is malformed. */
  method Reconcile(rows: seq<ServiceEntry>, url: string) returns (r: Option<Config>)
    ensures r.Some? <==> forall i :: 0 <= i < |rows| ==> IsUuid(rows[i].id)
    ensures r.Some? && Rows(rows) ==> Configures(rows, url, r.value)
  {
    var entries := FetchActiveServices(rows);
    if entries.None? { return None; }
    var config := Generate(entries.value, url);
    return Some(config);
  }

  // ------------------------------------------------------------ which route takes a request

  /** Kong takes a request on a path route when one of its paths is a prefix of the request's. */
  predicate TakesPath(route: Route, path: string) {
    exists k :: 0 <= k < |route.paths| && route.paths[k] <= path
  }

  /** Some route of the service takes the path. */
  predicate ServesPath(s: Service, path: string) {
    exists k :: 0 <= k < |s.routes| && TakesPath(s.routes[k], path)
  }

  /** Distinct rows of the service table: their primary keys are different UUIDs. */
  ghost predicate Rows(rows: seq<ServiceEntry>) {
    && (forall i :: 0 <= i < |rows| ==> IsUuid(rows[i].id))
    && (forall i, j :: 0 <= i < j < |rows| ==> Canonical(rows[i].id) != Canonical(rows[j].id))
  }

  ghost predicate Configures(rows: seq<ServiceEntry>, url: string, config: Config)
    requires Rows(rows)
  {
    |config.services| == |rows| && forall i :: 0 <= i < |rows| ==> config.services[i] == ServiceOf(Published(rows[i]), url)
  }

  lemma ServesPathIs(svc: ServiceEntry, url: string, path: string)
    ensures ServesPath(ServiceOf(svc, url), path) <==> Path(svc.id) <= path
  {
    var s := ServiceOf(svc, url);
    assert s.routes[0].paths == [Path(svc.id)] && s.routes[1].paths == [];
    if Path(svc.id) <= path {
      assert s.routes[0].paths[0] <= path;
      assert TakesPath(s.routes[0], path);
    }
  }

  lemma WireLength(u: string)
    requires IsUuid(u)
    ensures |Wire(u, "svc")| == 30 && |Path(Wire(u, "svc"))| == 39
  {
  }

  lemma SamePrefix(a: string, b: string, s: string)
    requires |a| == |b| && a <= s && b <= s
    ensures a == b
  {
    assert a == s[..|a|];
    assert b == s[..|b|];
  }

  lemma PathPrefix(a: string, b: string)
    requires Path(a) == Path(b)
    ensures a == b
  {
    AfterPrefix("/v1/call/", a);
    AfterPrefix("/v1/call/", b);
  }

  /** At most one service takes a request path, whatever the rows and the path. */
  lemma PathsAreUnambiguous(rows: seq<ServiceEntry>, url: string, config: Config, path: string, i: nat, j: nat)
    requires Rows(rows) && Configures(rows, url, config) && i < |rows| && j < |rows|
    requires ServesPath(config.services[i], path) && ServesPath(config.services[j], path)
    ensures i == j
  {
    var u, w := rows[i].id, rows[j].id;
    ServesPathIs(Published(rows[i]), url, path);
    ServesPathIs(Published(rows[j]), url, path);
    WireLength(u);
    WireLength(w);
    SamePrefix(Path(Wire(u, "svc")), Path(Wire(w, "svc")), path);
    PathPrefix(Wire(u, "svc"), Wire(w, "svc"));
    WireIsInjective(u, w, "svc");
  }

  /** A call path goes to its own row, and the id the route adds denotes that row's UUID. */
  lemma CallsReachTheirRow(rows: seq<ServiceEntry>, url: string, config: Config, i: nat, rest: string)
    requires Rows(rows) && Configures(rows, url, config) && i < |rows|
    ensures ServesPath(config.services[i], Path(Wire(rows[i].id, "svc")) + rest)
    ensures forall j :: 0 <= j < |rows| && j != i ==> !ServesPath(config.services[j], Path(Wire(rows[i].id, "svc")) + rest)
    ensures ToUuid(config.services[i].name, "svc_") == Some(Canonical(rows[i].id))
  {
    var path := Path(Wire(rows[i].id, "svc")) + rest;
    ServesPathIs(Published(rows[i]), url, path);
    forall j | 0 <= j < |rows| && j != i ensures !ServesPath(config.services[j], path) {
      if ServesPath(config.services[j], path) {
        PathsAreUnambiguous(rows, url, config, path, i, j);
      }
    }
    DecodeEncoded(rows[i].id, "svc");
    assert "svc" + "_" == "svc_";
  }

  /** No two services and no two routes of the configuration share a name. */
  lemma NamesAreDistinct(rows: seq<ServiceEntry>, url: string, config: Config, i: nat, j: nat, k: nat, l: nat)
    requires Rows(rows) && Configures(rows, url, config) && i < |rows| && j < |rows| && k < 2 && l < 2
    ensures config.services[i].name == config.services[j].name <==> i == j
    ensures config.services[i].routes[k].name == config.services[j].routes[l].name <==> i == j && k == l
  {
    var u, w := rows[i].id, rows[j].id;
    var a, b := Wire(u, "svc"), Wire(w, "svc");
    WireLength(u);
    WireLength(w);
    WireIsInjective(u, w, "svc");
    var m, n := config.services[i].routes[k].name, config.services[j].routes[l].name;
    assert m[..30] == a && n[..30] == b;
    if k != l { assert |m| != |n|; }
  }

  // ------------------------------------------------------------ virtual hosts

  lemma DotPosition(s: string, t: string, p: string, q: string)
    requires '.' !in s && '.' !in p && s + "." + t == p + "." + q
    ensures s == p && t == q
  {
    var x := s + "." + t;
    assert x[|s|] == '.' && x[|p|] == '.';
    assert x[..|s|] == s && x[..|p|] == p;
    assert x[|s| + 1..] == t && x[|p| + 1..] == q;
  }

  lemma LastDotPosition(s: string, t: string, p: string, q: string)
    requires '.' !in t && '.' !in q && s + "." + t == p + "." + q
    ensures s == p && t == q
  {
    var x := s + "." + t;
    assert x[|s|] == '.' && x[|p|] == '.';
    assert forall i :: |s| < i < |x| ==> x[i] == t[i - |s| - 1];
    assert forall i :: |p| < i < |x| ==> x[i] == q[i - |p| - 1];
    assert |s| == |p|;
    assert x[..|s|] == s && x[..|p|] == p;
    assert x[|s| + 1..] == t && x[|p| + 1..] == q;
  }

  lemma SameFront(slug: string, tenant: string, slug': string, tenant': string)
    requires Host(slug, tenant) == Host(slug', tenant')
    ensures slug + "." + tenant == slug' + "." + tenant'
  {
    var a, b := slug + "." + tenant, slug' + "." + tenant';
    assert |a| == |b|;
    assert a == Host(slug, tenant)[..|a|] && b == Host(slug', tenant')[..|b|];
  }

  /** Dot-free slugs, or dot-free tenants: two virtual hosts are the same only for the same slug and tenant. */
  lemma HostsAreDistinct(slug: string, tenant: string, slug': string, tenant': string)
    requires ('.' !in slug && '.' !in slug') || ('.' !in tenant && '.' !in tenant')
    ensures Host(slug, tenant) == Host(slug', tenant') <==> slug == slug' && tenant == tenant'
  {
    if Host(slug, tenant) == Host(slug', tenant') {
      SameFront(slug, tenant, slug', tenant');
      if '.' !in slug && '.' !in slug' {
        DotPosition(slug, tenant, slug', tenant');
      } else {
        LastDotPosition(slug, tenant, slug', tenant');
      }
    }
  }

  /** Another pair of slug and tenant with the same virtual host. */
  ghost predicate Shares(slug: string, tenant: string, slug': string, tenant': string) {
    (slug' != slug || tenant' != tenant) && Host(slug, tenant) == Host(slug', tenant')
  }

  /** A pair shares its virtual host with another if and only if its slug or its tenant has a dot. */
  lemma HostIsSharedExactly(slug: string, tenant: string)
    ensures (exists slug', tenant' :: Shares(slug, tenant, slug', tenant')) <==> '.' in slug || '.' in tenant
  {
    if '.' in slug {
      var p, q := DottedSlugsCollide(slug, tenant);
      assert Shares(slug, tenant, p, q);
    } else if '.' in tenant {
      var p, q := DottedTenantsCollide(slug, tenant);
      assert Shares(slug, tenant, p, q);
    } else {
      forall slug', tenant' ensures !Shares(slug, tenant, slug', tenant') {
        if Host(slug, tenant) == Host(slug', tenant') {
          SameFront(slug, tenant, slug', tenant');
          OneDot(slug, tenant, slug', tenant');
        }
      }
    }
  }

  /** A single dot is at a single place. */
  lemma OneDot(s: string, t: string, p: string, q: string)
    requires '.' !in s && '.' !in t && s + "." + t == p + "." + q
    ensures s == p && t == q
  {
    var x := s + "." + t;
    assert x[|p|] == '.';
    assert forall i :: 0 <= i < |s| ==> x[i] == s[i];
    assert forall i :: |s| < i < |x| ==> x[i] == t[i - |s| - 1];
    assert |s| == |p|;
    assert x[..|s|] == s && x[..|p|] == p;
    assert x[|s| + 1..] == t && x[|p| + 1..] == q;
  }

  /** Every tenant with a dot shares the virtual hosts of its slugs with another tenant. */
  lemma DottedTenantsCollide(slug: string, tenant: string) returns (slug': string, tenant': string)
    requires '.' in tenant
    ensures tenant' != tenant && Host(slug, tenant) == Host(slug', tenant')
  {
    var k :| 0 <= k < |tenant| && tenant[k] == '.';
    slug', tenant' := slug + "." + tenant[..k], tenant[k + 1..];
    assert tenant == tenant[..k] + "." + tenant[k + 1..];
    assert Host(slug, tenant) == Host(slug', tenant');
  }

  /** Every slug with a dot shares its virtual host with another slug of another tenant. */
  lemma DottedSlugsCollide(slug: string, tenant: string) returns (slug': string, tenant': string)
    requires '.' in slug
    ensures slug' != slug && Host(slug, tenant) == Host(slug', tenant')
  {
    var k :| 0 <= k < |slug| && slug[k] == '.';
    slug', tenant' := slug[..k], slug[k + 1..] + "." + tenant;
    assert slug == slug[..k] + "." + slug[k + 1..];
    assert Host(slug, tenant) == Host(slug', tenant');
  }
}
