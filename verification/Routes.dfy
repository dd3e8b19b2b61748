/** Workspace endpoints and the gateway's route table: the dev-env hooks and store view
    (internal/core/boxstore) over the subdomain ingress provider
    (providers/ingress/subdomain/subdomain.go), driven by the reconciler. */
module Routes {
  import opened Common
  import opened Phases
  import opened Boxes
  import opened Lifecycle
  import Safety

  datatype IngressPort = IngressPort(name: string, port: int)
  datatype Endpoint = Endpoint(name: string, url: string, port: int, ref: string)
  datatype Route = Route(host: string, workspace: Id, port: int, name: string)

  /** What a workspace adds to its box. */
  datatype Deco = Deco(ingress: seq<IngressPort>, home: string, endpoints: seq<Endpoint>)

  type Table = map<string, Route>

  /** Where the gateway sends a request for host. */
  function Target(routes: Table, host: string): Option<Route> {
    if host in routes then Some(routes[host]) else None
  }

  // ---- the subdomain provider ----

  function Host(zone: string, id: Id, name: string): string {
    name + "-" + id + "." + zone
  }

  function RouteFor(zone: string, id: Id, p: IngressPort): Route {
    Route(Host(zone, id, p.name), id, p.port, p.name)
  }

  function EndpointFor(zone: string, id: Id, p: IngressPort): Endpoint {
    var host := Host(zone, id, p.name);
    Endpoint(p.name, "https://" + host, p.port, host)
  }

  predicate Exposable(id: Id, p: IngressPort) {
    id != "" && p.name != "" && p.port > 0
  }

  /** Hosts are injective in workspace and name because ids have a fixed length. */
  lemma HostIsInjective(zone: string, a: Id, n: string, b: Id, m: string)
    requires |a| == |b| && Host(zone, a, n) == Host(zone, b, m)
    ensures a == b && n == m
  {
    var h, g := Host(zone, a, n), Host(zone, b, m);
    assert |n| == |m|;
    assert n == h[..|n|] && m == g[..|m|];
    assert a == h[|n| + 1..|n| + 1 + |a|] && b == g[|m| + 1..|m| + 1 + |b|];
  }

  class Ingress {
    const zone: string
    var byHost: Table

    constructor (zone: string)
      ensures this.zone == zone && byHost == map[]
    {
      this.zone, byHost := zone, map[];
    }

    method Expose(id: Id, p: IngressPort) returns (r: Option<Endpoint>)
      modifies this
      ensures if Exposable(id, p) then
                r == Some(EndpointFor(zone, id, p))
                    && byHost == old(byHost)[Host(zone, id, p.name) := RouteFor(zone, id, p)]
              else r == None && byHost == old(byHost)
      ensures r.Some? <==> id != "" && p.name != "" && p.port > 0
      ensures r.Some? ==>
                var host := p.name + "-" + id + "." + zone;
                && r.value.url == "https://" + host && r.value.ref == host
                && r.value.name == p.name && r.value.port == p.port
                && Target(byHost, host) == Some(Route(host, id, p.port, p.name))
                && forall h :: h != host ==> Target(byHost, h) == Target(old(byHost), h)
    {
      if id == "" || p.name == "" || p.port <= 0 {
        return None;
      }
      var host := Host(zone, id, p.name);
      byHost := byHost[host := Route(host, id, p.port, p.name)];
      return Some(Endpoint(p.name, "https://" + host, p.port, host));
    }

    method Unexpose(ref: string)
      modifies this
      ensures byHost == old(byHost) - {ref}
    {
      byHost := byHost - {ref};
    }

    method Lookup(host: string) returns (r: Option<Route>)
      ensures r == Target(byHost, host)
    {
      r := if host in byHost then Some(byHost[host]) else None;
    }
  }

  // ---- the hooks ----

  function Names(eps: seq<Endpoint>): set<string> {
    set e | e in eps :: e.name
  }

  datatype Exposure = Exposure(ok: bool, eps: seq<Endpoint>, routes: Table)

  /** Expose, in order, the ports not had yet; the first failure ends it. */
  function ExposeAll(zone: string, id: Id, had: set<string>, ports: seq<IngressPort>, eps: seq<Endpoint>,
                     routes: Table): Exposure
    decreases |ports|
  {
    if ports == [] then Exposure(true, eps, routes)
    else if ports[0].name in had then ExposeAll(zone, id, had, ports[1..], eps, routes)
    else if !Exposable(id, ports[0]) then Exposure(false, eps, routes)
    else ExposeAll(zone, id, had, ports[1..], eps + [EndpointFor(zone, id, ports[0])],
                   routes[Host(zone, id, ports[0].name) := RouteFor(zone, id, ports[0])])
  }

  /** PostRunning: endpoints are persisted only if every Expose succeeded. */
  function PostRunning(zone: string, id: Id, d: Deco, routes: Table): (Deco, Table) {
    var x := ExposeAll(zone, id, Names(d.endpoints), d.ingress, d.endpoints, routes);
    (if x.ok then d.(endpoints := x.eps) else d, x.routes)
  }

  function PreDestroy(d: Deco, routes: Table): Table {
    routes - set e | e in d.endpoints :: e.ref
  }

  /** The workspace store behind the box view. */
  class Workspaces {
    var boxes: Rows
    var deco: map<Id, Deco>

    /** boxstore.Adapter.Update: the box view never touches the decorations. */
    method UpdateBox(id: Id, b: Box) returns (ok: bool)
      modifies this
      ensures ok == (id in old(boxes)) && deco == old(deco)
      ensures boxes == if ok then old(boxes)[id := b] else old(boxes)
    {
      ok := id in boxes;
      if ok {
        boxes := boxes[id := b];
      }
    }

    /** Fails on a workspace already gone, and when an Expose fails. */
    method RunPostRunning(ing: Ingress, id: Id) returns (ok: bool)
      modifies this, ing
      ensures boxes == old(boxes)
      ensures id !in old(deco) ==> !ok && deco == old(deco) && ing.byHost == old(ing.byHost)
      ensures id in old(deco) ==>
                var d := old(deco)[id];
                && ok == ExposeAll(ing.zone, id, Names(d.endpoints), d.ingress, d.endpoints, old(ing.byHost)).ok
                && var (d', routes) := PostRunning(ing.zone, id, d, old(ing.byHost));
                   deco == old(deco)[id := d'] && ing.byHost == routes
    {
      if id !in deco {
        return false;
      }
      var d := deco[id];
      if |d.ingress| == 0 {
        return true;
      }
      var had := Names(d.endpoints);
      var eps := d.endpoints;
      var k := 0;
      ghost var x := ExposeAll(ing.zone, id, had, d.ingress, eps, ing.byHost);
      assert d.ingress[0..] == d.ingress;
      while k < |d.ingress|
        invariant 0 <= k <= |d.ingress| && deco == old(deco) && boxes == old(boxes)
        invariant ExposeAll(ing.zone, id, had, d.ingress[k..], eps, ing.byHost) == x
      {
        assert d.ingress[k..][1..] == d.ingress[k + 1..];
        if d.ingress[k].name !in had {
          var ep := ing.Expose(id, d.ingress[k]);
          if ep.None? {
            assert deco == old(deco)[id := d];
            return false;
          }
          eps := eps + [ep.value];
        }
        k := k + 1;
      }
      deco := deco[id := d.(endpoints := eps)];
      ok := true;
    }

    method RunPreDestroy(ing: Ingress, id: Id)
      modifies ing
      ensures ing.byHost == if id in deco then PreDestroy(deco[id], old(ing.byHost)) else old(ing.byHost)
    {
      if id in deco {
        var eps := deco[id].endpoints;
        var k := 0;
        while k < |eps|
          invariant 0 <= k <= |eps|
          invariant ing.byHost == old(ing.byHost) - set i | 0 <= i < k :: eps[i].ref
        {
          ing.Unexpose(eps[k].ref);
          k := k + 1;
        }
        assert (set i | 0 <= i < |eps| :: eps[i].ref) == set e | e in eps :: e.ref;
      }
    }
  }

  // ---- endpoints against routes ----

  /** Every stored endpoint was made from an ingress port of its workspace. */
  ghost predicate Made(zone: string, id: Id, ports: seq<IngressPort>, eps: seq<Endpoint>) {
    forall e :: e in eps ==>
      IngressPort(e.name, e.port) in ports && e == EndpointFor(zone, id, IngressPort(e.name, e.port))
  }

  /** Every endpoint is routed to its workspace and port. */
  ghost predicate Routed(zone: string, id: Id, eps: seq<Endpoint>, routes: Table) {
    forall e :: e in eps ==> e.ref in routes && routes[e.ref] == RouteFor(zone, id, IngressPort(e.name, e.port))
  }

  /** Every route to the workspace is one of its endpoints. */
  ghost predicate Accounted(zone: string, id: Id, eps: seq<Endpoint>, routes: Table) {
    forall h :: h in routes && routes[h].workspace == id ==>
      EndpointFor(zone, id, IngressPort(routes[h].name, routes[h].port)) in eps && h == Host(zone, id, routes[h].name)
  }

  /** Ports of one name agree; distinct names are the usual case. */
  ghost predicate Consistent(ports: seq<IngressPort>) {
    forall p, q :: p in ports && q in ports && p.name == q.name ==> p.port == q.port
  }

  ghost predicate Proper(id: Id, ports: seq<IngressPort>) {
    Consistent(ports) && forall p :: p in ports ==> Exposable(id, p)
  }

  /** One more exposed port keeps routes and endpoints in step, and leaves other workspaces alone. */
  lemma ExposeOne(zone: string, id: Id, ports: seq<IngressPort>, p: IngressPort, eps: seq<Endpoint>, routes: Table)
    requires Consistent(ports) && p in ports && Made(zone, id, ports, eps) && Accounted(zone, id, eps, routes)
    ensures var eps' := eps + [EndpointFor(zone, id, p)];
            var routes' := routes[Host(zone, id, p.name) := RouteFor(zone, id, p)];
            && Made(zone, id, ports, eps') && Accounted(zone, id, eps', routes')
            && (Routed(zone, id, eps, routes) ==> Routed(zone, id, eps', routes'))
  {
    var eps' := eps + [EndpointFor(zone, id, p)];
    var host := Host(zone, id, p.name);
    var routes' := routes[host := RouteFor(zone, id, p)];
    if Routed(zone, id, eps, routes) {
      forall e | e in eps' ensures e.ref in routes'
          && routes'[e.ref] == RouteFor(zone, id, IngressPort(e.name, e.port)) {
        if e in eps && e.ref == host {
          HostIsInjective(zone, id, e.name, id, p.name);
          assert IngressPort(e.name, e.port) in ports;
        }
      }
    }
    hide Host;
  }

  lemma {:induction false} ExposeAllAgrees(zone: string, id: Id, had: set<string>, ports: seq<IngressPort>,
                                           todo: seq<IngressPort>,
                                           eps: seq<Endpoint>, routes: Table)
    requires Proper(id, ports) && (forall p :: p in todo ==> p in ports)
    requires Made(zone, id, ports, eps) && Accounted(zone, id, eps, routes)
    ensures var x := ExposeAll(zone, id, had, todo, eps, routes);
            && x.ok && Made(zone, id, ports, x.eps) && Accounted(zone, id, x.eps, x.routes)
            && (Routed(zone, id, eps, routes) ==> Routed(zone, id, x.eps, x.routes))
            && (forall e :: e in eps ==> e in x.eps)
            && (forall p :: p in todo && p.name !in had ==> EndpointFor(zone, id, p) in x.eps)
    decreases |todo|
  {
    hide Host, Made, Routed, Accounted, EndpointFor, RouteFor;
    if todo != [] {
      var p := todo[0];
      assert p in todo && forall q :: q in todo ==> q == p || q in todo[1..];
      if p.name in had {
        ExposeAllAgrees(zone, id, had, ports, todo[1..], eps, routes);
      } else {
        ExposeOne(zone, id, ports, p, eps, routes);
        ExposeAllAgrees(zone, id, had, ports, todo[1..], eps + [EndpointFor(zone, id, p)],
                        routes[Host(zone, id, p.name) := RouteFor(zone, id, p)]);
      }
    }
  }

  /** The hosts an exposure writes belong to its workspace; every other entry is left alone. */
  lemma {:induction false} ExposeAllIsLocal(zone: string, id: Id, had: set<string>, todo: seq<IngressPort>,
                                            eps: seq<Endpoint>,
                                            routes: Table, h: string)
    requires forall name :: h != Host(zone, id, name)
    ensures var x := ExposeAll(zone, id, had, todo, eps, routes);
            (h in x.routes <==> h in routes) && (h in routes ==> x.routes[h] == routes[h])
    decreases |todo|
  {
    hide Host;
    if todo != [] && todo[0].name !in had && Exposable(id, todo[0]) {
      assert h != Host(zone, id, todo[0].name);
      ExposeAllIsLocal(zone, id, had, todo[1..], eps + [EndpointFor(zone, id, todo[0])],
                       routes[Host(zone, id, todo[0].name) := RouteFor(zone, id, todo[0])], h);
    } else if todo != [] {
      ExposeAllIsLocal(zone, id, had, todo[1..], eps, routes, h);
    }
  }

  /** Every entry an exposure changes is a route to its workspace. */
  lemma {:induction false} ExposeAllMarks(zone: string, id: Id, had: set<string>, todo: seq<IngressPort>,
                                          eps: seq<Endpoint>,
                                          routes: Table, h: string)
    ensures var x := ExposeAll(zone, id, had, todo, eps, routes);
            h in x.routes && x.routes[h].workspace != id ==> h in routes && x.routes[h] == routes[h]
    decreases |todo|
  {
    hide Host;
    if todo != [] && todo[0].name !in had && Exposable(id, todo[0]) {
      ExposeAllMarks(zone, id, had, todo[1..], eps + [EndpointFor(zone, id, todo[0])],
                     routes[Host(zone, id, todo[0].name) := RouteFor(zone, id, todo[0])], h);
    } else if todo != [] {
      ExposeAllMarks(zone, id, had, todo[1..], eps, routes, h);
    }
  }

  /** A name already had is not exposed again. */
  lemma {:induction false} ExposeAllSkips(zone: string, id: Id, had: set<string>, todo: seq<IngressPort>,
                                          eps: seq<Endpoint>,
                                          routes: Table, name: string)
    requires name in had
    ensures var x := ExposeAll(zone, id, had, todo, eps, routes);
            Host(zone, id, name) in x.routes <==> Host(zone, id, name) in routes
    decreases |todo|
  {
    if todo != [] && todo[0].name !in had && Exposable(id, todo[0]) {
      if Host(zone, id, name) == Host(zone, id, todo[0].name) {
        HostIsInjective(zone, id, name, id, todo[0].name);
      }
      hide Host;
      ExposeAllSkips(zone, id, had, todo[1..], eps + [EndpointFor(zone, id, todo[0])],
                     routes[Host(zone, id, todo[0].name) := RouteFor(zone, id, todo[0])], name);
    } else if todo != [] {
      ExposeAllSkips(zone, id, had, todo[1..], eps, routes, name);
    }
  }

  lemma {:induction false} NothingToExpose(zone: string, id: Id, had: set<string>, todo: seq<IngressPort>,
                                           eps: seq<Endpoint>, routes: Table)
    requires forall p :: p in todo ==> p.name in had
    ensures ExposeAll(zone, id, had, todo, eps, routes) == Exposure(true, eps, routes)
    decreases |todo|
  {
    if todo != [] {
      assert todo[0] in todo;
      NothingToExpose(zone, id, had, todo[1..], eps, routes);
    }
  }

  /** A second PostRunning exposes and writes nothing. */
  lemma PostRunningIsIdempotent(zone: string, id: Id, d: Deco, routes: Table)
    requires Proper(id, d.ingress) && Made(zone, id, d.ingress, d.endpoints) && Accounted(zone, id, d.endpoints, routes)
    ensures var (d', routes') := PostRunning(zone, id, d, routes);
            PostRunning(zone, id, d', routes') == (d', routes')
  {
    var had := Names(d.endpoints);
    ExposeAllAgrees(zone, id, had, d.ingress, d.ingress, d.endpoints, routes);
    var x := ExposeAll(zone, id, had, d.ingress, d.endpoints, routes);
    hide ExposeAll, Routed, Accounted, Made;
    forall p | p in d.ingress ensures p.name in Names(x.eps) {
      if p.name in had {
        var e :| e in d.endpoints && e.name == p.name;
        assert e in x.eps;
      } else {
        assert EndpointFor(zone, id, p) in x.eps;
      }
    }
    NothingToExpose(zone, id, Names(x.eps), d.ingress, x.eps, x.routes);
  }

  /** Where ports of one name differ the table cannot agree with the endpoints: from no endpoints and
      no routes, PostRunning puts every endpoint in the table exactly when the ports are consistent. */
  lemma AgreesIffConsistent(zone: string, id: Id, ports: seq<IngressPort>, routes: Table)
    requires forall p :: p in ports ==> Exposable(id, p)
    requires forall h :: h in routes ==> routes[h].workspace != id
    ensures var (d, routes') := PostRunning(zone, id, Deco(ports, "", []), routes);
            Routed(zone, id, d.endpoints, routes') <==> Consistent(ports)
  {
    var x := ExposeAll(zone, id, {}, ports, [], routes);
    assert Names([]) == {};
    AllExposed(zone, id, ports, [], routes);
    if Consistent(ports) {
      ExposeAllAgrees(zone, id, {}, ports, ports, [], routes);
    } else {
      var p, q :| p in ports && q in ports && p.name == q.name && p.port != q.port;
      assert EndpointFor(zone, id, p) in x.eps && EndpointFor(zone, id, q) in x.eps;
      hide ExposeAll, Host;
      assert RouteFor(zone, id, p) != RouteFor(zone, id, q);
    }
  }

  lemma {:induction false} AllExposed(zone: string, id: Id, todo: seq<IngressPort>, eps: seq<Endpoint>, routes: Table)
    requires forall p :: p in todo ==> Exposable(id, p)
    ensures var x := ExposeAll(zone, id, {}, todo, eps, routes);
            x.ok && (forall e :: e in eps ==> e in x.eps) && forall p :: p in todo ==> EndpointFor(zone, id, p) in x.eps
    decreases |todo|
  {
    hide Host, EndpointFor, RouteFor;
    if todo != [] {
      assert todo[0] in todo && forall q :: q in todo ==> q == todo[0] || q in todo[1..];
      AllExposed(zone, id, todo[1..], eps + [EndpointFor(zone, id, todo[0])],
                 routes[Host(zone, id, todo[0].name) := RouteFor(zone, id, todo[0])]);
    }
  }

  // ---- what PostRunning stores ----

  /** The ports without an endpoint yet, in order. */
  function Unexposed(d: Deco): seq<IngressPort> {
    Lacking(d.ingress, d.endpoints)
  }

  function Lacking(ports: seq<IngressPort>, eps: seq<Endpoint>): seq<IngressPort> {
    if ports == [] then []
    else (if exists e :: e in eps && e.name == ports[0].name then [] else [ports[0]]) + Lacking(ports[1..], eps)
  }

  /** Endpoints are stored only when every port lacking one could be exposed, and then one for each, after the old ones
      and in the order asked for; a failure stores nothing. */
  lemma PostRunningStores(zone: string, id: Id, d: Deco, routes: Table)
    ensures var d' := PostRunning(zone, id, d, routes).0;
            var ports := Unexposed(d);
            && d'.ingress == d.ingress && d'.home == d.home
            && if (forall p :: p in ports ==> id != "" && p.name != "" && p.port > 0) then
                 && |d'.endpoints| == |d.endpoints| + |ports| && d'.endpoints[..|d.endpoints|] == d.endpoints
                 && forall i :: 0 <= i < |ports| ==>
                      var host := ports[i].name + "-" + id + "." + zone;
                      d'.endpoints[|d.endpoints| + i] == Endpoint(ports[i].name, "https://" + host, ports[i].port, host)
               else d' == d
  {
    StoresEach(zone, id, d.endpoints, d.ingress, d.endpoints, routes);
  }

  lemma {:induction false} StoresEach(zone: string, id: Id, had: seq<Endpoint>, todo: seq<IngressPort>,
                                      eps: seq<Endpoint>, routes: Table)
    ensures var x := ExposeAll(zone, id, Names(had), todo, eps, routes);
            var ports := Lacking(todo, had);
            && (x.ok <==> forall p :: p in ports ==> id != "" && p.name != "" && p.port > 0)
            && (x.ok ==>
                  && |x.eps| == |eps| + |ports| && x.eps[..|eps|] == eps
                  && forall i :: 0 <= i < |ports| ==>
                       var host := ports[i].name + "-" + id + "." + zone;
                       x.eps[|eps| + i] == Endpoint(ports[i].name, "https://" + host, ports[i].port, host))
    decreases |todo|
  {
    if todo != [] {
      var p := todo[0];
      assert p.name in Names(had) <==> exists e :: e in had && e.name == p.name;
      if p.name in Names(had) {
        assert Lacking(todo, had) == Lacking(todo[1..], had);
        StoresEach(zone, id, had, todo[1..], eps, routes);
      } else {
        var more := Lacking(todo[1..], had);
        assert Lacking(todo, had) == [p] + more;
        if Exposable(id, p) {
          var eps' := eps + [EndpointFor(zone, id, p)];
          StoresEach(zone, id, had, todo[1..], eps', routes[Host(zone, id, p.name) := RouteFor(zone, id, p)]);
          assert forall q :: q in [p] + more <==> q == p || q in more;
        } else {
          assert p in [p] + more;
        }
      }
    }
  }
}
