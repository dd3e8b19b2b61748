/** The route table over whole runs of the daemon: the reconciler calls the dev-env hooks
    (internal/core/box/reconcile.go) and each hook call reads and writes the workspace's
    decorations and the routes (internal/core/boxstore/hooks.go). */
module RouteRuns {
  import opened Common
  import opened Phases
  import opened Boxes
  import opened Lifecycle
  import opened Routes
  import Safety

  /** Ids are eight random bytes in hex. */
  const ID_LENGTH := 16

  datatype Desk = Desk(rows: Rows, deco: map<Id, Deco>, routes: Table)

  /** A step, with the ports a CreateWorkspace asks for and the home that storage would hand out. */
  datatype Hooked = Hooked(event: Event, ingress: seq<IngressPort>, home: string)

  const EMPTY := Desk(map[], map[], map[])

  function AskOf(c: Config, rows: Rows, e: Event): Ask {
    if e.act.Tick? && e.act.id in rows then Next(c, rows[e.act.id], e.now, e.act.a).ask else Nothing
  }

  /** CreateWorkspace turns away an ingress entry without a name or a positive port. */
  predicate Invalid(h: Hooked) {
    h.event.act.CreateWorkspace? && exists p :: p in h.ingress && (p.name == "" || p.port <= 0)
  }

  /** The hooks a step runs, on the workspace of the tick. */
  function HooksRun(c: Config, zone: string, s: Desk, h: Hooked): (map<Id, Deco>, Table) {
    var e := h.event;
    var ask := AskOf(c, s.rows, e);
    if e.act.Restart? then (s.deco, map[])
    else if !c.hooks || ask.Nothing? || e.act.id !in s.deco then (s.deco, s.routes)
    else
      var id, d := e.act.id, s.deco[e.act.id];
      match ask
      case Make(_, _) => (if e.act.a.hookOk then s.deco[id := d.(home := h.home)] else s.deco, s.routes)
      case Serve => var (d', routes') := PostRunning(zone, id, d, s.routes); (s.deco[id := d'], routes')
      case Teardown(_) => (s.deco, PreDestroy(d, s.routes))
      case _ => (s.deco, s.routes)
  }

  ghost function Step(c: Config, zone: string, s: Desk, h: Hooked): Desk {
    if Invalid(h) then s
    else
      var rows := RowsNext(c, s.rows, h.event);
      var (deco, routes) := HooksRun(c, zone, s, h);
      Desk(rows,
           map id | id in rows :: if id in deco then deco[id]
                                  else Deco(if h.event.act.CreateWorkspace? then h.ingress else [], "", []),
           routes)
  }

  ghost function At(c: Config, zone: string, s: Desk, hs: seq<Hooked>, n: nat): Desk
    requires n <= |hs|
  {
    if n == 0 then s else Step(c, zone, At(c, zone, s, hs, n - 1), hs[n - 1])
  }

  /** What the daemon's callers promise: random ids of one length, ports of one name agreeing. */
  ghost predicate Lawful(h: Hooked) {
    && Consistent(h.ingress)
    && (h.event.act.Attach? || h.event.act.CreateWorkspace? ==> |h.event.act.newId| == ID_LENGTH)
  }

  // ---- the invariant every step keeps, a restart included ----

  ghost predicate RowSound(zone: string, id: Id, d: Deco, routes: Table) {
    && |id| == ID_LENGTH && Proper(id, d.ingress)
    && Made(zone, id, d.ingress, d.endpoints) && Accounted(zone, id, d.endpoints, routes)
  }

  ghost predicate Sound(zone: string, s: Desk) {
    && s.deco.Keys == s.rows.Keys
    && (forall id :: id in s.rows ==> RowSound(zone, id, s.deco[id], s.routes))
    && (forall h :: h in s.routes ==> s.routes[h].workspace in s.rows)
  }

  predicate SameAt(routes: Table, routes': Table, host: string) {
    && (host in routes' <==> host in routes)
    && (host in routes ==> routes'[host] == routes[host])
  }

  /** The hook part of a step, for the workspace it runs on and for every other one. */
  ghost predicate Local(zone: string, id: Id, routes: Table, routes': Table) {
    && (forall h :: h in routes' && routes'[h].workspace != id ==> h in routes && routes'[h] == routes[h])
    && (forall other, name :: |other| == |id| && other != id ==> SameAt(routes, routes', Host(zone, other, name)))
  }

  lemma PostRunningLocal(zone: string, id: Id, d: Deco, routes: Table)
    ensures Local(zone, id, routes, PostRunning(zone, id, d, routes).1)
  {
    var had := Names(d.endpoints);
    var routes' := PostRunning(zone, id, d, routes).1;
    forall h | h in routes' && routes'[h].workspace != id ensures h in routes && routes'[h] == routes[h] {
      ExposeAllMarks(zone, id, had, d.ingress, d.endpoints, routes, h);
    }
    forall other, name | |other| == |id| && other != id ensures SameAt(routes, routes', Host(zone, other, name))
    {
      forall mine ensures Host(zone, other, name) != Host(zone, id, mine) {
        if Host(zone, other, name) == Host(zone, id, mine) {
          HostIsInjective(zone, other, name, id, mine);
        }
      }
      ExposeAllIsLocal(zone, id, had, d.ingress, d.endpoints, routes, Host(zone, other, name));
    }
  }

  lemma PreDestroyLocal(zone: string, id: Id, d: Deco, routes: Table)
    requires Made(zone, id, d.ingress, d.endpoints)
    ensures Local(zone, id, routes, PreDestroy(d, routes))
  {
    var routes' := PreDestroy(d, routes);
    forall other, name | |other| == |id| && other != id ensures SameAt(routes, routes', Host(zone, other, name))
    {
      forall e | e in d.endpoints ensures e.ref != Host(zone, other, name) {
        if e.ref == Host(zone, other, name) {
          HostIsInjective(zone, other, name, id, e.name);
        }
      }
    }
  }

  lemma LocalKeepsOthers(zone: string, id: Id, other: Id, d: Deco, routes: Table, routes': Table)
    requires Local(zone, id, routes, routes') && other != id && |other| == |id|
    requires Made(zone, other, d.ingress, d.endpoints)
    ensures Accounted(zone, other, d.endpoints, routes) ==> Accounted(zone, other, d.endpoints, routes')
    ensures Routed(zone, other, d.endpoints, routes) ==> Routed(zone, other, d.endpoints, routes')
  {
  }

  predicate Torn(c: Config, s: Desk, h: Hooked, id: Id) {
    h.event.act.Tick? && h.event.act.id == id && AskOf(c, s.rows, h.event).Teardown?
  }

  /** PostRunning on here, seen from any workspace id. */
  lemma ServeKeeps(zone: string, here: Id, d: Deco, id: Id, di: Deco, routes: Table)
    requires RowSound(zone, here, d, routes) && RowSound(zone, id, di, routes) && (id == here ==> di == d)
    ensures var (d', routes') := PostRunning(zone, here, d, routes);
            var di' := if id == here then d' else di;
            && RowSound(zone, id, di', routes')
            && (Routed(zone, id, di.endpoints, routes) ==> Routed(zone, id, di'.endpoints, routes'))
  {
    if id == here {
      ExposeAllAgrees(zone, here, Names(d.endpoints), d.ingress, d.ingress, d.endpoints, routes);
    } else {
      PostRunningLocal(zone, here, d, routes);
      hide PostRunning, Local, Made, Accounted, Routed;
      LocalKeepsOthers(zone, here, id, di, routes, PostRunning(zone, here, d, routes).1);
    }
  }

  /** PreDestroy of here, seen from any workspace id. */
  lemma TeardownKeeps(zone: string, here: Id, d: Deco, id: Id, di: Deco, routes: Table)
    requires RowSound(zone, here, d, routes) && RowSound(zone, id, di, routes) && (id == here ==> di == d)
    ensures RowSound(zone, id, di, PreDestroy(d, routes))
    ensures id != here && Routed(zone, id, di.endpoints, routes) ==>
              Routed(zone, id, di.endpoints, PreDestroy(d, routes))
  {
    if id == here {
      PreDestroyAccounts(zone, here, d, routes);
    } else {
      PreDestroyLocal(zone, here, d, routes);
      hide PreDestroy, Local, Made, Accounted, Routed;
      LocalKeepsOthers(zone, here, id, di, routes, PreDestroy(d, routes));
    }
  }

  lemma HomeKeeps(zone: string, here: Id, d: Deco, home: string, routes: Table)
    requires RowSound(zone, here, d, routes)
    ensures RowSound(zone, here, d.(home := home), routes)
  {
  }

  lemma RestartKeeps(zone: string, id: Id, d: Deco, routes: Table)
    requires RowSound(zone, id, d, routes)
    ensures RowSound(zone, id, d, map[])
  {
  }

  /** One workspace through the hooks of a step: still sound, and still routed unless it is being torn
      down or the daemon restarted. */
  lemma HooksKeep(c: Config, zone: string, s: Desk, h: Hooked, id: Id)
    requires Sound(zone, s) && id in s.rows
    ensures var (deco, routes) := HooksRun(c, zone, s, h);
            && deco.Keys == s.deco.Keys && RowSound(zone, id, deco[id], routes)
            && (Routed(zone, id, s.deco[id].endpoints, s.routes) && !h.event.act.Restart? && !Torn(c, s, h, id)
                ==> Routed(zone, id, deco[id].endpoints, routes))
  {
    hide RowSound, PostRunning, PreDestroy, Routed;
    var e := h.event;
    assert RowSound(zone, id, s.deco[id], s.routes);
    if e.act.Restart? {
      RestartKeeps(zone, id, s.deco[id], s.routes);
    } else if e.act.Tick? && e.act.id in s.rows {
      var here, d := e.act.id, s.deco[e.act.id];
      assert RowSound(zone, here, d, s.routes);
      hide AskOf, Sound;
      match AskOf(c, s.rows, e) {
        case Serve => ServeKeeps(zone, here, d, id, s.deco[id], s.routes);
        case Teardown(_) => TeardownKeeps(zone, here, d, id, s.deco[id], s.routes);
        case Make(_, _) => HomeKeeps(zone, here, d, h.home, s.routes);
        case _ =>
      }
    }
  }

  lemma PreDestroyAccounts(zone: string, id: Id, d: Deco, routes: Table)
    requires Accounted(zone, id, d.endpoints, routes)
    ensures Accounted(zone, id, d.endpoints, PreDestroy(d, routes))
  {
  }

  /** A deleted row was torn down by the step that deletes it. */
  lemma DeletionRunsTheHook(c: Config, s: Desk, h: Hooked, id: Id)
    requires id in s.rows && RowNext(c, s.rows, h.event, id).None?
    ensures Torn(c, s, h, id)
  {
  }

  /** The hooks route no workspace but those in the table, and none that is being torn down. */
  lemma HooksLeaveNoStray(c: Config, zone: string, s: Desk, h: Hooked, k: string)
    requires Sound(zone, s) && c.hooks
    ensures var (deco, routes) := HooksRun(c, zone, s, h);
            k in routes ==> routes[k].workspace in s.rows && !Torn(c, s, h, routes[k].workspace)
  {
    var e := h.event;
    hide RowSound, PostRunning, PreDestroy;
    if e.act.Tick? && e.act.id in s.rows {
      hide AskOf;
      var id, d := e.act.id, s.deco[e.act.id];
      assert RowSound(zone, id, d, s.routes);
      match AskOf(c, s.rows, e) {
        case Serve => PostRunningMarks(zone, id, d, s.routes, k);
        case Teardown(_) => TeardownClears(zone, id, d, s.routes, k);
        case _ =>
      }
    }
  }

  lemma PostRunningMarks(zone: string, id: Id, d: Deco, routes: Table, k: string)
    ensures var routes' := PostRunning(zone, id, d, routes).1;
            k in routes' ==> routes'[k].workspace == id || (k in routes && routes'[k] == routes[k])
  {
    PostRunningLocal(zone, id, d, routes);
    hide PostRunning;
  }

  lemma TeardownClears(zone: string, id: Id, d: Deco, routes: Table, k: string)
    requires RowSound(zone, id, d, routes)
    ensures var routes' := PreDestroy(d, routes);
            k in routes' ==> routes'[k].workspace != id && k in routes && routes'[k] == routes[k]
  {
  }

  /** Which rows and decorations a valid step leaves. */
  lemma StepAt(c: Config, zone: string, s: Desk, h: Hooked, id: Id)
    requires !Invalid(h) && s.deco.Keys == s.rows.Keys && id in Step(c, zone, s, h).rows
    ensures var s' := Step(c, zone, s, h);
            && id in s'.deco
            && s'.routes == HooksRun(c, zone, s, h).1
            && (if id in s.rows then
                  RowNext(c, s.rows, h.event, id) == Some(s'.rows[id]) && s'.deco[id] == HooksRun(c, zone, s, h).0[id]
                else
                  Creates(h.event, id) && s'.rows[id].phase == Pending
                  && s'.deco[id] == Deco(if h.event.act.CreateWorkspace? then h.ingress else [], "", []))
    ensures HooksRun(c, zone, s, h).0.Keys == s.deco.Keys
  {
    assert HooksRun(c, zone, s, h).0.Keys == s.deco.Keys;
    hide HooksRun;
    if id !in s.rows {
      Safety.BornOk(c, s.rows, h.event);
    }
    hide RowNext, AttachOf;
  }

  /** One workspace through a step. */
  lemma StepRowSound(c: Config, zone: string, s: Desk, h: Hooked, id: Id)
    requires Sound(zone, s) && c.hooks && Lawful(h) && !Invalid(h) && id in Step(c, zone, s, h).rows
    ensures id in Step(c, zone, s, h).deco && RowSound(zone, id, Step(c, zone, s, h).deco[id],
                                                       Step(c, zone, s, h).routes)
  {
    StepAt(c, zone, s, h, id);
    var routes := HooksRun(c, zone, s, h).1;
    if id in s.rows {
      HooksKeep(c, zone, s, h, id);
    } else {
      forall k | k in routes ensures routes[k].workspace != id {
        HooksLeaveNoStray(c, zone, s, h, k);
      }
      hide HooksRun, Step, RowNext, Sound;
    }
  }

  lemma StepSound(c: Config, zone: string, s: Desk, h: Hooked)
    requires Sound(zone, s) && c.hooks && Lawful(h)
    ensures Sound(zone, Step(c, zone, s, h))
  {
    if !Invalid(h) {
      var s' := Step(c, zone, s, h);
      hide HooksRun, RowNext, Born;
      forall id | id in s'.rows ensures RowSound(zone, id, s'.deco[id], s'.routes) {
        StepRowSound(c, zone, s, h, id);
      }
      forall k | k in s'.routes ensures s'.routes[k].workspace in s'.rows {
        HooksLeaveNoStray(c, zone, s, h, k);
        var id := s'.routes[k].workspace;
        if RowNext(c, s.rows, h.event, id).None? {
          DeletionRunsTheHook(c, s, h, id);
        }
      }
    }
  }

  /** Every reachable state is sound: endpoints come from ingress ports, every route is the endpoint
      of a workspace still in the table, and so a deleted workspace has no route. */
  lemma {:induction false} AlwaysSound(c: Config, zone: string, s: Desk, hs: seq<Hooked>, n: nat)
    requires n <= |hs| && Sound(zone, s) && c.hooks && (forall h :: h in hs ==> Lawful(h))
    ensures Sound(zone, At(c, zone, s, hs, n))
  {
    hide Step, Sound, Lawful;
    if n > 0 {
      AlwaysSound(c, zone, s, hs, n - 1);
      StepSound(c, zone, At(c, zone, s, hs, n - 1), hs[n - 1]);
    }
  }

  // ---- agreement in one life of the daemon ----

  /** The routes of a workspace not on its way out are its endpoints. */
  ghost predicate Agrees(zone: string, s: Desk, id: Id) {
    id in s.rows && id in s.deco && !Ending(s.rows[id].phase) ==> Routed(zone, id, s.deco[id].endpoints, s.routes)
  }

  lemma StepAgrees(c: Config, zone: string, s: Desk, h: Hooked, id: Id)
    requires Sound(zone, s) && !h.event.act.Restart? && Agrees(zone, s, id)
    ensures Agrees(zone, Step(c, zone, s, h), id)
  {
    var s' := Step(c, zone, s, h);
    if !Invalid(h) && id in s'.rows {
      StepAt(c, zone, s, h, id);
      if id in s.rows {
        Safety.RowNextFollows(c, s.rows, h.event, id);
        HooksKeep(c, zone, s, h, id);
        hide Step, Routed, RowNext, HooksRun;
        if Torn(c, s, h, id) {
          TornIsEnding(c, s, h, id);
        }
      }
    }
  }

  lemma TornIsEnding(c: Config, s: Desk, h: Hooked, id: Id)
    requires id in s.rows && Torn(c, s, h, id)
    ensures Ending(s.rows[id].phase)
  {
  }

  lemma {:induction false} AgreesOnwards(c: Config, zone: string, s: Desk, hs: seq<Hooked>, m: nat, n: nat, id: Id)
    requires m <= n <= |hs| && Sound(zone, s) && c.hooks && (forall h :: h in hs ==> Lawful(h))
    requires forall k :: m <= k < n ==> !hs[k].event.act.Restart?
    requires Agrees(zone, At(c, zone, s, hs, m), id)
    ensures Agrees(zone, At(c, zone, s, hs, n), id)
  {
    hide Step, Sound, Lawful, Agrees;
    if m < n {
      AgreesOnwards(c, zone, s, hs, m, n - 1, id);
      AlwaysSound(c, zone, s, hs, n - 1);
      StepAgrees(c, zone, At(c, zone, s, hs, n - 1), hs[n - 1], id);
    }
  }

  /** In one life of the daemon, the hosts routed to a Pending, Provisioning, Running or Suspended
      workspace are exactly its stored endpoints, each to its port; and no route outlives its workspace. */
  lemma RoutesAreEndpoints(c: Config, zone: string, hs: seq<Hooked>, n: nat, host: string)
    requires n <= |hs| && c.hooks && (forall h :: h in hs ==> Lawful(h))
    requires forall k :: 0 <= k < n ==> !hs[k].event.act.Restart?
    ensures var s := At(c, zone, EMPTY, hs, n);
            && s.deco.Keys == s.rows.Keys
            && (host in s.routes ==>
                  var r := s.routes[host];
                  && r.workspace in s.rows
                  && exists e ::
                       e in s.deco[r.workspace].endpoints && e.ref == host && e.name == r.name && e.port == r.port)
            && (forall id, e ::
                  id in s.rows && !Ending(s.rows[id].phase) && e in s.deco[id].endpoints && e.ref == host ==>
                    host in s.routes && s.routes[host] == Route(host, id, e.port, e.name))
  {
    var s := At(c, zone, EMPTY, hs, n);
    AlwaysSound(c, zone, EMPTY, hs, n);
    assert At(c, zone, EMPTY, hs, 0) == EMPTY;
    hide At, Host;
    if host in s.routes {
      var r := s.routes[host];
      assert RowSound(zone, r.workspace, s.deco[r.workspace], s.routes);
      assert EndpointFor(zone, r.workspace, IngressPort(r.name, r.port)) in s.deco[r.workspace].endpoints;
    }
    forall id, e | id in s.rows && !Ending(s.rows[id].phase) && e in s.deco[id].endpoints && e.ref == host
      ensures host in s.routes && s.routes[host] == Route(host, id, e.port, e.name)
    {
      assert Agrees(zone, EMPTY, id);
      AgreesOnwards(c, zone, EMPTY, hs, 0, n, id);
      assert RowSound(zone, id, s.deco[id], s.routes);
    }
  }

  /** What a gateway request meets: in one life of the daemon the host of a workspace that is not ending and a name
      leads to that workspace, at the port of its endpoint of that name, and nowhere when it has none; and the host
      of a workspace that is gone leads nowhere. */
  lemma LookupReachesTheWorkspace(c: Config, zone: string, hs: seq<Hooked>, n: nat, id: Id, name: string)
    requires n <= |hs| && c.hooks && (forall h :: h in hs ==> Lawful(h)) && |id| == ID_LENGTH
    requires forall k :: 0 <= k < n ==> !hs[k].event.act.Restart?
    ensures var s := At(c, zone, EMPTY, hs, n);
            var host := name + "-" + id + "." + zone;
            var r := Target(s.routes, host);
            && (id !in s.rows ==> r == None)
            && (id in s.rows && !Ending(s.rows[id].phase) ==>
                  id in s.deco
                  && (r.None? ==> name !in Names(s.deco[id].endpoints))
                  && (r.Some? ==> r.value.workspace == id && r.value.name == name
                                  && Endpoint(name, "https://" + host, r.value.port, host) in s.deco[id].endpoints))
  {
    var s, host := At(c, zone, EMPTY, hs, n), Host(zone, id, name);
    assert host == name + "-" + id + "." + zone;
    RoutesAreEndpoints(c, zone, hs, n, host);
    AlwaysSound(c, zone, EMPTY, hs, n);
    hide At, Host;
    if host in s.routes {
      var r := s.routes[host];
      assert RowSound(zone, r.workspace, s.deco[r.workspace], s.routes);
      HostIsInjective(zone, r.workspace, r.name, id, name);
    }
    if id in s.rows && !Ending(s.rows[id].phase) && name in Names(s.deco[id].endpoints) {
      var e :| e in s.deco[id].endpoints && e.name == name;
      assert RowSound(zone, id, s.deco[id], s.routes);
      assert e.ref == host;
    }
  }

  // ---- what a restart costs ----

  /** Box-view updates never change Ingress, HomeMount or Endpoints: only the hooks of a tick on the
      workspace do, PreProvision the home and PostRunning the endpoints. */
  lemma OnlyHooksDecorate(c: Config, zone: string, s: Desk, h: Hooked, id: Id)
    requires s.deco.Keys == s.rows.Keys && id in s.rows && id in Step(c, zone, s, h).rows
    ensures id in Step(c, zone, s, h).deco
    ensures var d, d' := s.deco[id], Step(c, zone, s, h).deco[id];
            && d'.ingress == d.ingress
            && (d'.home != d.home ==> IsTick(h.event, id) && AskOf(c, s.rows, h.event).Make?)
            && (d'.endpoints != d.endpoints ==> IsTick(h.event, id) && AskOf(c, s.rows, h.event).Serve?)
  {
    if !Invalid(h) {
      StepAt(c, zone, s, h, id);
      hide Step, RowNext, ExposeAll, Next;
    }
  }

  /** name is one of the workspace's endpoints, but nothing answers at its host. */
  ghost predicate Lost(zone: string, s: Desk, id: Id, name: string) {
    id in s.deco && name in Names(s.deco[id].endpoints) && Host(zone, id, name) !in s.routes
  }

  lemma ServeKeepsLost(zone: string, here: Id, d: Deco, id: Id, di: Deco, routes: Table, name: string)
    requires RowSound(zone, here, d, routes) && |id| == ID_LENGTH && (id == here ==> di == d)
    requires name in Names(di.endpoints) && Host(zone, id, name) !in routes
    ensures var (d', routes') := PostRunning(zone, here, d, routes);
            name in Names((if id == here then d' else di).endpoints) && Host(zone, id, name) !in routes'
  {
    if id == here {
      ExposeAllAgrees(zone, here, Names(d.endpoints), d.ingress, d.ingress, d.endpoints, routes);
      ExposeAllSkips(zone, id, Names(d.endpoints), d.ingress, d.endpoints, routes, name);
      hide Host, RowSound, ExposeAll;
    } else {
      PostRunningLocal(zone, here, d, routes);
      hide PostRunning;
      assert SameAt(routes, PostRunning(zone, here, d, routes).1, Host(zone, id, name));
    }
  }

  lemma HooksKeepLost(c: Config, zone: string, s: Desk, h: Hooked, id: Id, name: string)
    requires Sound(zone, s) && Lost(zone, s, id, name)
    ensures var (deco, routes) := HooksRun(c, zone, s, h);
            id in deco && name in Names(deco[id].endpoints) && Host(zone, id, name) !in routes
  {
    assert RowSound(zone, id, s.deco[id], s.routes);
    var e := h.event;
    hide Host, AskOf, Names, ExposeAll, PostRunning;
    if e.act.Tick? && e.act.id in s.rows {
      var here, d := e.act.id, s.deco[e.act.id];
      assert RowSound(zone, here, d, s.routes);
      hide RowSound, Sound, Lost;
      match AskOf(c, s.rows, e) {
        case Serve => ServeKeepsLost(zone, here, d, id, s.deco[id], s.routes, name);
        case _ =>
      }
    }
  }

  lemma StepKeepsLost(c: Config, zone: string, s: Desk, h: Hooked, id: Id, name: string)
    requires Sound(zone, s) && Lost(zone, s, id, name) && id in Step(c, zone, s, h).rows
    ensures Lost(zone, Step(c, zone, s, h), id, name)
  {
    if !Invalid(h) {
      StepAt(c, zone, s, h, id);
      HooksKeepLost(c, zone, s, h, id, name);
      hide Step, HooksRun, Host, Names, RowNext;
    }
  }

  lemma {:induction false} LostForGood(c: Config, zone: string, s: Desk, hs: seq<Hooked>, m: nat, n: nat, id: Id,
                                       name: string)
    requires m <= n <= |hs| && Sound(zone, s) && c.hooks && (forall h :: h in hs ==> Lawful(h))
    requires forall k :: m <= k <= n ==> id in At(c, zone, s, hs, k).rows
    requires Lost(zone, At(c, zone, s, hs, m), id, name)
    ensures Lost(zone, At(c, zone, s, hs, n), id, name)
  {
    hide Step, Sound, Lawful, Lost;
    if m < n {
      LostForGood(c, zone, s, hs, m, n - 1, id, name);
      AlwaysSound(c, zone, s, hs, n - 1);
      assert id in At(c, zone, s, hs, n).rows;
      StepKeepsLost(c, zone, At(c, zone, s, hs, n - 1), hs[n - 1], id, name);
    }
  }

  /** A restart loses the routes while the endpoints persist, and PostRunning exposes only names it has no
      endpoint for: after a restart a workspace's routes agree with its endpoints again exactly when it had
      none at the restart. */
  lemma RestartAgreesIff(c: Config, zone: string, s: Desk, hs: seq<Hooked>, m: nat, n: nat, id: Id)
    requires m < n <= |hs| && Sound(zone, s) && c.hooks && (forall h :: h in hs ==> Lawful(h))
    requires hs[m].event.act.Restart? && forall k :: m < k < n ==> !hs[k].event.act.Restart?
    requires forall k :: m <= k <= n ==> id in At(c, zone, s, hs, k).rows
    requires !Ending(At(c, zone, s, hs, n).rows[id].phase)
    ensures id in At(c, zone, s, hs, m).deco && id in At(c, zone, s, hs, n).deco
    ensures Routed(zone, id, At(c, zone, s, hs, n).deco[id].endpoints, At(c, zone, s, hs, n).routes)
            <==> At(c, zone, s, hs, m).deco[id].endpoints == []
  {
    hide At, Step, RowSound, Ending, Lawful, Agrees, Lost, Routed;
    var s0, s1, s' := At(c, zone, s, hs, m), At(c, zone, s, hs, m + 1), At(c, zone, s, hs, n);
    AlwaysSound(c, zone, s, hs, m);
    AlwaysSound(c, zone, s, hs, n);
    AtStep(c, zone, s, hs, m);
    assert id in s1.rows;
    RestartEmpties(c, zone, s0, hs[m], id);
    if s0.deco[id].endpoints == [] {
      AgreesOnwards(c, zone, s, hs, m + 1, n, id);
      AgreesMeans(zone, s', id);
    } else {
      var name := s0.deco[id].endpoints[0].name;
      LostForGood(c, zone, s, hs, m + 1, n, id, name);
      LostIsNotRouted(zone, s', id, name);
    }
  }

  lemma AtStep(c: Config, zone: string, s: Desk, hs: seq<Hooked>, n: nat)
    requires n < |hs|
    ensures At(c, zone, s, hs, n + 1) == Step(c, zone, At(c, zone, s, hs, n), hs[n])
  {
  }

  lemma AgreesMeans(zone: string, s: Desk, id: Id)
    requires Agrees(zone, s, id) && id in s.rows && id in s.deco && !Ending(s.rows[id].phase)
    ensures Routed(zone, id, s.deco[id].endpoints, s.routes)
  {
  }

  lemma RestartEmpties(c: Config, zone: string, s: Desk, h: Hooked, id: Id)
    requires s.deco.Keys == s.rows.Keys && id in s.rows && h.event.act.Restart? && id in Step(c, zone, s, h).rows
    ensures var s' := Step(c, zone, s, h);
            id in s'.deco && s'.deco[id] == s.deco[id] && s'.routes == map[]
    ensures s.deco[id].endpoints == [] ==> Agrees(zone, Step(c, zone, s, h), id)
    ensures s.deco[id].endpoints != [] ==> Lost(zone, Step(c, zone, s, h), id, s.deco[id].endpoints[0].name)
  {
  }

  lemma LostIsNotRouted(zone: string, s: Desk, id: Id, name: string)
    requires Sound(zone, s) && id in s.rows && Lost(zone, s, id, name)
    ensures !Routed(zone, id, s.deco[id].endpoints, s.routes)
  {
  }

  // ---- a run that loses its routes ----

  const PORT := IngressPort("web", 80)

  /** A workspace with one port is built, its agent connects, its port is exposed, and the daemon restarts. */
  function LosingRun(id: Id, tenant: string, a: Answers): seq<Hooked> {
    var tick := Hooked(Event(0, Tick(id, a)), [], "home");
    [Hooked(Event(0, CreateWorkspace(id, tenant, "owner", "name", "image")), [PORT], ""),
     tick, Hooked(Event(0, Agent(id, true)), [], ""), tick, tick, Hooked(Event(0, Restart({})), [], "")]
  }

  /** One workspace alone, through a step that keeps it. */
  lemma AloneStep(c: Config, zone: string, s: Desk, h: Hooked, id: Id, b: Box, d: Deco)
    requires s.rows.Keys == {id} && RowNext(c, s.rows, h.event, id) == Some(b)
    requires !h.event.act.Attach? && !h.event.act.CreateWorkspace?
    requires HooksRun(c, zone, s, h).0 == map[id := d]
    ensures Step(c, zone, s, h) == Desk(map[id := b], map[id := d], HooksRun(c, zone, s, h).1)
  {
    hide RowNext, HooksRun;
  }

  lemma FirstStep(c: Config, zone: string, id: Id, tenant: string)
    ensures var h := Hooked(Event(0, CreateWorkspace(id, tenant, "owner", "name", "image")), [PORT], "");
            Step(c, zone, EMPTY, h)
            == Desk(map[id := NewBox(BoxSpec(tenant, "owner", "name", "image", "", false, 0, 0, 0))],
                    map[id := Deco([PORT], "", [])], map[])
  {
  }

  /** The first PostRunning exposes the port. */
  lemma FirstServe(zone: string, id: Id, home: string)
    requires id != ""
    ensures PostRunning(zone, id, Deco([PORT], home, []), map[])
         == (Deco([PORT], home, [EndpointFor(zone, id, PORT)]), map[Host(zone, id, "web") := RouteFor(zone, id, PORT)])
  {
    hide Host, EndpointFor, RouteFor;
    var eps := [EndpointFor(zone, id, PORT)];
    var routes := map[Host(zone, id, "web") := RouteFor(zone, id, PORT)];
    assert [PORT][1..] == [] && [] + eps == eps && Names([]) == {};
    assert map[][Host(zone, id, "web") := RouteFor(zone, id, PORT)] == routes;
    assert ExposeAll(zone, id, {}, [], eps, routes) == Exposure(true, eps, routes);
    assert ExposeAll(zone, id, {}, [PORT], [], map[]) == Exposure(true, eps, routes);
  }

  lemma AtNext(c: Config, zone: string, s: Desk, hs: seq<Hooked>, n: nat)
    requires n < |hs|
    ensures At(c, zone, s, hs, 0) == s && At(c, zone, s, hs, n + 1) == Step(c, zone, At(c, zone, s, hs, n), hs[n])
  {
  }

  /** The workspace of the run once Running. */
  function RunningBox(c: Config, ref: Ref, ip: string): Box {
    var b := NewBox(BoxSpec(c.tenant, "owner", "name", "image", "", false, 0, 0, 0));
    Started(b.(instanceRef := ref, ip := ip, phase := Provisioning, agentConnected := true), 0)
  }

  /** The first four events: the workspace is Running, with its home and nothing exposed yet. */
  lemma BuiltAndConnected(c: Config, zone: string, id: Id, a: Answers, ref: Ref, ip: string)
    requires c.hooks && a.hookOk && a.provision == ProvisionOk(ref, ip)
    ensures At(c, zone, EMPTY, LosingRun(id, c.tenant, a), 4)
         == Desk(map[id := RunningBox(c, ref, ip)], map[id := Deco([PORT], "home", [])], map[])
  {
    hide At, Step, PostRunning;
    var hs := LosingRun(id, c.tenant, a);
    var b1 := NewBox(BoxSpec(c.tenant, "owner", "name", "image", "", false, 0, 0, 0));
    var b2 := b1.(instanceRef := ref, ip := ip, phase := Provisioning);
    var b3 := b2.(agentConnected := true);
    var d1, d2 := Deco([PORT], "", []), Deco([PORT], "home", []);
    FirstStep(c, zone, id, c.tenant);
    AtNext(c, zone, EMPTY, hs, 0);
    AloneStep(c, zone, Desk(map[id := b1], map[id := d1], map[]), hs[1], id, b2, d2);
    AtNext(c, zone, EMPTY, hs, 1);
    AloneStep(c, zone, Desk(map[id := b2], map[id := d2], map[]), hs[2], id, b3, d2);
    AtNext(c, zone, EMPTY, hs, 2);
    AloneStep(c, zone, Desk(map[id := b3], map[id := d2], map[]), hs[3], id, Started(b3, 0), d2);
    AtNext(c, zone, EMPTY, hs, 3);
  }

  /** After the run the workspace is Running with its endpoint stored, and its host leads nowhere. */
  lemma RestartLosesRoutes(c: Config, zone: string, id: Id, a: Answers, ref: Ref, ip: string)
    requires c.hooks && id != "" && a.hookOk && a.provision == ProvisionOk(ref, ip)
    ensures var s := At(c, zone, EMPTY, LosingRun(id, c.tenant, a), 6);
            && id in s.rows && s.rows[id].phase == Running && id in s.deco
            && EndpointFor(zone, id, PORT) in s.deco[id].endpoints
            && Target(s.routes, Host(zone, id, "web")) == None
  {
    hide At, Step, Host, PostRunning, EndpointFor, RouteFor;
    var hs := LosingRun(id, c.tenant, a);
    var b := RunningBox(c, ref, ip);
    var d := Deco([PORT], "home", []);
    var d' := d.(endpoints := [EndpointFor(zone, id, PORT)]);
    var routes := map[Host(zone, id, "web") := RouteFor(zone, id, PORT)];
    BuiltAndConnected(c, zone, id, a, ref, ip);
    FirstServe(zone, id, "home");
    AloneStep(c, zone, Desk(map[id := b], map[id := d], map[]), hs[4], id, b, d');
    AtNext(c, zone, EMPTY, hs, 4);
    AloneStep(c, zone, Desk(map[id := b], map[id := d'], routes), hs[5], id, b, d');
    AtNext(c, zone, EMPTY, hs, 5);
  }

  /** The home storage hands out is recorded by every build whose hook succeeds, and by nothing else. */
  lemma HomeIsRecorded(c: Config, zone: string, s: Desk, h: Hooked, id: Id)
    requires c.hooks && !Invalid(h) && s.deco.Keys == s.rows.Keys && id in s.rows && id in Step(c, zone, s, h).rows
    ensures id in Step(c, zone, s, h).deco
    ensures Step(c, zone, s, h).deco[id].home
         == if IsTick(h.event, id) && AskOf(c, s.rows, h.event).Make? && h.event.act.a.hookOk then h.home
            else s.deco[id].home
  {
    StepAt(c, zone, s, h, id);
    hide Step, RowNext, ExposeAll, Next;
  }
}
