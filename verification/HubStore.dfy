/** The hub and the rows together, in one daemon life: Register and Unregister are
    atomic with the sink call they make (cmd/boxd/main.go). */
module HubStore {
  import opened Common
  import opened Boxes
  import opened Phases
  import L = Lifecycle
  import Safety
  import H = Hubs

  datatype State = State(world: L.World, hub: H.State)

  datatype Event = HubMove(move: H.Move) | BoxEvent(e: L.Event)

  /** The report the hub makes to its sink with a move, if any. */
  function Report(h: H.State, m: H.Move): Option<L.Act> {
    if !H.Enabled(h, m) then None
    else match m
      case Register(sess) => if H.Takes(h, sess) then Some(L.Agent(h.loops[sess].ws, true)) else None
      case Unregister(sess) =>
        var ws := h.loops[sess].ws;
        if ws in h.sessions && h.sessions[ws] == sess then Some(L.Agent(ws, false)) else None
      case _ => None
  }

  ghost function Step(c: L.Config, s: State, e: Event): State {
    match e
    case HubMove(m) =>
      State(match Report(s.hub, m) case None => s.world case Some(act) => L.Step(c, s.world, L.Event(0, act)),
            H.Step(s.hub, m))
    case BoxEvent(be) => State(L.Step(c, s.world, be), s.hub)
  }

  ghost function At(c: L.Config, s: State, es: seq<Event>, n: nat): State
    requires n <= |es|
  {
    if n == 0 then s else Step(c, At(c, s, es, n - 1), es[n - 1])
  }

  /** One daemon life: the agent flag is the hub's to report, and there is no restart in between. */
  predicate OneLife(es: seq<Event>) {
    forall n :: 0 <= n < |es| && es[n].BoxEvent? ==> !es[n].e.act.Agent? && !es[n].e.act.Restart?
  }

  /** A row flagged connected has a session in the hub. */
  ghost predicate Agree(rows: L.Rows, h: H.State) {
    forall id :: id in rows && rows[id].agentConnected ==> id in h.sessions
  }

  /** No step but the sink's raises the flag of an existing row. */
  lemma OnlySinkRaises(c: L.Config, rows: L.Rows, e: L.Event, id: L.Id)
    requires id in rows && !e.act.Agent? && L.RowNext(c, rows, e, id).Some?
    ensures L.RowNext(c, rows, e, id).value.agentConnected ==> rows[id].agentConnected
  {
  }

  lemma BoxEventAgrees(c: L.Config, s: State, be: L.Event)
    requires Agree(s.world.rows, s.hub) && !be.act.Agent?
    ensures Agree(L.Step(c, s.world, be).rows, s.hub)
  {
    var rows, rows' := s.world.rows, L.Step(c, s.world, be).rows;
    forall id | id in rows' && rows'[id].agentConnected ensures id in s.hub.sessions {
      if id in rows {
        OnlySinkRaises(c, rows, be, id);
      } else {
        Safety.BornOk(c, rows, be);
      }
    }
  }

  lemma SinkReport(c: L.Config, w: L.World, ws: L.Id, connected: bool)
    ensures var rows' := L.Step(c, w, L.Event(0, L.Agent(ws, connected))).rows;
            forall id :: id in rows' ==>
              id in w.rows && rows'[id].agentConnected == if id == ws then connected else w.rows[id].agentConnected
  {
  }

  lemma HubMoveAgrees(c: L.Config, s: State, m: H.Move)
    requires Agree(s.world.rows, s.hub)
    ensures Agree(Step(c, s, HubMove(m)).world.rows, Step(c, s, HubMove(m)).hub)
  {
    var r := Report(s.hub, m);
    if r.Some? {
      SinkReport(c, s.world, r.value.id, r.value.connected);
      hide L.Step;
    }
  }

  /** From rows with the flag down: in every state of hub and reconciler together, a row flagged
      AgentConnected has a session in the hub, although provision and suspend write the flag too. */
  lemma {:induction false} FlagImpliesSession(c: L.Config, s: State, es: seq<Event>, n: nat)
    requires n <= |es| && OneLife(es) && Agree(s.world.rows, s.hub)
    ensures Agree(At(c, s, es, n).world.rows, At(c, s, es, n).hub)
  {
    hide L.Step, Agree;
    if n > 0 {
      FlagImpliesSession(c, s, es, n - 1);
      match es[n - 1] {
        case HubMove(m) => HubMoveAgrees(c, At(c, s, es, n - 1), m);
        case BoxEvent(be) => BoxEventAgrees(c, At(c, s, es, n - 1), be);
      }
    }
  }

  /** A restart empties the hub but keeps the rows: agreement survives it exactly when no flag is up. */
  lemma RestartAgreesIff(c: L.Config, w: L.World, kept: set<L.Ref>)
    ensures Agree(L.Step(c, w, L.Event(0, L.Restart(kept))).rows, H.START)
            <==> forall id :: id in w.rows ==> !w.rows[id].agentConnected
  {
    var rows' := L.Step(c, w, L.Event(0, L.Restart(kept))).rows;
    assert forall id :: id in w.rows ==> id in rows' && rows'[id].agentConnected == w.rows[id].agentConnected;
  }

  // ---- when the flag follows the session ----

  /** The box events that lower a raised flag: a suspend that succeeds, a rebuild that succeeds, a drain. */
  predicate Lowers(c: L.Config, b: Box, e: L.Event, id: L.Id) {
    match e.act
    case Tick(i, a) =>
      i == id &&
      if b.phase == Running then L.ShouldSuspend(c, b, e.now) && a.suspendOk
      else
        (b.phase == Pending || (b.phase == Suspended && b.attached && !c.suspender))
        && (!c.hooks || a.hookOk) && a.provision.ProvisionOk?
    case Drain(ok) => L.Drained(c, b, id, ok)
    case _ => false
  }

  /** No other box event lowers the flag, and each of these does. */
  lemma LowersIff(c: L.Config, rows: L.Rows, e: L.Event, id: L.Id)
    requires id in rows && rows[id].agentConnected && !e.act.Agent? && L.RowNext(c, rows, e, id).Some?
    ensures !L.RowNext(c, rows, e, id).value.agentConnected <==> Lowers(c, rows[id], e, id)
  {
    hide L.AttachOf;
    match e.act {
      case Tick(i, a) =>
        match rows[id].phase {
          case Running => if !rows[id].spec.ephemeral && L.ShouldSuspend(c, rows[id], e.now) {}
          case _ =>
        }
      case Meta(_, _, cmd) => match cmd { case Heartbeat(_) => case _ => }
      case _ =>
    }
  }

  ghost predicate Flagged(rows: L.Rows, id: L.Id) {
    id in rows && rows[id].agentConnected
  }

  predicate Holds(h: H.State, id: L.Id, sess: H.Sess) {
    id in h.sessions && h.sessions[id] == sess
  }

  /** Event j is no box event that lowers the flag of the row. */
  ghost predicate Spared(c: L.Config, s: State, es: seq<Event>, j: nat, id: L.Id)
    requires j < |es|
  {
    var rows := At(c, s, es, j).world.rows;
    es[j].BoxEvent? && id in rows ==> !Lowers(c, rows[id], es[j].e, id)
  }

  ghost predicate Stored(c: L.Config, s: State, es: seq<Event>, j: nat, id: L.Id)
    requires j <= |es|
  {
    id in At(c, s, es, j).world.rows
  }

  /** From event k on, the row was there and no box event lowered its flag, up to state n. */
  ghost predicate Undisturbed(c: L.Config, s: State, es: seq<Event>, k: nat, n: nat, id: L.Id)
    requires n <= |es|
  {
    && (forall j :: k < j <= n ==> Stored(c, s, es, j, id))
    && (forall j :: k < j < n ==> Spared(c, s, es, j, id))
  }

  /** Event k is a Register by which sess takes the slot of id. */
  ghost predicate Registers(c: L.Config, s: State, es: seq<Event>, k: nat, id: L.Id, sess: H.Sess)
    requires k < |es|
  {
    var h := At(c, s, es, k).hub;
    es[k] == HubMove(H.Register(sess)) && H.InStage(h, sess, H.Dialed) && h.loops[sess].ws == id && H.Takes(h, sess)
  }

  /** A loop registers once: after its Register it is never waiting to register again. */
  lemma {:induction false} RegistersOnce(c: L.Config, s: State, es: seq<Event>, k: nat, n: nat, id: L.Id, sess: H.Sess)
    requires k < n <= |es| && Registers(c, s, es, k, id, sess)
    ensures sess in At(c, s, es, n).hub.loops && !H.InStage(At(c, s, es, n).hub, sess, H.Dialed)
  {
    hide L.Step, Report, H.RegisterNext, H.UnregisterNext;
    if k < n - 1 {
      RegistersOnce(c, s, es, k, n - 1, id, sess);
    }
  }

  /** A hub move after which the holder of id is the same as before reports nothing about id. */
  lemma SameHolderNoReport(h: H.State, m: H.Move, id: L.Id, sess: H.Sess)
    requires !H.InStage(h, sess, H.Dialed) && Holds(H.Step(h, m), id, sess)
    ensures Holds(h, id, sess)
    ensures Report(h, m).Some? ==> Report(h, m).value.id != id
  {
  }

  lemma HubMoveKeepsFlag(c: L.Config, s: State, m: H.Move, id: L.Id)
    requires Report(s.hub, m).Some? ==> Report(s.hub, m).value.id != id
    ensures var rows, rows' := s.world.rows, Step(c, s, HubMove(m)).world.rows;
            (id in rows' <==> id in rows) && (id in rows ==> rows'[id].agentConnected == rows[id].agentConnected)
  {
    var r := Report(s.hub, m);
    hide Report;
    if r.Some? {
      AgentReports(s.hub, m);
      SinkReport(c, s.world, r.value.id, r.value.connected);
      SinkKeepsRows(c, s.world, r.value.id, r.value.connected);
      hide L.Step;
    }
  }

  lemma AgentReports(h: H.State, m: H.Move)
    ensures Report(h, m).Some? ==> Report(h, m).value.Agent?
  {
  }

  lemma SinkKeepsRows(c: L.Config, w: L.World, ws: L.Id, connected: bool)
    ensures L.Step(c, w, L.Event(0, L.Agent(ws, connected))).rows.Keys == w.rows.Keys
  {
  }

  lemma BoxEventFlag(c: L.Config, w: L.World, e: L.Event, id: L.Id)
    requires !e.act.Agent?
    ensures Flagged(L.Step(c, w, e).rows, id)
            <==> Flagged(w.rows, id) && id in L.Step(c, w, e).rows && !Lowers(c, w.rows[id], e, id)
  {
    var rows' := L.Step(c, w, e).rows;
    if id in w.rows {
      if L.RowNext(c, w.rows, e, id).Some? {
        OnlySinkRaises(c, w.rows, e, id);
        if w.rows[id].agentConnected {
          LowersIff(c, w.rows, e, id);
        }
      }
      hide L.RowNext, Lowers, L.Born;
      assert id in rows' <==> L.RowNext(c, w.rows, e, id).Some?;
    } else if id in rows' {
      Safety.BornOk(c, w.rows, e);
    }
  }

  /** Exactly when the flag follows the session: a session that registered at k and still holds its slot at n
      has its row flagged at n if and only if, since then, the row was there throughout and no box event
      lowered the flag. */
  lemma {:induction false} FlagFollowsSession(c: L.Config, s: State, es: seq<Event>, k: nat, n: nat, id: L.Id,
                                              sess: H.Sess)
    requires k < n <= |es| && OneLife(es) && Registers(c, s, es, k, id, sess) && Holds(At(c, s, es, n).hub, id, sess)
    ensures Flagged(At(c, s, es, n).world.rows, id) <==> Undisturbed(c, s, es, k, n, id)
  {
    hide L.Step, Lowers, H.Step, Report;
    var before, after := At(c, s, es, n - 1), At(c, s, es, n);
    assert Stored(c, s, es, n, id) <==> id in after.world.rows;
    if k == n - 1 {
      RegisterRaises(c, before, id, sess);
    } else {
      RegistersOnce(c, s, es, k, n - 1, id, sess);
      match es[n - 1] {
        case HubMove(m) =>
          SameHolderNoReport(before.hub, m, id, sess);
          HubMoveKeepsFlag(c, before, m, id);
        case BoxEvent(e) => BoxEventFlag(c, before.world, e, id);
      }
      FlagFollowsSession(c, s, es, k, n - 1, id, sess);
      assert Undisturbed(c, s, es, k, n, id)
        <==> Undisturbed(c, s, es, k, n - 1, id) && Stored(c, s, es, n, id) && Spared(c, s, es, n - 1, id);
    }
  }

  lemma RegisterRaises(c: L.Config, s: State, id: L.Id, sess: H.Sess)
    requires H.InStage(s.hub, sess, H.Dialed) && s.hub.loops[sess].ws == id && H.Takes(s.hub, sess)
    ensures var rows' := Step(c, s, HubMove(H.Register(sess))).world.rows;
            Flagged(rows', id) <==> id in rows'
  {
    SinkReport(c, s.world, id, true);
    assert Report(s.hub, H.Register(sess)) == Some(L.Agent(id, true));
    hide L.Step;
  }

  /** One box alone in the store, through a box event that keeps it. */
  lemma AloneNext(c: L.Config, w: L.World, e: L.Event, id: L.Id, b: Box, b': Box)
    requires w.rows == map[id := b] && L.RowNext(c, w.rows, e, id) == Some(b')
    requires !e.act.Attach? && !e.act.CreateWorkspace?
    ensures L.Step(c, w, e).rows == map[id := b']
  {
    hide L.RowNext;
  }

  lemma FirstBox(c: L.Config, w: L.World, e: L.Event)
    requires w.rows == map[] && e.act.CreateWorkspace? && e.act.name != "" && e.act.image != ""
    ensures var act := e.act;
            L.Step(c, w, e).rows
            == map[act.newId := NewBox(BoxSpec(act.tenant, act.owner, act.name, act.image, "", false, 0, 0, e.now))]
  {
  }

  /** A workspace is created, provisioned, its agent connects, it is told to suspend when idle, and does. */
  function SuspendingRun(c: L.Config, a: L.Answers, ip: string): seq<Event> {
    var tick := L.Tick("1", a);
    [BoxEvent(L.Event(0, L.CreateWorkspace("1", c.tenant, "owner", "name", "image"))),
     BoxEvent(L.Event(0, tick)), HubMove(H.Dial(0, "1")), HubMove(H.Register(0)), BoxEvent(L.Event(0, tick)),
     BoxEvent(L.Event(0, L.Meta("1", ip, L.AutoSuspend(true)))), BoxEvent(L.Event(c.idle.timeout, tick))]
  }

  lemma AtNext(c: L.Config, s: State, es: seq<Event>, n: nat)
    requires n < |es|
    ensures At(c, s, es, n + 1) == Step(c, At(c, s, es, n), es[n])
  {
  }

  lemma StartsEmpty(c: L.Config, s: State, es: seq<Event>)
    ensures At(c, s, es, 0) == s
  {
  }

  /** The first four events: the agent of the provisioned box holds its slot, and the row is flagged. */
  lemma AgentIn(c: L.Config, a: L.Answers, ref: L.Ref, ip: string)
    requires a.hookOk && a.provision == L.ProvisionOk(ref, ip)
    ensures var s := At(c, State(L.INIT, H.START), SuspendingRun(c, a, ip), 4);
            var b := NewBox(BoxSpec(c.tenant, "owner", "name", "image", "", false, 0, 0, 0));
            && s.hub == H.State(map["1" := 0], {}, map[0 := H.Loop("1", H.Serving)])
            && s.world.rows == map["1" := b.(instanceRef := ref, ip := ip, phase := Provisioning,
                                             agentConnected := true)]
  {
    hide L.Step, At, H.Step;
    var es, s0 := SuspendingRun(c, a, ip), State(L.INIT, H.START);
    var s1, s2, s3 := At(c, s0, es, 1), At(c, s0, es, 2), At(c, s0, es, 3);
    StartsEmpty(c, s0, es);
    AtNext(c, s0, es, 0);
    AtNext(c, s0, es, 1);
    AtNext(c, s0, es, 2);
    AtNext(c, s0, es, 3);
    var b1 := NewBox(BoxSpec(c.tenant, "owner", "name", "image", "", false, 0, 0, 0));
    var b2 := b1.(instanceRef := ref, ip := ip, phase := Provisioning);
    FirstBox(c, s0.world, es[0].e);
    AloneNext(c, s1.world, es[1].e, "1", b1, b2);
    DialAndRegister();
    AloneNext(c, s3.world, L.Event(0, L.Agent("1", true)), "1", b2, b2.(agentConnected := true));
  }

  lemma DialAndRegister()
    ensures var h := H.Step(H.START, H.Dial(0, "1"));
            && Report(H.START, H.Dial(0, "1")) == None && Report(h, H.Register(0)) == Some(L.Agent("1", true))
            && H.Step(h, H.Register(0)) == H.State(map["1" := 0], {}, map[0 := H.Loop("1", H.Serving)])
  {
  }

  /** The converse of FlagImpliesSession fails on a run of an empty daemon: the suspend lowers the flag while the
      hub still holds the open session. */
  lemma SessionWithoutFlag(c: L.Config, a: L.Answers, ref: L.Ref, ip: string)
    requires c.suspender && c.idle.loadThreshold > 0.0
    requires a.hookOk && a.provision == L.ProvisionOk(ref, ip) && a.suspendOk && ip != ""
    ensures var es := SuspendingRun(c, a, ip);
            var s := At(c, State(L.INIT, H.START), es, |es|);
            && OneLife(es) && H.Holds(s.hub.sessions, s.hub.closed, "1")
            && "1" in s.world.rows && s.world.rows["1"].phase == Suspended && !s.world.rows["1"].agentConnected
  {
    hide L.Step, At, H.Step;
    var es, s0 := SuspendingRun(c, a, ip), State(L.INIT, H.START);
    var s4, s5, s6 := At(c, s0, es, 4), At(c, s0, es, 5), At(c, s0, es, 6);
    AgentIn(c, a, ref, ip);
    AtNext(c, s0, es, 4);
    AtNext(c, s0, es, 5);
    AtNext(c, s0, es, 6);
    var b4 := s4.world.rows["1"];
    var b5 := b4.(phase := Running, lastActive := Some(0));
    var b6 := b5.(autoSuspend := true);
    AloneNext(c, s4.world, es[4].e, "1", b4, b5);
    AloneNext(c, s5.world, es[5].e, "1", b5, b6);
    AloneNext(c, s6.world, es[6].e, "1", b6, L.SuspendedRow(b6));
  }

  /** A run where a restart loses the agreement: the agent's row stays flagged, and the new daemon's hub is empty. */
  lemma RestartLosesAgreement(c: L.Config, a: L.Answers, ref: L.Ref, ip: string, kept: set<L.Ref>)
    requires a.hookOk && a.provision == L.ProvisionOk(ref, ip)
    ensures var s := At(c, State(L.INIT, H.START), SuspendingRun(c, a, ip), 4);
            Agree(s.world.rows, s.hub) && !Agree(L.Step(c, s.world, L.Event(0, L.Restart(kept))).rows, H.START)
  {
    hide At, L.Step;
    AgentIn(c, a, ref, ip);
    var s := At(c, State(L.INIT, H.START), SuspendingRun(c, a, ip), 4);
    RestartAgreesIff(c, s.world, kept);
    assert "1" in s.world.rows && s.world.rows["1"].agentConnected;
  }
}
