/** What one tick does to one box, stated on the row, the clock and the answers alone: a second account of
    the reconciler (internal/core/box/reconcile.go, lifetime.go, idle.go) that names none of the functions
    the first one is made of. */
module Decisions {
  import opened Common
  import opened Phases
  import opened Boxes
  import opened Usernames
  import opened Lifecycle
  import opened Stores
  import opened Reconcilers
  import Safety

  // ---- when a tick does what ----

  /** An ephemeral box that is past its cap, or detached with no grace left. */
  predicate Expires(b: Box, now: int) {
    && b.spec.ephemeral
    && (|| (b.spec.maxTTL > 0 && now >= b.spec.createdAt + b.spec.maxTTL)
        || (!b.attached && (b.spec.grace <= 0 || (b.deadline.Some? && b.deadline.value <= now))))
  }

  /** A persistent box that asked for it, has been quiet for its timeout, and is pinned by nobody. */
  predicate Dozes(c: Config, b: Box, now: int) {
    && !b.spec.ephemeral && b.autoSuspend && b.agentConnected && c.suspender && !b.attached
    && (b.keepAliveUntil == None || b.keepAliveUntil.value < now)
    && b.load < c.idle.loadThreshold
    && b.lastActive.Some? && b.lastActive.value + (if b.idleOverride > 0 then b.idleOverride else c.idle.timeout) <= now
  }

  /** A Running box the tick goes on with after lifetime and suspension. */
  predicate GoesOn(c: Config, b: Box, now: int) {
    b.phase == Running && !Expires(b, now) && !Dozes(c, b, now) && (b.spec.ephemeral ==> b.attached)
  }

  predicate Builds(c: Config, b: Box, now: int, a: Answers) {
    || b.phase == Pending
    || (b.phase == Suspended && b.attached && !c.suspender)
    || (GoesOn(c, b, now) && !b.agentConnected && (b.instanceRef == "" || a.status == Dead))
  }

  predicate Built(c: Config, a: Answers) {
    (c.hooks ==> a.hookOk) && a.provision.ProvisionOk?
  }

  predicate Tears(b: Box) {
    b.phase == Destroying || (b.spec.ephemeral && (b.phase == Failed || b.phase == Stopped))
  }

  predicate Starts(c: Config, b: Box, a: Answers) {
    || (b.phase == Provisioning && b.agentConnected)
    || (b.phase == Suspended && b.attached && c.suspender && a.resumeOk)
  }

  predicate FailsWaiting(b: Box, a: Answers) {
    b.phase == Provisioning && !b.agentConnected && b.instanceRef != "" && a.status == Dead
  }

  /** What a tick asks of the host layer and of compute, for every phase. */
  lemma TickAsks(c: Config, b: Box, now: int, a: Answers)
    ensures var ask := Next(c, b, now, a).ask;
            && (ask.Make? <==> Builds(c, b, now, a))
            && (ask.Make? ==> ask.provision == (c.hooks ==> a.hookOk))
            && (ask.Make? ==> ask.afterCheck == (b.phase == Running && b.instanceRef != ""))
            && (ask == Snapshot <==> b.phase == Running && Dozes(c, b, now))
            && (ask == Wake <==> b.phase == Suspended && b.attached && c.suspender)
            && (ask == Serve <==> GoesOn(c, b, now) && b.agentConnected)
            && (ask.Teardown? <==> Tears(b))
            && (ask.Teardown? ==> ask.destroy == (b.instanceRef != ""))
            && (ask == Check <==>
                  && !b.agentConnected && b.instanceRef != ""
                  && (b.phase == Provisioning || (GoesOn(c, b, now) && a.status != Dead)))
  {
  }

  /** When a tick deletes the row, and the phase it leaves otherwise. */
  lemma TickPhase(c: Config, b: Box, now: int, a: Answers)
    ensures var row := Next(c, b, now, a).row;
            && (row == None <==> Tears(b) && (b.instanceRef == "" || a.destroy == DestroyOk))
            && (row.Some? ==>
                  row.value.phase ==
                    if Builds(c, b, now, a) then (if Built(c, a) then Provisioning else Failed)
                    else if Starts(c, b, a) then Running
                    else if FailsWaiting(b, a) then Failed
                    else if b.phase == Running && Expires(b, now) then Destroying
                    else if b.phase == Running && Dozes(c, b, now) && a.suspendOk then Suspended
                    else b.phase)
  {
  }

  /** A tick keeps whatever the owner and the agent set. */
  lemma TickSettings(c: Config, b: Box, now: int, a: Answers)
    requires Next(c, b, now, a).row.Some?
    ensures var r := Next(c, b, now, a).row.value;
            && r.spec == b.spec && r.attached == b.attached && r.autoSuspend == b.autoSuspend
            && r.keepAliveUntil == b.keepAliveUntil && r.idleOverride == b.idleOverride && r.load == b.load
  {
    match b.phase {
      case Running => if b.spec.ephemeral {} else {}
      case _ =>
    }
  }

  /** The instance and the agent of the row a tick leaves. */
  lemma TickInstance(c: Config, b: Box, now: int, a: Answers)
    requires Next(c, b, now, a).row.Some?
    ensures var r := Next(c, b, now, a).row.value;
            var built := Builds(c, b, now, a) && Built(c, a);
            && r.instanceRef == (if built then a.provision.ref else b.instanceRef)
            && r.ip == (if built then a.provision.ip else b.ip)
            && r.agentConnected == (b.agentConnected && !built && !(b.phase == Running && r.phase == Suspended))
  {
    match b.phase {
      case Running => if b.spec.ephemeral { if Expires(b, now) {} } else if Dozes(c, b, now) {} else {}
      case _ =>
    }
  }

  /** The deadline and the activity mark of the row a tick leaves. */
  lemma TickClocks(c: Config, b: Box, now: int, a: Answers)
    requires Next(c, b, now, a).row.Some?
    ensures var r := Next(c, b, now, a).row.value;
            && r.deadline == (if b.phase != Running || !b.spec.ephemeral || Expires(b, now) then b.deadline
                              else if b.attached then None
                              else if b.deadline == None then Some(now + b.spec.grace)
                              else b.deadline)
            && r.lastActive == (if Starts(c, b, a) && b.lastActive == None then Some(now) else b.lastActive)
  {
    match b.phase {
      case Running => if b.spec.ephemeral { if Expires(b, now) {} } else if Dozes(c, b, now) {} else {}
      case _ =>
    }
  }

  // ---- one tick on the whole world ----

  /** A tick touches no other row. */
  lemma TickOthers(c: Config, s: World, id: Id, now: int, a: Answers, other: Id)
    requires other != id || id !in s.rows
    ensures var s' := Step(c, s, Event(now, Tick(id, a)));
            && (other in s'.rows <==> other in s.rows)
            && (other in s.rows ==> s'.rows[other] == s.rows[other])
            && (id !in s.rows ==> s'.insts == s.insts)
  {
    hide Next;
  }

  /** The row of the tick. */
  lemma TickOwn(c: Config, s: World, id: Id, now: int, a: Answers)
    requires id in s.rows
    ensures var s' := Step(c, s, Event(now, Tick(id, a)));
            var row := Next(c, s.rows[id], now, a).row;
            (id in s'.rows <==> row.Some?) && (row.Some? ==> s'.rows[id] == row.value)
  {
    hide Next;
  }

  /** The instances compute holds after the tick. */
  lemma TickInstances(c: Config, s: World, id: Id, now: int, a: Answers, r: Ref)
    requires id in s.rows
    ensures var b, insts' := s.rows[id], Step(c, s, Event(now, Tick(id, a))).insts;
            var asked := Builds(c, b, now, a) && (c.hooks ==> a.hookOk);
            && (r in insts' <==>
                  if asked then
                    match a.provision
                    case ProvisionErr(keepsOld) => r in s.insts && (keepsOld || s.insts[r] != id)
                    case ProvisionOk(ref, _) => r == ref || (r in s.insts && s.insts[r] != id)
                    case ProvisionLeft(ref) => r == ref || (r in s.insts && s.insts[r] != id)
                  else
                    r in s.insts
                    && !(Tears(b) && b.instanceRef != "" && r == b.instanceRef && a.destroy != DestroyErr(false)))
            && (r in insts' ==>
                  insts'[r] == if asked && !a.provision.ProvisionErr? && r == a.provision.ref then id
                               else if r in s.insts then s.insts[r] else id)
  {
    TickAsks(c, s.rows[id], now, a);
    hide Next, Builds, Tears, GoesOn, Dozes;
  }

  /** A Running box whose agent is gone is rebuilt exactly when it has no instance or compute says that is dead; an
      attached ephemeral box is healed like a persistent one, within its cap. */
  lemma HealedIff(c: Config, b: Box, now: int, a: Answers)
    requires b.phase == Running && (b.spec.ephemeral ==> b.attached && !Expires(b, now))
    ensures Next(c, b, now, a).ask.Make? <==> !b.agentConnected && (b.instanceRef == "" || a.status == Dead)
  {
    TickAsks(c, b, now, a);
    hide Next;
  }

  /** An instance compute cannot tell about, or that is alive, is left alone: the world stays as it was, but for the
      deadline of an ephemeral box whose owner is back. */
  lemma UnsureChangesNothing(c: Config, s: World, id: Id, now: int, a: Answers)
    requires id in s.rows && s.rows[id].phase == Running && !s.rows[id].agentConnected
    requires s.rows[id].spec.ephemeral ==> s.rows[id].attached && !Expires(s.rows[id], now)
    requires s.rows[id].instanceRef != "" && (a.status == StatusErr || a.status == Alive)
    ensures var s' := Step(c, s, Event(now, Tick(id, a)));
            && s'.insts == s.insts && s'.rows.Keys == s.rows.Keys
            && s'.rows[id] == (if s.rows[id].spec.ephemeral then s.rows[id].(deadline := None) else s.rows[id])
            && forall i :: i in s.rows && i != id ==> s'.rows[i] == s.rows[i]
  {
    var b := s.rows[id];
    TickAsks(c, b, now, a);
    TickPhase(c, b, now, a);
    TickOwn(c, s, id, now, a);
    TickSettings(c, b, now, a);
    TickInstance(c, b, now, a);
    TickClocks(c, b, now, a);
    hide Next, RowsNext;
    forall i ensures (i in Step(c, s, Event(now, Tick(id, a))).rows <==> i in s.rows)
                     && (i in s.rows && i != id ==> Step(c, s, Event(now, Tick(id, a))).rows[i] == s.rows[i])
    {
      if i != id {
        TickOthers(c, s, id, now, a, i);
      }
    }
  }

  // ---- every other step ----

  /** What a step that is no tick makes of the identity, instance and phase of an existing row. */
  lemma OutsidePhase(c: Config, rows: Rows, e: Event, id: Id)
    requires id in rows && !e.act.Tick?
    ensures RowNext(c, rows, e, id).Some?
    ensures var b, r := rows[id], RowNext(c, rows, e, id).value;
            var asleep := e.act.Drain? && id in e.act.ok && c.suspender && b.spec.tenant == c.tenant
                          && !b.spec.ephemeral && b.phase == Running;
            && r.spec == b.spec && r.instanceRef == b.instanceRef && r.ip == b.ip && r.deadline == b.deadline
            && r.phase == (if e.act == DestroyBox(id) then Destroying else if asleep then Suspended else b.phase)
            && r.agentConnected == (if e.act == Agent(id, true) then true
                                    else if e.act == Agent(id, false) || asleep then false
                                    else b.agentConnected)
  {
    hide AttachOf;
    match e.act {
      case Meta(_, _, cmd) => match cmd { case Heartbeat(_) => case _ => }
      case _ =>
    }
  }

  /** The step is a command of the box at its own address. */
  predicate Commands(e: Event, id: Id, b: Box) {
    e.act.Meta? && e.act.id == id && e.act.ip == b.ip && b.ip != ""
  }

  /** What it makes of what its owner and its agent set. */
  lemma OutsideSettings(c: Config, rows: Rows, e: Event, id: Id)
    requires id in rows && !e.act.Tick? && RowNext(c, rows, e, id).Some?
    ensures var b, r := rows[id], RowNext(c, rows, e, id).value;
            var mine := Commands(e, id, b);
            && r.load == (if mine && e.act.cmd.Heartbeat? then e.act.cmd.load else b.load)
            && r.keepAliveUntil ==
                 (if mine && e.act.cmd.KeepAlive? then Some(e.now + e.act.cmd.d) else b.keepAliveUntil)
            && r.autoSuspend == (if mine && e.act.cmd.AutoSuspend? then e.act.cmd.enabled else b.autoSuspend)
            && r.idleOverride == (if mine && e.act.cmd.Idle? then e.act.cmd.timeout else b.idleOverride)
            && r.lastActive ==
                 if e.act == Release(id)
                    || (mine && e.act.cmd.Heartbeat? && (b.attached || e.act.cmd.load >= c.idle.loadThreshold))
                 then Some(e.now) else b.lastActive
  {
    hide AttachOf;
    match e.act {
      case Meta(_, _, cmd) => match cmd { case Heartbeat(_) => case _ => }
      case _ =>
    }
  }

  /** And of the instances compute holds: only a restart can lose some. */
  lemma OutsideInstances(c: Config, s: World, e: Event, r: Ref)
    requires !e.act.Tick?
    ensures var insts' := Step(c, s, e).insts;
            && (r in insts' <==> r in s.insts && (e.act.Restart? ==> r in e.act.kept))
            && (r in insts' ==> insts'[r] == s.insts[r])
  {
    hide RowsNext;
  }

  // ---- the calls of a tick ----

  /** Which calls a tick makes on an existing row, each at most once: compute is always asked about the row's own
      instance. */
  lemma TickCalls(c: Config, rows: Rows, e: Event, call: Call)
    requires e.act.Tick? && e.act.id in rows
    ensures var b, calls := rows[e.act.id], StepCalls(c, rows, e);
            var builds, goesOn := Builds(c, b, e.now, e.act.a), GoesOn(c, b, e.now);
            && (call in calls <==>
                  match call
                  case PreProvision => c.hooks && builds
                  case Provision => builds && (c.hooks ==> e.act.a.hookOk)
                  case PostRunning => c.hooks && goesOn && b.agentConnected
                  case PreDestroy => c.hooks && Tears(b)
                  case Destroy(ref) => Tears(b) && ref == b.instanceRef && ref != ""
                  case Suspend(ref) => b.phase == Running && Dozes(c, b, e.now) && ref == b.instanceRef
                  case Resume(ref) => b.phase == Suspended && b.attached && c.suspender && ref == b.instanceRef
                  case Status(ref) =>
                    && ref == b.instanceRef && ref != "" && !b.agentConnected
                    && (b.phase == Provisioning || goesOn))
            && (forall i, j :: 0 <= i < j < |calls| ==> calls[i] != calls[j])
  {
    var b := rows[e.act.id];
    TickAsks(c, b, e.now, e.act.a);
    hide Next, Dozes, Expires;
    match Next(c, b, e.now, e.act.a).ask {
      case Make(afterCheck, provision) =>
      case _ =>
    }
  }

  /** Their order: compute is asked before it is changed, and the hook runs right before the call it prepares. */
  lemma TickCallOrder(c: Config, rows: Rows, e: Event, i: nat)
    requires i < |StepCalls(c, rows, e)|
    ensures var calls := StepCalls(c, rows, e);
            && (calls[i].Status? ==> i == 0)
            && (calls[i].Provision? || calls[i].Destroy? ==> i == |calls| - 1)
            && (calls[i].Provision? && c.hooks ==> i > 0 && calls[i - 1] == PreProvision)
            && (calls[i].Destroy? && c.hooks ==> i > 0 && calls[i - 1] == PreDestroy)
  {
    hide Next;
  }

  // ---- what a creation makes ----

  /** The backend a box is created on. */
  predicate Chooses(c: Config, requested: string, backend: string) {
    && backend in c.backends
    && if requested != "" then backend == requested
       else if |c.backends| == 1 then backend == c.backends[0]
       else backend == c.defBackend && backend != ""
  }

  /** Attach, as a caller sees it: it refuses a username that does not parse, a special one, a new name no backend
      can take or whose candidate id is in use; it reuses the caller's box of that name; else it creates one. */
  lemma AttachIff(c: Config, rows: Rows, owner: string, username: string, newId: Id, now: int, id: Id)
    requires Unique(rows)
    ensures var r := AttachOf(c, rows, owner, username, newId, now);
            match ParseSpec(username, c.durations)
            case Err => r == Refused
            case Ok(s) =>
              var mine := exists i :: i in rows && Named(rows[i], c.tenant, owner, s.name);
              && (s.special != "" ==> r == Refused)
              && (s.special == "" ==>
                    && (r == Reused(id) <==> id in rows && Named(rows[id], c.tenant, owner, s.name))
                    && (r.Created? <==> !mine && newId !in rows && exists backend :: Chooses(c, s.backend, backend))
                    && (r.Reused? <==> mine))
  {
    hide ParseSpec;
    var p := ParseSpec(username, c.durations);
    if p.Ok? && p.value.special == "" {
      BuildsIff(c, owner, p.value, now);
      hide Build, Chooses;
    }
  }

  lemma BuildsIff(c: Config, owner: string, s: Spec, now: int)
    ensures Build(c, owner, s, now).Ok? <==> exists backend :: Chooses(c, s.backend, backend)
  {
    if Build(c, owner, s, now).Ok? {
      assert Chooses(c, s.backend, Build(c, owner, s, now).value.spec.backend);
    }
  }

  /** The row Attach creates: an identified owner gets a persistent, auto-suspending box, anyone else an ephemeral
      one; what the username leaves out takes the daemon's default. */
  lemma CreatedRow(c: Config, rows: Rows, owner: string, username: string, newId: Id, now: int)
    requires AttachOf(c, rows, owner, username, newId, now).Created?
    ensures var r := AttachOf(c, rows, owner, username, newId, now);
            var s, b := ParseSpec(username, c.durations).value, r.row;
            && ParseSpec(username, c.durations).Ok? && r.id == newId
            && b.spec.tenant == c.tenant && b.spec.owner == owner && b.spec.name == s.name
            && b.spec.ephemeral == !c.persistent(owner) && b.autoSuspend == c.persistent(owner)
            && b.spec.image == (if s.image != "" then s.image else c.defaultImage)
            && b.spec.grace == (if s.grace == 0 && !c.persistent(owner) then c.defaultGrace else s.grace)
            && Chooses(c, s.backend, b.spec.backend)
            && b.spec.maxTTL == 0 && b.spec.createdAt == now
            && b.phase == Pending && b.attached && !b.agentConnected && b.instanceRef == "" && b.ip == ""
            && b.deadline == None && b.keepAliveUntil == None && b.lastActive == None
            && b.idleOverride == 0 && b.load == 0.0
  {
    hide ParseSpec;
  }

  /** The row an Attach step adds is that one, and it adds no other. */
  lemma AttachBorn(c: Config, rows: Rows, owner: string, username: string, newId: Id, now: int)
    ensures var r := AttachOf(c, rows, owner, username, newId, now);
            Born(c, rows, Event(now, Attach(owner, username, newId)))
            == if r.Created? then Some((newId, r.row)) else None
  {
    hide ParseSpec, Build;
  }

  /** An existing row is attached by an Attach of its owner and name, and detached by its release or a restart. */
  lemma OutsideAttached(c: Config, rows: Rows, e: Event, id: Id)
    requires id in rows && !e.act.Tick? && RowNext(c, rows, e, id).Some? && Unique(rows)
    ensures var b, r := rows[id], RowNext(c, rows, e, id).value;
            r.attached ==
              if e.act == Release(id) || (e.act.Restart? && b.spec.tenant == c.tenant) then false
              else if e.act.Attach? && b.spec.tenant == c.tenant && b.spec.owner == e.act.owner then
                var p := ParseSpec(e.act.username, c.durations);
                b.attached || (p.Ok? && p.value.special == "" && p.value.name == b.spec.name)
              else b.attached
  {
    hide AttachOf, ParseSpec;
    match e.act {
      case Attach(owner, username, newId) => AttachIff(c, rows, owner, username, newId, e.now, id);
      case Meta(_, _, cmd) => match cmd { case Heartbeat(_) => case _ => }
      case _ =>
    }
  }

  /** CreateWorkspace adds a row exactly when it has a name, an image, a free id and a free name; the row is
      persistent, does not auto-suspend, and is attached by nobody. */
  lemma WorkspaceBorn(c: Config, rows: Rows, e: Event)
    requires e.act.CreateWorkspace?
    ensures var act, r := e.act, Born(c, rows, e);
            && (r.Some? <==> act.name != "" && act.image != "" && act.newId !in rows
                             && forall i :: i in rows ==> !Named(rows[i], act.tenant, act.owner, act.name))
            && (r.Some? ==>
                  var b := r.value.1;
                  && r.value.0 == act.newId && b.spec.tenant == act.tenant && b.spec.owner == act.owner
                  && b.spec.name == act.name && b.spec.image == act.image && b.spec.backend == ""
                  && !b.spec.ephemeral && !b.autoSuspend && !b.attached && !b.agentConnected
                  && b.spec.grace == 0 && b.spec.maxTTL == 0 && b.spec.createdAt == e.now
                  && b.phase == Pending && b.instanceRef == "" && b.ip == "" && b.deadline == None
                  && b.keepAliveUntil == None && b.lastActive == None && b.idleOverride == 0 && b.load == 0.0)
  {
  }

  /** No other step adds a row. */
  lemma OnlyCreationsAdd(c: Config, rows: Rows, e: Event)
    requires !e.act.Attach? && !e.act.CreateWorkspace?
    ensures Born(c, rows, e) == None
  {
  }
}
