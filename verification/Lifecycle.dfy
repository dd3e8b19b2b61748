/** What one step of the control plane does to the stored rows and to the
    instances compute holds: the reconciler (internal/core/box/reconcile.go), the
    engine (engine.go), the metadata commands (boxmeta.go), the agent sink, the
    drain and the restart (cmd/boxd/main.go). Every step is one atomic
    read-modify-write of the store. The classes Store, Engine and Reconciler
    refine these functions. */
module Lifecycle {
  import opened Common
  import opened Phases
  import opened Boxes
  import opened Usernames

  type Id = string
  type Ref = string
  type Rows = map<Id, Box>
  type Insts = map<Ref, Id>

  datatype Config = Config(
    tenant: string, defaultImage: string, backends: seq<string>, defBackend: string,
    persistent: string -> bool, defaultGrace: int, durations: DurationReader,
    idle: IdleConfig, suspender: bool, hooks: bool)

  // ---- compute, as an oracle ----

  datatype ProvisionAnswer =
    | ProvisionOk(ref: Ref, ip: string)
    | ProvisionErr(keepsOld: bool)
    | ProvisionLeft(ref: Ref)          // failed, and left the instance it had created behind
  datatype StatusAnswer = StatusErr | Alive | Dead
  datatype DestroyAnswer = DestroyOk | DestroyErr(removed: bool)

  /** What the host layer and compute answer, should this tick ask them. */
  datatype Answers = Answers(hookOk: bool, provision: ProvisionAnswer, status: StatusAnswer,
                             suspendOk: bool, resumeOk: bool, destroy: DestroyAnswer)

  /** What one tick asks of the host layer and of compute. */
  datatype Ask =
    | Nothing
    | Check                                        // Status
    | Make(afterCheck: bool, provision: bool)      // [Status,] [PreProvision,] Provision unless the hook failed
    | Snapshot                                     // Suspend
    | Wake                                         // Resume
    | Serve                                        // PostRunning
    | Teardown(destroy: bool)                      // [PreDestroy,] Destroy unless there is no instance

  // ---- the reconciler, one box at a time ----

  /** The row a tick leaves (None: deleted) and what it asked. */
  datatype Outcome = Outcome(row: Option<Box>, ask: Ask)

  function Keep(b: Box): Outcome {
    Outcome(Some(b), Nothing)
  }

  function ProvisionedRow(c: Config, b: Box, a: Answers): Box {
    if (c.hooks && !a.hookOk) || !a.provision.ProvisionOk? then b.(phase := Failed)
    else b.(instanceRef := a.provision.ref, ip := a.provision.ip, agentConnected := false, phase := Provisioning)
  }

  function Provisioned(c: Config, b: Box, a: Answers, afterCheck: bool): Outcome {
    Outcome(Some(ProvisionedRow(c, b, a)), Make(afterCheck, !c.hooks || a.hookOk))
  }

  function Started(b: Box, now: int): Box {
    b.(phase := Running, lastActive := if b.lastActive.None? then Some(now) else b.lastActive)
  }

  predicate ShouldSuspend(c: Config, b: Box, now: int) {
    && !b.spec.ephemeral && b.autoSuspend && b.agentConnected && c.suspender
    && (b.keepAliveUntil.Some? ==> now > b.keepAliveUntil.value)
    && IsIdle(b, now, EffectiveIdle(b, c.idle))
  }

  function SuspendedRow(b: Box): Box {
    b.(phase := Suspended, agentConnected := false)
  }

  /** A Running box whose agent is gone: rebuilt when compute says the instance is dead. */
  function Healed(c: Config, b: Box, a: Answers): Outcome {
    if b.instanceRef == "" then Provisioned(c, b, a, false)
    else if a.status == Dead then Provisioned(c, b, a, true)
    else Outcome(Some(b), Check)
  }

  function Served(c: Config, b: Box, a: Answers): Outcome {
    if b.agentConnected then Outcome(Some(b), Serve) else Healed(c, b, a)
  }

  function WithDeadline(b: Box, act: ReapAction): Box {
    match act
    case SetDeadline(at) => b.(deadline := Some(at))
    case ClearDeadline => b.(deadline := None)
    case _ => b
  }

  function Destroyed(b: Box, a: Answers): Outcome {
    Outcome(if b.instanceRef == "" || a.destroy.DestroyOk? then None else Some(b), Teardown(b.instanceRef != ""))
  }

  /** ReconcileOne on an existing row. */
  function Next(c: Config, b: Box, now: int, a: Answers): Outcome {
    match b.phase
    case Pending => Provisioned(c, b, a, false)
    case Provisioning =>
      if b.agentConnected then Keep(Started(b, now))
      else if b.instanceRef == "" then Keep(b)
      else Outcome(Some(if a.status == Dead then b.(phase := Failed) else b), Check)
    case Running =>
      if b.spec.ephemeral then
        var act := EvalLifetime(b, now);
        if act.Reap? then Keep(b.(phase := Destroying))
        else if !b.attached then Keep(WithDeadline(b, act))
        else Served(c, WithDeadline(b, act), a)
      else if ShouldSuspend(c, b, now) then
        Outcome(Some(if a.suspendOk then SuspendedRow(b) else b), Snapshot)
      else Served(c, b, a)
    case Suspended =>
      if !b.attached then Keep(b)
      else if !c.suspender then Provisioned(c, b, a, false)
      else Outcome(Some(if a.resumeOk then Started(b, now) else b), Wake)
    case Destroying => Destroyed(b, a)
    case Failed => if b.spec.ephemeral then Destroyed(b, a) else Keep(b)
    case Stopped => if b.spec.ephemeral then Destroyed(b, a) else Keep(b)
  }

  // ---- the instances compute holds ----

  function Without(insts: Insts, id: Id): Insts {
    map r | r in insts && insts[r] != id :: insts[r]
  }

  /** A successful Provision replaces the workspace's instance; a failed one adds none, or leaves what it created. */
  function AfterProvision(insts: Insts, id: Id, p: ProvisionAnswer): Insts {
    match p
    case ProvisionOk(ref, _) => Without(insts, id)[ref := id]
    case ProvisionErr(keepsOld) => if keepsOld then insts else Without(insts, id)
    case ProvisionLeft(ref) => Without(insts, id)[ref := id]
  }

  function AfterDestroy(insts: Insts, ref: Ref, d: DestroyAnswer): Insts {
    if d == DestroyErr(false) then insts else insts - {ref}
  }

  function Effect(insts: Insts, id: Id, ref: Ref, ask: Ask, a: Answers): Insts {
    match ask
    case Make(_, true) => AfterProvision(insts, id, a.provision)
    case Teardown(true) => AfterDestroy(insts, ref, a.destroy)
    case _ => insts
  }

  /** A provider names a new instance with a non-empty ref that no other workspace holds. */
  predicate FreshRef(insts: Insts, id: Id, a: Answers) {
    a.provision.ProvisionOk? ==>
      a.provision.ref != "" && (a.provision.ref in insts ==> insts[a.provision.ref] == id)
  }

  /** The port's contract: a failed Provision, moreover, leaves nothing behind. */
  predicate LawfulAnswers(insts: Insts, id: Id, a: Answers) {
    FreshRef(insts, id, a) && !a.provision.ProvisionLeft?
  }

  // ---- the engine ----

  function ResolveBackend(requested: string, available: seq<string>, def: string): Result<string> {
    if available == [] then Err
    else if requested != "" then (if requested in available then Ok(requested) else Err)
    else if |available| == 1 then Ok(available[0])
    else if def != "" && def in available then Ok(def)
    else Err
  }

  function Build(c: Config, owner: string, spec: Spec, now: int): Result<Box> {
    match ResolveBackend(spec.backend, c.backends, c.defBackend)
    case Err => Err
    case Ok(backend) =>
      var keep := c.persistent(owner);
      var image := if spec.image == "" then c.defaultImage else spec.image;
      var grace := if !keep && spec.grace == 0 then c.defaultGrace else spec.grace;
      Ok(NewBox(BoxSpec(c.tenant, owner, spec.name, image, backend, !keep, grace, 0, now)).(autoSuspend := keep))
  }

  predicate Named(b: Box, tenant: string, owner: string, name: string) {
    b.spec.tenant == tenant && b.spec.owner == owner && b.spec.name == name
  }

  ghost predicate Unique(rows: Rows) {
    forall i, j ::
      i in rows && j in rows && Named(rows[i], rows[j].spec.tenant, rows[j].spec.owner, rows[j].spec.name) ==>
        i == j
  }

  ghost function Lookup(rows: Rows, tenant: string, owner: string, name: string): (r: Option<Id>)
    ensures r.Some? ==> r.value in rows && Named(rows[r.value], tenant, owner, name)
    ensures r.None? ==> forall i :: i in rows ==> !Named(rows[i], tenant, owner, name)
  {
    if i :| i in rows && Named(rows[i], tenant, owner, name) then Some(i) else None
  }

  datatype AttachResult = Refused | Reused(id: Id) | Created(id: Id, row: Box)

  /** What Attach decides; a candidate id already in use fails the primary key. */
  ghost function AttachOf(c: Config, rows: Rows, owner: string, username: string, newId: Id, now: int): AttachResult {
    match ParseSpec(username, c.durations)
    case Err => Refused
    case Ok(spec) =>
      if spec.special != "" then Refused
      else match Lookup(rows, c.tenant, owner, spec.name)
        case Some(id) => Reused(id)
        case None =>
          match Build(c, owner, spec, now)
          case Err => Refused
          case Ok(b) => if newId in rows then Refused else Created(newId, b.(attached := true))
  }

  // ---- owner commands ----

  datatype Command = Heartbeat(load: real) | KeepAlive(d: int) | AutoSuspend(enabled: bool) | Idle(timeout: int)

  function Applied(c: Config, b: Box, cmd: Command, now: int): Box {
    match cmd
    case Heartbeat(load) => RecordHeartbeat(b, load, now, c.idle)
    case KeepAlive(d) => b.(keepAliveUntil := Some(now + d))
    case AutoSuspend(on) => b.(autoSuspend := on)
    case Idle(t) => b.(idleOverride := t)
  }

  // ---- steps and runs ----

  datatype Act =
    | Attach(owner: string, username: string, newId: Id)
    | CreateWorkspace(newId: Id, tenant: string, owner: string, name: string, image: string)
    | Release(id: Id)
    | DestroyBox(id: Id)
    | Agent(id: Id, connected: bool)
    | Meta(id: Id, ip: string, cmd: Command)
    | Tick(id: Id, a: Answers)
    | Drain(ok: set<Id>)
    | Restart(kept: set<Ref>)

  datatype Event = Event(now: int, act: Act)

  datatype World = World(rows: Rows, insts: Insts)

  const INIT := World(map[], map[])

  predicate Drained(c: Config, b: Box, id: Id, ok: set<Id>) {
    c.suspender && b.spec.tenant == c.tenant && !b.spec.ephemeral && b.phase == Running && id in ok
  }

  function DrainedRow(c: Config, b: Box, id: Id, ok: set<Id>): Box {
    if Drained(c, b, id, ok) then SuspendedRow(b) else b
  }

  function ResetRow(c: Config, b: Box): Box {
    if b.spec.tenant == c.tenant then b.(attached := false) else b
  }

  /** The row a metadata request from ip may reach. */
  predicate Reaches(b: Box, ip: string) {
    ip != "" && b.ip == ip
  }

  /** What a step makes of an existing row (None: deleted). */
  ghost function RowNext(c: Config, rows: Rows, e: Event, id: Id): Option<Box>
    requires id in rows
  {
    var b := rows[id];
    match e.act
    case Attach(owner, username, newId) =>
      if AttachOf(c, rows, owner, username, newId, e.now) == Reused(id) then Some(b.(attached := true)) else Some(b)
    case CreateWorkspace(_, _, _, _, _) => Some(b)
    case Release(i) => if i == id then Some(b.(attached := false, lastActive := Some(e.now))) else Some(b)
    case DestroyBox(i) => if i == id then Some(b.(phase := Destroying)) else Some(b)
    case Agent(i, connected) => if i == id then Some(b.(agentConnected := connected)) else Some(b)
    case Meta(i, ip, cmd) => if i == id && Reaches(b, ip) then Some(Applied(c, b, cmd, e.now)) else Some(b)
    case Tick(i, a) => if i == id then Next(c, b, e.now, a).row else Some(b)
    case Drain(ok) => Some(DrainedRow(c, b, id, ok))
    case Restart(_) => Some(ResetRow(c, b))
  }

  /** The row a step adds, if any. */
  ghost function Born(c: Config, rows: Rows, e: Event): (r: Option<(Id, Box)>)
    ensures r.Some? ==> r.value.0 !in rows
  {
    match e.act
    case Attach(owner, username, newId) =>
      (match AttachOf(c, rows, owner, username, newId, e.now)
       case Created(id, b) => Some((id, b))
       case _ => None)
    case CreateWorkspace(newId, tenant, owner, name, image) =>
      if name == "" || image == "" || newId in rows || Lookup(rows, tenant, owner, name).Some? then None
      else Some((newId, NewBox(BoxSpec(tenant, owner, name, image, "", false, 0, 0, e.now))))
    case _ => None
  }

  ghost function RowsNext(c: Config, rows: Rows, e: Event): Rows {
    var kept := map id | id in rows && RowNext(c, rows, e, id).Some? :: RowNext(c, rows, e, id).value;
    match Born(c, rows, e)
    case None => kept
    case Some((id, b)) => kept[id := b]
  }

  function InstsNext(c: Config, s: World, e: Event): Insts {
    match e.act
    case Tick(id, a) =>
      if id in s.rows then Effect(s.insts, id, s.rows[id].instanceRef, Next(c, s.rows[id], e.now, a).ask, a)
      else s.insts
    case Restart(kept) => map r | r in s.insts && r in kept :: s.insts[r]
    case _ => s.insts
  }

  ghost function Step(c: Config, s: World, e: Event): World {
    World(RowsNext(c, s.rows, e), InstsNext(c, s, e))
  }

  /** The world after the first n events of a run. */
  ghost function At(c: Config, s: World, es: seq<Event>, n: nat): World
    requires n <= |es|
  {
    if n == 0 then s else Step(c, At(c, s, es, n - 1), es[n - 1])
  }

  ghost predicate LawfulRun(c: Config, s: World, es: seq<Event>) {
    forall n :: 0 <= n < |es| && es[n].act.Tick? ==> LawfulAnswers(At(c, s, es, n).insts, es[n].act.id, es[n].act.a)
  }

  predicate Monotone(es: seq<Event>) {
    forall i, j :: 0 <= i < j < |es| ==> es[i].now <= es[j].now
  }

  predicate IsTick(e: Event, id: Id) {
    e.act.Tick? && e.act.id == id
  }

  predicate Creates(e: Event, id: Id) {
    (e.act.Attach? || e.act.CreateWorkspace?) && e.act.newId == id
  }

  /** Random ids: no two creations offer the same id, and none offers an id in use at the start. */
  ghost predicate FreshIds(s: World, es: seq<Event>) {
    && (forall i, id :: 0 <= i < |es| && Creates(es[i], id) ==> id !in s.rows)
    && (forall i, j, id :: 0 <= i < j < |es| && Creates(es[i], id) ==> !Creates(es[j], id))
  }
}
