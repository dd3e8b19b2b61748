/** The reconciler driving the microVM provider: rows and VMs agree in every state of
    one daemon life, and a graceful shutdown, a restart and an attach bring every
    persistent box back under its own instance, address and tap. */
module DrainRestart {
  import opened Common
  import opened Phases
  import opened Boxes
  import opened Usernames
  import opened Lifecycle
  import Safety
  import V = MicroVM
  import opened Addresses

  /** Stored rows, and the provider behind them. */
  datatype Daemon = Daemon(rows: Rows, vm: V.State)

  /** How the host behaves in one tick. */
  datatype Luck = Luck(hookOk: bool, boot: V.Boot, fcOk: bool, left: bool, removed: bool)

  datatype Event =
    | Outside(e: Lifecycle.Event)          // anything but a tick, a drain or a restart
    | TickBox(id: Id, now: int, luck: Luck)
    | VmExits(ref: Ref)

  function StatusOf(s: V.State, ref: Ref): StatusAnswer {
    if ref !in s.vms then Dead
    else if s.vms[ref].suspended then Alive
    else if s.vms[ref].exited then Dead
    else Alive
  }

  /** What the provider answers; it names instances by workspace id. Destroy of a VM reattached and not yet resumed
      dereferences a process handle it does not have, which ends the daemon; here it answers an error and the run
      goes on, so statements over runs cover more than the daemon can do. */
  ghost function AnswersOf(n: NetConfig, s: V.State, id: Id, ref: Ref, luck: Luck): Answers {
    var free := V.Alloc(s.used);
    Answers(luck.hookOk,
            if luck.boot == V.Boots && free.Some? then ProvisionOk(id, Ip(n, free.value)) else ProvisionErr(true),
            StatusOf(s, ref),
            V.SuspendOk(s, ref, luck.fcOk),
            V.ResumeOk(s, ref, luck.fcOk),
            if !V.CanDestroy(s, ref) then DestroyErr(false)
            else if ref !in s.vms || luck.removed then DestroyOk
            else DestroyErr(true))
  }

  /** A box the provider does not know, or whose running process has exited, is dead; any other is not. */
  lemma StatusIs(s: V.State, ref: Ref)
    ensures StatusOf(s, ref) == Dead <==> ref !in s.vms || (!s.vms[ref].suspended && s.vms[ref].exited)
    ensures StatusOf(s, ref) == Alive <==> ref in s.vms && (s.vms[ref].suspended || !s.vms[ref].exited)
  {
  }

  /** The other answers: a Provision names the instance by its workspace and succeeds when it boots and an octet of 2
      to 254 is free; Suspend and Resume repeat what is already so; Destroy reports a directory it cannot remove. */
  lemma AnswersAre(n: NetConfig, s: V.State, id: Id, ref: Ref, luck: Luck)
    ensures var a := AnswersOf(n, s, id, ref, luck);
            && a.hookOk == luck.hookOk && a.status == StatusOf(s, ref)
            && (a.provision.ProvisionOk? <==> luck.boot == V.Boots && exists o :: 2 <= o <= 254 && o !in s.used)
            && (a.provision.ProvisionOk? ==>
                  a.provision.ref == id
                  && exists o: nat ::
                       o !in s.used && 2 <= o <= 254 && (forall p :: 2 <= p < o ==> p in s.used)
                       && a.provision.ip == n.subnet24 + "." + Decimal(o))
            && (a.provision.ProvisionErr? || a.provision.ProvisionOk?)
            && (a.suspendOk <==> ref in s.vms && (s.vms[ref].suspended || luck.fcOk))
            && (a.resumeOk <==> ref in s.vms && (!s.vms[ref].suspended || luck.fcOk))
            && (a.destroy == DestroyOk <==> ref !in s.vms || (s.vms[ref].handle && luck.removed))
            && (a.destroy == DestroyErr(true) <==> ref in s.vms && s.vms[ref].handle && !luck.removed)
  {
    V.AllocFailsIffFull(s.used);
    hide Decimal;
  }

  ghost function VmAfter(n: NetConfig, s: V.State, id: Id, b: Box, ask: Ask, luck: Luck): V.State {
    match ask
    case Make(_, true) => V.Provisioned(n, s, id, b.spec.image, luck.boot)
    case Snapshot => V.Suspended(s, b.instanceRef, luck.fcOk, luck.left)
    case Wake => V.Resumed(s, b.instanceRef, luck.fcOk)
    case Teardown(true) => V.Destroyed(s, b.instanceRef, luck.removed)
    case _ => s
  }

  ghost function Ticked(c: Config, n: NetConfig, d: Daemon, id: Id, now: int, luck: Luck): Daemon {
    if id !in d.rows then d
    else
      var b := d.rows[id];
      var a := AnswersOf(n, d.vm, id, b.instanceRef, luck);
      Daemon(RowsNext(c, d.rows, Lifecycle.Event(now, Tick(id, a))),
             VmAfter(n, d.vm, id, b, Next(c, b, now, a).ask, luck))
  }

  ghost function Step(c: Config, n: NetConfig, d: Daemon, e: Event): Daemon {
    match e
    case Outside(be) => d.(rows := RowsNext(c, d.rows, be))
    case TickBox(id, now, luck) => Ticked(c, n, d, id, now, luck)
    case VmExits(ref) => d.(vm := V.Step(n, d.vm, V.Exit(ref)))
  }

  ghost function At(c: Config, n: NetConfig, d: Daemon, es: seq<Event>, k: nat): Daemon
    requires k <= |es|
  {
    if k == 0 then d else Step(c, n, At(c, n, d, es, k - 1), es[k - 1])
  }

  predicate OneLife(es: seq<Event>) {
    forall k :: 0 <= k < |es| && es[k].Outside? ==>
      var act := es[k].e.act;
      !act.Tick? && !act.Drain? && !act.Restart? && ((act.Attach? || act.CreateWorkspace?) ==> act.newId != "")
  }

  // ---- rows and VMs agree ----

  predicate Live(p: Phase) {
    p.Provisioning? || p.Running? || p.Suspended?
  }

  /** The run dir holds what a restart needs to bring v back. */
  predicate OnDisk(s: V.State, r: Ref)
    requires r in s.vms
  {
    r in s.disk && s.disk[r].record == Some(V.RecordOf(s.vms[r])) && (s.vms[r].suspended ==> s.disk[r].snapshot)
  }

  ghost predicate MatchedVm(rows: Rows, s: V.State, r: Ref)
    requires r in s.vms
  {
    && r in rows && rows[r].instanceRef == r && rows[r].ip == s.vms[r].ip && rows[r].spec.image == s.vms[r].image
    && (Live(rows[r].phase) ==> OnDisk(s, r))
  }

  ghost predicate Matched(d: Daemon) {
    && (forall id :: id in d.rows ==> id != "" && (d.rows[id].instanceRef == "" || d.rows[id].instanceRef == id))
    && (forall r :: r in d.vm.vms ==> MatchedVm(d.rows, d.vm, r))
  }

  /** Outside events leave a row's instance and address alone, and no row comes alive but by a tick. */
  lemma OutsideKeeps(c: Config, rows: Rows, e: Lifecycle.Event, id: Id)
    requires id in rows && !e.act.Tick? && !e.act.Drain?
    ensures var r := RowNext(c, rows, e, id);
            r.Some? && r.value.instanceRef == rows[id].instanceRef && r.value.ip == rows[id].ip
            && r.value.spec == rows[id].spec && (Live(r.value.phase) ==> Live(rows[id].phase))
  {
    hide AttachOf;
    match e.act {
      case Meta(_, _, cmd) => match cmd { case Heartbeat(_) => case _ => }
      case _ =>
    }
  }

  lemma OutsideMatched(c: Config, d: Daemon, e: Lifecycle.Event)
    requires Matched(d) && !e.act.Tick? && !e.act.Drain? && !e.act.Restart?
    requires (e.act.Attach? || e.act.CreateWorkspace?) ==> e.act.newId != ""
    ensures Matched(d.(rows := RowsNext(c, d.rows, e)))
  {
    var rows' := RowsNext(c, d.rows, e);
    forall id | id in d.rows
      ensures id in rows' && rows'[id].instanceRef == d.rows[id].instanceRef && rows'[id].ip == d.rows[id].ip
              && rows'[id].spec == d.rows[id].spec
              && (Live(rows'[id].phase) ==> Live(d.rows[id].phase))
    {
      OutsideKeeps(c, d.rows, e, id);
    }
    if Born(c, d.rows, e).Some? {
      Safety.BornOk(c, d.rows, e);
    }
    hide RowNext, Born, OnDisk;
    forall r | r in d.vm.vms ensures MatchedVm(rows', d.vm, r) {
      assert MatchedVm(d.rows, d.vm, r);
    }
  }

  /** The ways a tick can treat a row and its instance. */
  lemma TickCases(c: Config, b: Box, now: int, a: Answers)
    ensures var o := Next(c, b, now, a);
            match o.ask
            case Make(_, called) =>
              o.row == Some(ProvisionedRow(c, b, a)) || o.row == Some(ProvisionedRow(c, b.(deadline := None), a))
            case Snapshot => o.row == Some(if a.suspendOk then SuspendedRow(b) else b) && b.phase == Running
            case Wake => o.row == Some(if a.resumeOk then Started(b, now) else b) && b.phase == Suspended
            case Teardown(called) => called == (b.instanceRef != "") && Ending(b.phase)
              && o.row == (if called && !a.destroy.DestroyOk? then Some(b) else None)
            case _ =>
              o.row.Some? && o.row.value.instanceRef == b.instanceRef && o.row.value.ip == b.ip
              && o.row.value.spec == b.spec && (Live(o.row.value.phase) ==> Live(b.phase))
  {
    match b.phase {
      case Running =>
        if b.spec.ephemeral {
          match EvalLifetime(b, now) { case Reap => case SetDeadline(_) => case ClearDeadline => case NoAction => }
        } else if ShouldSuspend(c, b, now) {
        } else {
        }
      case _ =>
    }
  }

  /** A failed build sweeps the run dir, at most, and leaves the row Failed. */
  lemma FailedMatched(d: Daemon, id: Id, b: Box, vm': V.State)
    requires Matched(d) && id in d.rows && b.instanceRef == d.rows[id].instanceRef && b.ip == d.rows[id].ip
    requires b.phase == Failed && b.spec.image == d.rows[id].spec.image
    requires vm'.vms == d.vm.vms && (vm'.disk == d.vm.disk || vm'.disk == d.vm.disk - {id})
    ensures Matched(Daemon(d.rows[id := b], vm'))
  {
  }

  lemma BuiltMatched(d: Daemon, id: Id, b: Box, v: V.Vm, used: set<int>, snapshot: bool)
    requires Matched(d) && id in d.rows && b.instanceRef == id && b.ip == v.ip && !v.suspended
    requires b.spec.image == v.image
    ensures Matched(Daemon(d.rows[id := b], V.State(d.vm.vms[id := v], used, V.Persisted(d.vm.disk, id, v, snapshot))))
  {
  }

  lemma MakeMatched(c: Config, n: NetConfig, d: Daemon, id: Id, b: Box, luck: Luck)
    requires Matched(d) && id in d.rows && b.instanceRef == d.rows[id].instanceRef && b.ip == d.rows[id].ip
    requires b.spec.image == d.rows[id].spec.image
    ensures var a := AnswersOf(n, d.vm, id, d.rows[id].instanceRef, luck);
            var called := !c.hooks || a.hookOk;
            Matched(Daemon(d.rows[id := ProvisionedRow(c, b, a)],
                           VmAfter(n, d.vm, id, d.rows[id], Make(false, called), luck)))
  {
    hide Matched, Ip, TapName, StatusOf, V.SuspendOk, V.ResumeOk, V.CanDestroy, V.Persisted;
    var a := AnswersOf(n, d.vm, id, d.rows[id].instanceRef, luck);
    var called := !c.hooks || a.hookOk;
    var vm' := VmAfter(n, d.vm, id, d.rows[id], Make(false, called), luck);
    if called && a.provision.ProvisionOk? {
      var o := V.Alloc(d.vm.used).value;
      var v := V.NewVm(n, b.spec.image, o);
      BuiltMatched(d, id, ProvisionedRow(c, b, a), v, d.vm.used + {o}, V.HasSnapshot(d.vm.disk, id));
    } else {
      FailedMatched(d, id, ProvisionedRow(c, b, a), vm');
    }
  }

  lemma SnapshotMatched(d: Daemon, id: Id, luck: Luck)
    requires Matched(d) && id in d.rows && d.rows[id].phase == Running
    ensures var ref := d.rows[id].instanceRef;
            var b' := if V.SuspendOk(d.vm, ref, luck.fcOk) then SuspendedRow(d.rows[id]) else d.rows[id];
            Matched(Daemon(d.rows[id := b'], V.Suspended(d.vm, ref, luck.fcOk, luck.left)))
  {
  }

  lemma WakeMatched(d: Daemon, id: Id, now: int, luck: Luck)
    requires Matched(d) && id in d.rows && d.rows[id].phase == Suspended
    ensures var ref := d.rows[id].instanceRef;
            var b' := if V.ResumeOk(d.vm, ref, luck.fcOk) then Started(d.rows[id], now) else d.rows[id];
            Matched(Daemon(d.rows[id := b'], V.Resumed(d.vm, ref, luck.fcOk)))
  {
  }

  lemma TeardownMatched(n: NetConfig, d: Daemon, id: Id, luck: Luck)
    requires Matched(d) && id in d.rows && Ending(d.rows[id].phase)
    ensures var ref := d.rows[id].instanceRef;
            var a := AnswersOf(n, d.vm, id, ref, luck);
            var gone := ref == "" || a.destroy.DestroyOk?;
            Matched(Daemon(if gone then d.rows - {id} else d.rows,
                           if ref != "" then V.Destroyed(d.vm, ref, luck.removed) else d.vm))
  {
  }

  lemma QuietTickMatched(d: Daemon, id: Id, b': Box)
    requires Matched(d) && id in d.rows
    requires b'.instanceRef == d.rows[id].instanceRef && b'.ip == d.rows[id].ip
    requires b'.spec == d.rows[id].spec
    requires Live(b'.phase) ==> Live(d.rows[id].phase)
    ensures Matched(d.(rows := d.rows[id := b']))
  {
  }

  /** The rows after a tick, as an update of one row. */
  lemma TickedRows(c: Config, rows: Rows, now: int, id: Id, a: Answers)
    requires id in rows
    ensures RowsNext(c, rows, Lifecycle.Event(now, Tick(id, a)))
         == match Next(c, rows[id], now, a).row case None => rows - {id} case Some(b) => rows[id := b]
  {
  }

  lemma TickMatched(c: Config, n: NetConfig, d: Daemon, id: Id, now: int, luck: Luck)
    requires Matched(d)
    ensures Matched(Ticked(c, n, d, id, now, luck))
  {
    hide Next, RowsNext, Matched, V.Provisioned, V.Suspended, V.Resumed, V.Destroyed, ProvisionedRow, Started;
    hide SuspendedRow, V.SuspendOk, V.ResumeOk, V.Alloc, StatusOf;
    if id in d.rows {
      var b := d.rows[id];
      var a := AnswersOf(n, d.vm, id, b.instanceRef, luck);
      TickedRows(c, d.rows, now, id, a);
      TickCases(c, b, now, a);
      TickMakes(c, b, now, a);
      var o := Next(c, b, now, a);
      match o.ask {
        case Make(_, called) =>
          MakeMatched(c, n, d, id, b, luck);
          MakeMatched(c, n, d, id, b.(deadline := None), luck);
        case Snapshot => SnapshotMatched(d, id, luck);
        case Wake => WakeMatched(d, id, now, luck);
        case Teardown(_) =>
          TeardownMatched(n, d, id, luck);
          assert d.rows[id := b] == d.rows;
        case _ => QuietTickMatched(d, id, o.row.value);
      }
    }
  }

  lemma TickMakes(c: Config, b: Box, now: int, a: Answers)
    ensures var ask := Next(c, b, now, a).ask;
            ask.Make? ==> ask.provision == (!c.hooks || a.hookOk)
  {
  }

  lemma ExitMatched(n: NetConfig, d: Daemon, ref: Ref)
    requires Matched(d)
    ensures Matched(d.(vm := V.Step(n, d.vm, V.Exit(ref))))
  {
  }

  /** In every state of one daemon life: each VM is the instance of a stored row at the row's address,
      and the run dir of a live box holds its current record. */
  lemma {:induction false} AlwaysMatched(c: Config, n: NetConfig, d: Daemon, es: seq<Event>, k: nat)
    requires k <= |es| && OneLife(es) && Matched(d)
    ensures Matched(At(c, n, d, es, k))
  {
    hide Matched, RowsNext, Ticked;
    if k > 0 {
      AlwaysMatched(c, n, d, es, k - 1);
      var before := At(c, n, d, es, k - 1);
      match es[k - 1] {
        case Outside(e) => OutsideMatched(c, before, e);
        case TickBox(id, now, luck) => TickMatched(c, n, before, id, now, luck);
        case VmExits(ref) => ExitMatched(n, before, ref);
      }
    }
  }

  // ---- drain ----

  /** Drain's loop over the provider: the boxes in list order, each suspended if it qualifies. */
  function DrainVms(c: Config, rows: Rows, s: V.State, ids: seq<Id>, ok: set<Id>, left: set<Id>): V.State
    requires forall i :: 0 <= i < |ids| ==> ids[i] in rows
    decreases |ids|
  {
    if ids == [] then s
    else
      var b := rows[ids[0]];
      var s' := if Qualifies(c, b) then V.Suspended(s, b.instanceRef, ids[0] in ok, ids[0] in left) else s;
      DrainVms(c, rows, s', ids[1..], ok, left)
  }

  predicate Qualifies(c: Config, b: Box) {
    c.suspender && b.spec.tenant == c.tenant && !b.spec.ephemeral && b.phase == Running
  }

  /** The VM was snapshotted and nothing else about it changed. */
  predicate Snapshotted(v: V.Vm, s: V.State, r: Ref) {
    r in s.vms && s.vms[r].suspended && s.vms[r].ip == v.ip && s.vms[r].tap == v.tap && s.vms[r].image == v.image
    && OnDisk(s, r)
  }

  /** A suspend of one box leaves every other box and its run dir alone, and never undoes a snapshot. */
  lemma SuspendIsLocal(s: V.State, ref: Ref, ok: bool, left: bool, r: Ref)
    requires r in s.vms
    ensures var s' := V.Suspended(s, ref, ok, left);
            && r in s'.vms
            && (r != ref ==> s'.vms[r] == s.vms[r] && (r in s.disk ==> r in s'.disk && s'.disk[r] == s.disk[r]))
            && (OnDisk(s, r) ==> OnDisk(s', r))
            && (Snapshotted(s.vms[r], s, r) ==> Snapshotted(s.vms[r], s', r))
            && (r == ref && ok && OnDisk(s, r) ==> Snapshotted(s.vms[r], s', r))
  {
  }

  lemma {:induction false} DrainKeepsSnapshot(c: Config, rows: Rows, s: V.State, ids: seq<Id>, ok: set<Id>,
                                              left: set<Id>, r: Ref)
    requires forall i :: 0 <= i < |ids| ==> ids[i] in rows
    requires r in s.vms && Snapshotted(s.vms[r], s, r)
    ensures Snapshotted(s.vms[r], DrainVms(c, rows, s, ids, ok, left), r)
    decreases |ids|
  {
    hide V.Suspended, OnDisk;
    if ids != [] {
      var b := rows[ids[0]];
      SuspendIsLocal(s, b.instanceRef, ids[0] in ok, ids[0] in left, r);
      var s' := if Qualifies(c, b) then V.Suspended(s, b.instanceRef, ids[0] in ok, ids[0] in left) else s;
      DrainKeepsSnapshot(c, rows, s', ids[1..], ok, left, r);
    }
  }

  /** Every qualifying box in the list whose snapshot succeeds ends up snapshotted on disk. */
  lemma {:induction false} DrainSnapshots(c: Config, rows: Rows, s: V.State, ids: seq<Id>, ok: set<Id>, left: set<Id>,
                                          id: Id)
    requires forall i :: 0 <= i < |ids| ==> ids[i] in rows
    requires id in ids && Qualifies(c, rows[id]) && id in ok
    requires rows[id].instanceRef == id && id in s.vms && OnDisk(s, id)
    requires forall i :: 0 <= i < |ids| ==> rows[ids[i]].instanceRef == "" || rows[ids[i]].instanceRef == ids[i]
    ensures Snapshotted(s.vms[id], DrainVms(c, rows, s, ids, ok, left), id)
    decreases |ids|
  {
    var b := rows[ids[0]];
    SuspendIsLocal(s, b.instanceRef, ids[0] in ok, ids[0] in left, id);
    var s' := if Qualifies(c, b) then V.Suspended(s, b.instanceRef, ids[0] in ok, ids[0] in left) else s;
    if ids[0] == id {
      hide V.Suspended, OnDisk;
      DrainKeepsSnapshot(c, rows, s', ids[1..], ok, left, id);
    } else {
      assert OnDisk(s', id);
      hide V.Suspended, OnDisk;
      DrainSnapshots(c, rows, s', ids[1..], ok, left, id);
    }
  }

  /** Drain does not touch a box that does not qualify - an ephemeral one, in particular. */
  lemma {:induction false} DrainSpares(c: Config, rows: Rows, s: V.State, ids: seq<Id>, ok: set<Id>, left: set<Id>,
                                       r: Ref)
    requires forall i :: 0 <= i < |ids| ==> ids[i] in rows
    requires r != "" && r in s.vms && r in rows && !Qualifies(c, rows[r])
    requires forall i :: 0 <= i < |ids| ==> rows[ids[i]].instanceRef == "" || rows[ids[i]].instanceRef == ids[i]
    ensures var s' := DrainVms(c, rows, s, ids, ok, left);
            r in s'.vms && s'.vms[r] == s.vms[r]
    decreases |ids|
  {
    if ids != [] {
      var b := rows[ids[0]];
      SuspendIsLocal(s, b.instanceRef, ids[0] in ok, ids[0] in left, r);
      hide V.Suspended;
      DrainSpares(c, rows, if Qualifies(c, b) then V.Suspended(s, b.instanceRef, ids[0] in ok, ids[0] in left)
                  else s, ids[1..], ok, left, r);
    }
  }

  // ---- the round trip ----

  /** Shutdown, restart and the owner's attach, as the rows see them. */
  ghost function Back(c: Config, rows: Rows, ok: set<Id>, owner: string, username: string, newId: Id, now: int): Rows {
    var drained := RowsNext(c, rows, Lifecycle.Event(now, Drain(ok)));
    var reset := RowsNext(c, drained, Lifecycle.Event(now, Restart({})));
    RowsNext(c, reset, Lifecycle.Event(now, Attach(owner, username, newId)))
  }

  lemma AttachReuses(c: Config, rows: Rows, owner: string, username: string, newId: Id, now: int, id: Id)
    requires Unique(rows) && id in rows
    requires var p := ParseSpec(username, c.durations);
             p.Ok? && p.value.special == "" && Named(rows[id], c.tenant, owner, p.value.name)
    ensures AttachOf(c, rows, owner, username, newId, now) == Reused(id)
  {
  }

  lemma RowIsBack(c: Config, rows: Rows, ok: set<Id>, owner: string, username: string, newId: Id, now: int, id: Id)
    requires Unique(rows) && id in rows && Qualifies(c, rows[id]) && id in ok
    requires rows[id].spec.owner == owner
    requires var p := ParseSpec(username, c.durations);
             p.Ok? && p.value.special == "" && p.value.name == rows[id].spec.name
    ensures var back := Back(c, rows, ok, owner, username, newId, now);
            id in back && back[id] == SuspendedRow(rows[id]).(attached := true)
  {
    hide ParseSpec, AttachOf, Unique;
    var drained := RowsNext(c, rows, Lifecycle.Event(now, Drain(ok)));
    var reset := RowsNext(c, drained, Lifecycle.Event(now, Restart({})));
    SameNames(c, rows, Lifecycle.Event(now, Drain(ok)));
    SameNames(c, drained, Lifecycle.Event(now, Restart({})));
    assert drained[id] == SuspendedRow(rows[id]);
    assert reset[id] == SuspendedRow(rows[id]).(attached := false);
    AttachReuses(c, reset, owner, username, newId, now, id);
  }

  lemma SameNames(c: Config, rows: Rows, e: Lifecycle.Event)
    requires e.act.Drain? || e.act.Restart?
    ensures var rows' := RowsNext(c, rows, e);
            && rows'.Keys == rows.Keys && (forall id :: id in rows ==> rows'[id].spec == rows[id].spec)
            && (Unique(rows) ==> Unique(rows'))
  {
  }

  /** A snapshotted box whose image is still there is reattached, suspended, as it was. */
  lemma VmIsBack(v: V.Vm, s: V.State, rebuilt: set<Ref>, taps: set<int>, r: Ref)
    requires Snapshotted(v, s, r) && r in rebuilt
    ensures var vm := V.Restarted(s.disk, rebuilt, taps);
            r in vm.vms && vm.vms[r] == V.Vm(v.image, v.ip, v.tap, true, false, false)
  {
  }

  /** A tick on an attached Suspended box whose VM is reattached asks for a Resume and nothing else. */
  lemma TickResumes(c: Config, n: NetConfig, d: Daemon, id: Id, now: int, luck: Luck)
    requires c.suspender && id in d.rows && d.rows[id].phase == Suspended && d.rows[id].attached
    requires d.rows[id].instanceRef == id && id in d.vm.vms && d.vm.vms[id].suspended && luck.fcOk
    ensures Next(c, d.rows[id], now, AnswersOf(n, d.vm, id, d.rows[id].instanceRef, luck)).ask == Wake
    ensures var d' := Ticked(c, n, d, id, now, luck);
            && id in d'.rows && d'.rows[id] == Started(d.rows[id], now)
            && id in d'.vm.vms && d'.vm.vms[id] == d.vm.vms[id].(suspended := false, handle := true, exited := false)
  {
  }

  /** After drain, restart and attach the next tick asks compute to Resume, and nothing else, and the box is
      Running again under the same instance ref, address and tap. */
  ghost predicate ResumesSame(c: Config, n: NetConfig, d: Daemon, ids: seq<Id>, ok: set<Id>, left: set<Id>,
                              rebuilt: set<V.Ref>,
                              taps: set<int>, owner: string, username: string, newId: Id, now: int, id: Id, luck: Luck)
    requires id in d.rows && id in d.vm.vms && forall i :: 0 <= i < |ids| ==> ids[i] in d.rows
  {
    var rows := Back(c, d.rows, ok, owner, username, newId, now);
    var vm := V.Restarted(DrainVms(c, d.rows, d.vm, ids, ok, left).disk, rebuilt, taps);
    && id in rows && id in vm.vms
    && Next(c, rows[id], now, AnswersOf(n, vm, id, rows[id].instanceRef, luck)).ask == Wake
    && var d' := Ticked(c, n, Daemon(rows, vm), id, now, luck);
    && id in d'.rows && d'.rows[id].phase == Running && d'.rows[id].attached
    && d'.rows[id].instanceRef == d.rows[id].instanceRef == id && d'.rows[id].ip == d.rows[id].ip
    && id in d'.vm.vms && !d'.vm.vms[id].suspended && d'.vm.vms[id].handle
    && d'.vm.vms[id].ip == d.vm.vms[id].ip && d'.vm.vms[id].tap == d.vm.vms[id].tap
  }

  /** Drain, restart and attach preserve identity: the next tick resumes every persistent box that
      was Running under the same instance ref, address and tap, asking compute only to Resume. */
  lemma DrainRestartAttachResumes(c: Config, n: NetConfig, d: Daemon, ids: seq<Id>, ok: set<Id>, left: set<Id>,
                                  rebuilt: set<Ref>, taps: set<int>, owner: string, username: string, newId: Id,
                                  now: int, id: Id, luck: Luck)
    requires Matched(d) && Unique(d.rows) && id in d.rows && Qualifies(c, d.rows[id])
    requires forall i :: 0 <= i < |ids| ==> ids[i] in d.rows
    requires id in ids && id in d.vm.vms && id in ok && id in rebuilt && luck.fcOk
    requires d.rows[id].spec.owner == owner
    requires var p := ParseSpec(username, c.durations);
             p.Ok? && p.value.special == "" && p.value.name == d.rows[id].spec.name
    ensures ResumesSame(c, n, d, ids, ok, left, rebuilt, taps, owner, username, newId, now, id, luck)
  {
    assert MatchedVm(d.rows, d.vm, id);
    hide RowsNext, ParseSpec, Ticked, Next, OnDisk, V.Restarted, DrainVms, Back, MatchedVm;
    DrainSnapshots(c, d.rows, d.vm, ids, ok, left, id);
    RowIsBack(c, d.rows, ok, owner, username, newId, now, id);
    VmIsBack(d.vm.vms[id], DrainVms(c, d.rows, d.vm, ids, ok, left), rebuilt, taps, id);
    var rows := Back(c, d.rows, ok, owner, username, newId, now);
    var vm := V.Restarted(DrainVms(c, d.rows, d.vm, ids, ok, left).disk, rebuilt, taps);
    TickResumes(c, n, Daemon(rows, vm), id, now, luck);
  }
}
