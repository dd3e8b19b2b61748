/** Rows and microVMs over any number of daemon lives: when a drain and a restart leave every
    reattached VM matched to its row, so that the next drain, restart and attach resume again. */
module DaemonLives {
  import opened Common
  import opened Phases
  import opened Boxes
  import opened Usernames
  import opened Lifecycle
  import opened Addresses
  import opened DrainRestart
  import Safety
  import V = MicroVM
  import L = Lives

  /** An event of one life, or a shutdown and restart: the boxes drained in list order, the snapshots the host
      manages, the rootfs it rebuilds and the taps it shows. */
  datatype Move =
    | In(e: DrainRestart.Event)
    | Cycle(ids: seq<Id>, fc: set<Id>, left: set<Id>, rebuilt: set<V.Ref>, taps: set<int>)

  /** The boxes whose Suspend succeeds in a drain. */
  function Suspendable(d: Daemon, fc: set<Id>): set<Id> {
    set id | id in d.rows && V.SuspendOk(d.vm, d.rows[id].instanceRef, id in fc)
  }

  predicate Listed(c: Config, rows: Rows, ids: seq<Id>) {
    && (forall i :: 0 <= i < |ids| ==> ids[i] in rows)
    && (forall id :: id in rows && rows[id].spec.tenant == c.tenant ==> id in ids)
  }

  ghost function RowsBack(c: Config, rows: Rows, ok: set<Id>): Rows {
    RowsNext(c, RowsNext(c, rows, Lifecycle.Event(0, Drain(ok))), Lifecycle.Event(0, Restart({})))
  }

  ghost function Cycled(c: Config, d: Daemon, ids: seq<Id>, fc: set<Id>, left: set<Id>, rebuilt: set<V.Ref>,
                        taps: set<int>): Daemon
    requires Listed(c, d.rows, ids)
  {
    var ok := Suspendable(d, fc);
    Daemon(RowsBack(c, d.rows, ok), V.Restarted(DrainVms(c, d.rows, d.vm, ids, ok, left).disk, rebuilt, taps))
  }

  // ---- what a drain leaves of one VM ----

  ghost predicate OwnRefs(rows: Rows) {
    forall id :: id in rows ==> rows[id].instanceRef == "" || rows[id].instanceRef == id
  }

  predicate Sleeps(c: Config, rows: Rows, ids: seq<Id>, ok: set<Id>, r: V.Ref)
    requires r in rows
  {
    r in ids && Qualifies(c, rows[r]) && r in ok
  }

  /** The drain's Suspend of r fails and leaves its state file behind. */
  predicate Leaves(c: Config, rows: Rows, ids: seq<Id>, ok: set<Id>, left: set<Id>, r: V.Ref)
    requires r in rows
  {
    r in ids && Qualifies(c, rows[r]) && r !in ok && r in left
  }

  /** s' is s after r was suspended, if it was, or left a state file, if it did; so may other boxes have been. */
  predicate DrainedVm(s: V.State, s': V.State, r: V.Ref, sleeps: bool, leaves: bool)
    requires r in s.vms
  {
    && r in s'.vms
    && s'.vms[r] == s.vms[r].(suspended := s.vms[r].suspended || sleeps)
    && (OnDisk(s, r) ==> OnDisk(s', r))
    && (OnDisk(s, r) && !s.vms[r].suspended && !sleeps ==>
          V.HasSnapshot(s'.disk, r) == (V.HasSnapshot(s.disk, r) || leaves))
  }

  lemma OneSuspend(s: V.State, ref: V.Ref, ok: bool, left: bool, r: V.Ref)
    requires r in s.vms
    ensures DrainedVm(s, V.Suspended(s, ref, ok, left), r, ref == r && ok, ref == r && !ok && left)
    ensures V.Suspended(s, ref, ok, left).vms.Keys == s.vms.Keys
  {
  }

  lemma {:induction false} DrainAt(c: Config, rows: Rows, s: V.State, ids: seq<Id>, ok: set<Id>, left: set<Id>,
                                   r: V.Ref)
    requires (forall i :: 0 <= i < |ids| ==> ids[i] in rows) && OwnRefs(rows)
    requires r in s.vms && r in rows && rows[r].instanceRef == r && r != ""
    ensures DrainedVm(s, DrainVms(c, rows, s, ids, ok, left), r, Sleeps(c, rows, ids, ok, r),
                      Leaves(c, rows, ids, ok, left, r))
    decreases |ids|
  {
    hide V.Suspended, OnDisk, V.HasSnapshot, Qualifies;
    if ids != [] {
      var b := rows[ids[0]];
      var s' := if Qualifies(c, b) then V.Suspended(s, b.instanceRef, ids[0] in ok, ids[0] in left) else s;
      OneSuspend(s, b.instanceRef, ids[0] in ok, ids[0] in left, r);
      assert r in ids <==> r == ids[0] || r in ids[1..];
      DrainAt(c, rows, s', ids[1..], ok, left, r);
    }
  }

  lemma {:induction false} DrainKeepsTrack(c: Config, n: NetConfig, rows: Rows, s: V.State, ids: seq<Id>, ok: set<Id>,
                                           left: set<Id>)
    requires (forall i :: 0 <= i < |ids| ==> ids[i] in rows) && L.Tracked(s)
    ensures L.Tracked(DrainVms(c, rows, s, ids, ok, left)) && DrainVms(c, rows, s, ids, ok, left).vms.Keys == s.vms.Keys
    decreases |ids|
  {
    hide L.Tracked;
    if ids != [] {
      var b := rows[ids[0]];
      L.RunKeepsTrack(n, s, V.Suspend(b.instanceRef, ids[0] in ok, ids[0] in left));
      DrainKeepsTrack(c, n, rows, if Qualifies(c, b) then V.Suspended(s, b.instanceRef, ids[0] in ok, ids[0] in left)
                      else s, ids[1..], ok, left);
    }
  }

  // ---- matched after the restart ----

  /** A live box not asleep when the daemon goes down whose run directory holds a snapshot file, an old one or one left
      by the drain's failed Suspend: the restart takes it for a suspended box. */
  predicate Stale(c: Config, d: Daemon, ids: seq<Id>, ok: set<Id>, left: set<Id>, rebuilt: set<V.Ref>, r: V.Ref) {
    && r in d.vm.vms && r in d.rows && r in rebuilt && DrainRestart.Live(d.rows[r].phase)
    && (V.HasSnapshot(d.vm.disk, r) || Leaves(c, d.rows, ids, ok, left, r))
    && !d.vm.vms[r].suspended && !Sleeps(c, d.rows, ids, ok, r)
  }

  /** The rows after drain and restart, one by one. */
  lemma RowBack(c: Config, rows: Rows, ok: set<Id>, id: Id)
    ensures RowsBack(c, rows, ok).Keys == rows.Keys
    ensures id in rows ==>
              var b, b' := rows[id], RowsBack(c, rows, ok)[id];
              b'.spec == b.spec && b'.instanceRef == b.instanceRef && b'.ip == b.ip
                  && DrainRestart.Live(b'.phase) == DrainRestart.Live(b.phase)
  {
    hide RowsNext;
    var drained := RowsNext(c, rows, Lifecycle.Event(0, Drain(ok)));
    SameNames(c, rows, Lifecycle.Event(0, Drain(ok)));
    SameNames(c, drained, Lifecycle.Event(0, Restart({})));
    if id in rows {
      DrainedAt(c, rows, ok, id);
      ResetAt(c, drained, id);
    }
  }

  lemma DrainedAt(c: Config, rows: Rows, ok: set<Id>, id: Id)
    requires id in rows
    ensures var rows' := RowsNext(c, rows, Lifecycle.Event(0, Drain(ok)));
            id in rows' && rows'[id] == DrainedRow(c, rows[id], id, ok)
  {
  }

  lemma ResetAt(c: Config, rows: Rows, id: Id)
    requires id in rows
    ensures var rows' := RowsNext(c, rows, Lifecycle.Event(0, Restart({})));
            id in rows' && rows'[id] == ResetRow(c, rows[id])
  {
  }

  /** One reattached VM is matched to its row unless its snapshot was stale. */
  lemma ReattachedMatch(c: Config, n: NetConfig, d: Daemon, ids: seq<Id>, fc: set<Id>, left: set<Id>,
                        rebuilt: set<V.Ref>, taps: set<int>, r: V.Ref)
    requires Matched(d) && L.Tracked(d.vm) && Listed(c, d.rows, ids)
    requires r in Cycled(c, d, ids, fc, left, rebuilt, taps).vm.vms
    ensures var d' := Cycled(c, d, ids, fc, left, rebuilt, taps);
            MatchedVm(d'.rows, d'.vm, r) <==> !Stale(c, d, ids, Suspendable(d, fc), left, rebuilt, r)
  {
    hide V.Readable, RowsBack, DrainVms, Suspendable, Sleeps, Leaves;
    var ok := Suspendable(d, fc);
    var s' := DrainVms(c, d.rows, d.vm, ids, ok, left);
    var d' := Cycled(c, d, ids, fc, left, rebuilt, taps);
    DrainKeepsTrack(c, n, d.rows, d.vm, ids, ok, left);
    assert V.Reattaches(s'.disk, rebuilt, r) && L.TrackedRef(s', r);
    assert r in d.vm.vms && MatchedVm(d.rows, d.vm, r);
    DrainAt(c, d.rows, d.vm, ids, ok, left, r);
    RowBack(c, d.rows, ok, r);
  }

  /** Matched survives a drain and a restart exactly when no stale snapshot is taken for a suspended box. */
  lemma CycleMatchedIff(c: Config, n: NetConfig, d: Daemon, ids: seq<Id>, fc: set<Id>, left: set<Id>,
                        rebuilt: set<V.Ref>, taps: set<int>)
    requires Matched(d) && L.Tracked(d.vm) && Listed(c, d.rows, ids)
    ensures Matched(Cycled(c, d, ids, fc, left, rebuilt, taps)) <==>
            forall r :: !Stale(c, d, ids, Suspendable(d, fc), left, rebuilt, r)
  {
    var ok := Suspendable(d, fc);
    var s', d' := DrainVms(c, d.rows, d.vm, ids, ok, left), Cycled(c, d, ids, fc, left, rebuilt, taps);
    forall id | id in d'.rows ensures id != "" && (d'.rows[id].instanceRef == "" || d'.rows[id].instanceRef == id) {
      RowBack(c, d.rows, ok, id);
    }
    forall r | r in d'.vm.vms ensures MatchedVm(d'.rows, d'.vm, r) <==> !Stale(c, d, ids, ok, left, rebuilt, r) {
      ReattachedMatch(c, n, d, ids, fc, left, rebuilt, taps, r);
    }
    forall r | Stale(c, d, ids, ok, left, rebuilt, r) ensures r in d'.vm.vms {
      StaleComesBack(c, d, ids, ok, left, rebuilt, r);
    }
  }

  lemma StaleComesBack(c: Config, d: Daemon, ids: seq<Id>, ok: set<Id>, left: set<Id>, rebuilt: set<V.Ref>, r: V.Ref)
    requires Matched(d) && Listed(c, d.rows, ids) && Stale(c, d, ids, ok, left, rebuilt, r)
    ensures V.Reattaches(DrainVms(c, d.rows, d.vm, ids, ok, left).disk, rebuilt, r)
  {
    assert MatchedVm(d.rows, d.vm, r);
    DrainAt(c, d.rows, d.vm, ids, ok, left, r);
    hide DrainVms, Qualifies;
  }

  // ---- any number of lives ----

  ghost function Step(c: Config, n: NetConfig, d: Daemon, m: Move): Daemon {
    match m
    case In(e) => DrainRestart.Step(c, n, d, e)
    case Cycle(ids, fc, left, rebuilt, taps) => if Listed(c, d.rows, ids)
        then Cycled(c, d, ids, fc, left, rebuilt, taps) else d
  }

  ghost function At(c: Config, n: NetConfig, d: Daemon, ms: seq<Move>, k: nat): Daemon
    requires k <= |ms|
  {
    if k == 0 then d else Step(c, n, At(c, n, d, ms, k - 1), ms[k - 1])
  }

  /** Drains and restarts are cycles, and ids are not empty. */
  predicate Lawful(m: Move) {
    m.In? ==> OneLife([m.e])
  }

  ghost predicate Kept(d: Daemon) {
    Matched(d) && L.Tracked(d.vm) && Unique(d.rows)
  }

  /** The three ways a move loses track: a teardown that cannot remove the run directory of a box with a snapshot,
      a stale snapshot at a restart, a record the restart cannot rebuild. */
  ghost predicate Loses(c: Config, n: NetConfig, d: Daemon, m: Move) {
    match m
    case In(TickBox(id, now, luck)) =>
      id in d.rows
      && var ref := d.rows[id].instanceRef;
      && Next(c, d.rows[id], now, AnswersOf(n, d.vm, id, ref, luck)).ask == Teardown(true)
      && L.Strays(d.vm, L.Run(V.Destroy(ref, luck.removed)))
    case In(_) => false
    case Cycle(ids, fc, left, rebuilt, taps) =>
      Listed(c, d.rows, ids)
      && var ok := Suspendable(d, fc);
      && ((exists r :: Stale(c, d, ids, ok, left, rebuilt, r))
          || L.Strays(DrainVms(c, d.rows, d.vm, ids, ok, left), L.Restart(rebuilt, taps)))
  }

  lemma TickKeepsTrack(c: Config, n: NetConfig, d: Daemon, id: Id, now: int, luck: Luck)
    requires L.Tracked(d.vm)
    ensures L.Tracked(Ticked(c, n, d, id, now, luck).vm) <==> !Loses(c, n, d, In(TickBox(id, now, luck)))
  {
    hide L.Tracked, L.Strays, Next, V.Provisioned, V.Suspended, V.Resumed, V.Destroyed, AnswersOf, RowsNext;
    if id in d.rows {
      var b := d.rows[id];
      var ref := b.instanceRef;
      match Next(c, b, now, AnswersOf(n, d.vm, id, ref, luck)).ask {
        case Make(_, called) => TracksStep(n, d.vm, V.Provision(id, b.spec.image, luck.boot));
        case Snapshot => TracksStep(n, d.vm, V.Suspend(ref, luck.fcOk, luck.left));
        case Wake => TracksStep(n, d.vm, V.Resume(ref, luck.fcOk));
        case Teardown(_) => TracksStep(n, d.vm, V.Destroy(ref, luck.removed));
        case _ =>
      }
    }
  }

  lemma TracksStep(n: NetConfig, s: V.State, op: V.Op)
    requires L.Tracked(s)
    ensures L.Tracked(V.Step(n, s, op)) <==> !L.Strays(s, L.Run(op))
    ensures !op.Destroy? ==> !L.Strays(s, L.Run(op))
  {
    L.RunKeepsTrack(n, s, op);
  }

  lemma InKeeps(c: Config, n: NetConfig, d: Daemon, e: DrainRestart.Event)
    requires Kept(d) && OneLife([e])
    ensures Kept(DrainRestart.Step(c, n, d, e)) <==> !Loses(c, n, d, In(e))
  {
    hide Matched, L.Tracked, RowsNext, Next, V.Step, Unique, AnswersOf, VmAfter;
    assert [e][0] == e;
    match e {
      case Outside(be) =>
        OutsideMatched(c, d, be);
        Safety.UniqueAfter(c, d.rows, be);
      case TickBox(id, now, luck) =>
        TickMatched(c, n, d, id, now, luck);
        TickKeepsTrack(c, n, d, id, now, luck);
        if id in d.rows {
          Safety.UniqueAfter(c, d.rows, Lifecycle.Event(now,
                                                        Tick(id, AnswersOf(n, d.vm, id, d.rows[id].instanceRef,
                                                            luck))));
        }
      case VmExits(ref) =>
        ExitMatched(n, d, ref);
        TracksStep(n, d.vm, V.Exit(ref));
    }
  }

  lemma CycleKeeps(c: Config, n: NetConfig, d: Daemon, ids: seq<Id>, fc: set<Id>, left: set<Id>, rebuilt: set<V.Ref>,
                   taps: set<int>)
    requires Kept(d) && Listed(c, d.rows, ids)
    ensures Kept(Cycled(c, d, ids, fc, left, rebuilt, taps)) <==> !Loses(c, n, d, Cycle(ids, fc, left, rebuilt, taps))
  {
    hide Matched, L.Tracked, RowsNext, Unique, Stale, V.Restarted, DrainVms, L.Strays;
    var ok := Suspendable(d, fc);
    CycleMatchedIff(c, n, d, ids, fc, left, rebuilt, taps);
    DrainKeepsTrack(c, n, d.rows, d.vm, ids, ok, left);
    L.RestartKeepsTrack(DrainVms(c, d.rows, d.vm, ids, ok, left), rebuilt, taps);
    SameNames(c, d.rows, Lifecycle.Event(0, Drain(ok)));
    SameNames(c, RowsNext(c, d.rows, Lifecycle.Event(0, Drain(ok))), Lifecycle.Event(0, Restart({})));
  }

  ghost predicate KeptAt(c: Config, n: NetConfig, d: Daemon, ms: seq<Move>, k: nat)
    requires k <= |ms|
  {
    Kept(At(c, n, d, ms, k))
  }

  ghost predicate LosesAt(c: Config, n: NetConfig, d: Daemon, ms: seq<Move>, k: nat)
    requires k < |ms|
  {
    Loses(c, n, At(c, n, d, ms, k), ms[k])
  }

  ghost predicate NothingLost(c: Config, n: NetConfig, d: Daemon, ms: seq<Move>, k: nat)
    requires k <= |ms|
  {
    forall j :: 0 <= j < k ==> !LosesAt(c, n, d, ms, j)
  }

  lemma StepKeeps(c: Config, n: NetConfig, d: Daemon, m: Move)
    requires Kept(d) && Lawful(m)
    ensures Kept(Step(c, n, d, m)) <==> !Loses(c, n, d, m)
  {
    hide Kept, DrainRestart.Step, Cycled, OneLife, AnswersOf, Next;
    match m {
      case In(e) => InKeeps(c, n, d, e);
      case Cycle(ids, fc, left, rebuilt, taps) =>
        if Listed(c, d.rows, ids) {
          CycleKeeps(c, n, d, ids, fc, left, rebuilt, taps);
        }
    }
  }

  /** Over any number of lives, rows, VMs and run directories stay matched in every state if and only if no move
      loses track of a box. */
  lemma {:induction false} MatchedOverLivesIff(c: Config, n: NetConfig, d: Daemon, ms: seq<Move>, k: nat)
    requires k <= |ms| && Kept(d) && forall m :: m in ms ==> Lawful(m)
    ensures (forall j :: 0 <= j <= k ==> KeptAt(c, n, d, ms, j)) <==> NothingLost(c, n, d, ms, k)
  {
    hide Kept, Step, Loses, Lawful;
    if k == 0 {
      assert KeptAt(c, n, d, ms, 0);
    } else {
      MatchedOverLivesIff(c, n, d, ms, k - 1);
      assert KeptAt(c, n, d, ms, k - 1) <==> Kept(At(c, n, d, ms, k - 1));
      assert LosesAt(c, n, d, ms, k - 1) <==> Loses(c, n, At(c, n, d, ms, k - 1), ms[k - 1]);
      assert KeptAt(c, n, d, ms, k) <==> Kept(Step(c, n, At(c, n, d, ms, k - 1), ms[k - 1]));
      if Kept(At(c, n, d, ms, k - 1)) {
        StepKeeps(c, n, At(c, n, d, ms, k - 1), ms[k - 1]);
      }
      assert NothingLost(c, n, d, ms, k) <==> NothingLost(c, n, d, ms, k - 1) && !LosesAt(c, n, d, ms, k - 1);
    }
  }

  const FRESH := Daemon(map[], V.State(map[], {}, map[]))

  lemma FreshKept()
    ensures Kept(FRESH)
  {
  }

  /** The identity of a box survives every shutdown, not only the first: in any life of a daemon that started empty
      and lost track of nothing, drain, restart and attach resume a Running persistent box whose snapshot succeeds. */
  lemma EveryLifeResumes(c: Config, n: NetConfig, ms: seq<Move>, k: nat, ids: seq<Id>, fc: set<Id>, left: set<Id>,
                         rebuilt: set<V.Ref>,
                         taps: set<int>, owner: string, username: string, newId: Id, now: int, id: Id, luck: Luck)
    requires k <= |ms| && (forall m :: m in ms ==> Lawful(m)) && NothingLost(c, n, FRESH, ms, k)
    requires var d := At(c, n, FRESH, ms, k);
             && id in d.rows && Qualifies(c, d.rows[id]) && Listed(c, d.rows, ids)
             && id in d.vm.vms && id in fc && id in rebuilt && luck.fcOk
             && d.rows[id].spec.owner == owner
             && var p := ParseSpec(username, c.durations);
                p.Ok? && p.value.special == "" && p.value.name == d.rows[id].spec.name
    ensures var d := At(c, n, FRESH, ms, k);
            ResumesSame(c, n, d, ids, Suspendable(d, fc), left, rebuilt, taps, owner, username, newId, now, id, luck)
  {
    hide At, ParseSpec, ResumesSame, Unique, Lawful, NothingLost, Ticked, Back, V.Restarted, DrainVms;
    var d := At(c, n, FRESH, ms, k);
    FreshKept();
    MatchedOverLivesIff(c, n, FRESH, ms, k);
    assert KeptAt(c, n, FRESH, ms, k);
    assert MatchedVm(d.rows, d.vm, id);
    DrainRestartAttachResumes(c, n, d, ids, Suspendable(d, fc), left, rebuilt, taps, owner, username, newId, now, id,
                              luck);
  }

  // ---- what a lost run directory does ----

  lemma {:induction false} DrainSkipsUnknown(c: Config, rows: Rows, s: V.State, ids: seq<Id>, ok: set<Id>,
                                             left: set<Id>, r: V.Ref)
    requires (forall i :: 0 <= i < |ids| ==> ids[i] in rows) && r !in s.vms && r in s.disk
    ensures var s' := DrainVms(c, rows, s, ids, ok, left);
            r in s'.disk && s'.disk[r] == s.disk[r]
    decreases |ids|
  {
    if ids != [] {
      var b := rows[ids[0]];
      DrainSkipsUnknown(c, rows, if Qualifies(c, b) then V.Suspended(s, b.instanceRef, ids[0] in ok, ids[0] in left)
                        else s, ids[1..], ok, left, r);
    }
  }

  /** A teardown of a box with a snapshot whose run directory cannot be removed: the retry finds no VM and deletes
      the row, and the next restart brings the VM back as the instance of no row. */
  lemma LeakedDirectoryOrphans(c: Config, n: NetConfig, d: Daemon, id: Id, t1: int, luck: Luck, t2: int, retry: Luck,
                               ids: seq<Id>, fc: set<Id>, left: set<Id>, rebuilt: set<V.Ref>, taps: set<int>)
    requires id != "" && id in d.rows && d.rows[id].phase == Destroying && d.rows[id].instanceRef == id
    requires id in d.vm.vms && d.vm.vms[id].handle && V.Reattachable(d.vm.disk, id) && !luck.removed
    requires id in rebuilt && Listed(c, Ticked(c, n, Ticked(c, n, d, id, t1, luck), id, t2, retry).rows, ids)
    ensures var d2 := Ticked(c, n, Ticked(c, n, d, id, t1, luck), id, t2, retry);
            var d3 := Cycled(c, d2, ids, fc, left, rebuilt, taps);
            id !in d2.rows && id !in d3.rows && id in d3.vm.vms
  {
    var d1 := Ticked(c, n, d, id, t1, luck);
    var d2 := Ticked(c, n, d1, id, t2, retry);
    LeakStep(c, n, d, id, t1, luck);
    RetryStep(c, n, d1, id, t2, retry);
    hide Ticked, RowsBack, DrainVms, V.Readable;
    DrainSkipsUnknown(c, d2.rows, d2.vm, ids, Suspendable(d2, fc), left, id);
    RowBack(c, d2.rows, Suspendable(d2, fc), id);
    assert V.Reattaches(DrainVms(c, d2.rows, d2.vm, ids, Suspendable(d2, fc), left).disk, rebuilt, id);
  }

  lemma LeakStep(c: Config, n: NetConfig, d: Daemon, id: Id, now: int, luck: Luck)
    requires id in d.rows && d.rows[id].phase == Destroying && d.rows[id].instanceRef == id && id != ""
    requires id in d.vm.vms && d.vm.vms[id].handle && !luck.removed
    ensures var d1 := Ticked(c, n, d, id, now, luck);
            d1.rows == d.rows && id !in d1.vm.vms && d1.vm.disk == d.vm.disk
  {
    TickedRows(c, d.rows, now, id, AnswersOf(n, d.vm, id, id, luck));
    hide RowsNext, LastOctet, V.Alloc;
    assert d.rows[id := d.rows[id]] == d.rows;
  }

  lemma RetryStep(c: Config, n: NetConfig, d: Daemon, id: Id, now: int, luck: Luck)
    requires id in d.rows && d.rows[id].phase == Destroying && d.rows[id].instanceRef == id && id != ""
    requires id !in d.vm.vms
    ensures var d1 := Ticked(c, n, d, id, now, luck);
            id !in d1.rows && d1.vm == d.vm
  {
    TickedRows(c, d.rows, now, id, AnswersOf(n, d.vm, id, id, luck));
    hide RowsNext, V.Alloc;
  }

  // ---- what a stale snapshot does ----

  /** A persistent box whose row says Running while its own VM is suspended. */
  predicate Asleep(d: Daemon, id: Id) {
    && id != "" && id in d.rows && d.rows[id].phase == Running && !d.rows[id].spec.ephemeral
    && d.rows[id].instanceRef == id && id in d.vm.vms && d.vm.vms[id].suspended
  }

  /** A tick changes nothing about such a box, attached or not, unless it is due to be suspended anyway. */
  lemma AsleepTickIff(c: Config, n: NetConfig, d: Daemon, id: Id, now: int, luck: Luck)
    requires Asleep(d, id)
    ensures Ticked(c, n, d, id, now, luck) == d <==> !ShouldSuspend(c, d.rows[id], now)
  {
    TickedRows(c, d.rows, now, id, AnswersOf(n, d.vm, id, id, luck));
    hide RowsNext, V.Alloc;
    assert d.rows[id := d.rows[id]] == d.rows;
    if ShouldSuspend(c, d.rows[id], now) {
      assert Ticked(c, n, d, id, now, luck).rows[id].phase == Suspended;
    }
  }

  /** The event neither tears the box down nor reports its agent, which sleeps with the VM. */
  predicate LeavesAlone(e: DrainRestart.Event, id: Id) {
    e.Outside? ==> e.e.act != DestroyBox(id) && e.e.act != Agent(id, true)
  }

  lemma OutsideLeavesAsleep(c: Config, d: Daemon, e: Lifecycle.Event, id: Id)
    requires Asleep(d, id) && !d.rows[id].agentConnected
    requires !e.act.Tick? && !e.act.Drain? && !e.act.Restart? && e.act != DestroyBox(id) && e.act != Agent(id, true)
    ensures var d' := d.(rows := RowsNext(c, d.rows, e));
            Asleep(d', id) && !d'.rows[id].agentConnected
  {
    hide AttachOf;
    assert RowNext(c, d.rows, e, id).Some? && RowNext(c, d.rows, e, id).value.phase == Running
           && RowNext(c, d.rows, e, id).value.instanceRef == id && !RowNext(c, d.rows, e, id).value.agentConnected
           && !RowNext(c, d.rows, e, id).value.spec.ephemeral by {
      match e.act {
        case Meta(_, _, cmd) => match cmd { case Heartbeat(_) => case _ => }
        case _ =>
      }
    }
    hide RowNext, Born;
  }

  lemma OtherTickLeavesAsleep(c: Config, n: NetConfig, d: Daemon, other: Id, now: int, luck: Luck, id: Id)
    requires Matched(d) && Asleep(d, id) && other != id
    ensures var d' := Ticked(c, n, d, other, now, luck);
            && id in d'.rows && d'.rows[id] == d.rows[id] && id in d'.vm.vms && d'.vm.vms[id] == d.vm.vms[id]
  {
    hide RowsNext, V.Alloc, Next, AnswersOf, MatchedVm, V.NewVm, V.HasSnapshot, V.Persisted;
    if other in d.rows {
      TickedRows(c, d.rows, now, other, AnswersOf(n, d.vm, other, d.rows[other].instanceRef, luck));
      assert d.rows[other].instanceRef != id;
    }
  }

  /** For the rest of the daemon's life no attach, and no tick, wakes the box: every state has its row Running and
      its VM suspended. */
  lemma {:induction false} AsleepForTheLife(c: Config, n: NetConfig, d: Daemon, es: seq<DrainRestart.Event>, k: nat,
                                            id: Id)
    requires k <= |es| && OneLife(es) && Matched(d) && Asleep(d, id) && !d.rows[id].agentConnected
    requires forall i :: 0 <= i < |es| ==> LeavesAlone(es[i], id)
    ensures var d' := DrainRestart.At(c, n, d, es, k);
            Asleep(d', id) && !d'.rows[id].agentConnected
  {
    hide Matched, RowsNext, Ticked, Asleep;
    if k > 0 {
      AsleepForTheLife(c, n, d, es, k - 1, id);
      AlwaysMatched(c, n, d, es, k - 1);
      var before := DrainRestart.At(c, n, d, es, k - 1);
      assert LeavesAlone(es[k - 1], id);
      AsleepRow(before, id);
      match es[k - 1] {
        case Outside(e) => OutsideLeavesAsleep(c, before, e, id);
        case TickBox(other, now, luck) =>
          if other == id {
            AsleepTickIff(c, n, before, id, now, luck);
          } else {
            OtherTickLeavesAsleep(c, n, before, other, now, luck, id);
            SameIsAsleep(before, Ticked(c, n, before, other, now, luck), id);
          }
        case VmExits(ref) => ExitLeavesAsleep(n, before, ref, id);
      }
    }
  }

  lemma AsleepRow(d: Daemon, id: Id)
    requires Asleep(d, id)
    ensures id in d.rows && id in d.vm.vms
  {
  }

  lemma SameIsAsleep(d: Daemon, d': Daemon, id: Id)
    requires Asleep(d, id) && id in d'.rows && d'.rows[id] == d.rows[id] && id in d'.vm.vms
               && d'.vm.vms[id] == d.vm.vms[id]
    ensures Asleep(d', id)
  {
  }

  lemma ExitLeavesAsleep(n: NetConfig, d: Daemon, ref: V.Ref, id: Id)
    requires Asleep(d, id)
    ensures Asleep(d.(vm := V.Step(n, d.vm, V.Exit(ref))), id)
  {
  }

  const LUCKY := Luck(true, V.Boots, true, false, true)

  /** A box is built and runs, its agent drops, and the drain's snapshot call fails after writing its state file. */
  function StaleRun(c: Config): seq<Move> {
    [In(Outside(Lifecycle.Event(0, CreateWorkspace("1", c.tenant, "owner", "name", "image")))),
     In(TickBox("1", 0, LUCKY)),
     In(Outside(Lifecycle.Event(0, Agent("1", true)))), In(TickBox("1", 0, LUCKY)),
     In(Outside(Lifecycle.Event(0, Agent("1", false)))), Cycle(["1"], {}, {"1"}, {"1"}, {})]
  }

  lemma AtNext(c: Config, n: NetConfig, d: Daemon, ms: seq<Move>, k: nat)
    requires k < |ms|
    ensures At(c, n, d, ms, 0) == d && At(c, n, d, ms, k + 1) == Step(c, n, At(c, n, d, ms, k), ms[k])
  {
  }

  lemma AloneRows(c: Config, rows: Rows, e: Lifecycle.Event, id: Id, b: Box, b': Box)
    requires rows == map[id := b] && RowNext(c, rows, e, id) == Some(b') && !e.act.Attach? && !e.act.CreateWorkspace?
    ensures RowsNext(c, rows, e) == map[id := b']
  {
    hide RowNext;
  }

  lemma FirstRow(c: Config, e: Lifecycle.Event)
    requires e.act.CreateWorkspace? && e.act.name != "" && e.act.image != ""
    ensures var act := e.act;
            RowsNext(c, map[], e)
            == map[act.newId := NewBox(BoxSpec(act.tenant, act.owner, act.name, act.image, "", false, 0, 0, e.now))]
  {
  }

  function FirstVm(n: NetConfig): V.State {
    var v := V.NewVm(n, "image", FIRST_OCTET);
    V.State(map["1" := v], {FIRST_OCTET}, map["1" := V.Dir(Some(V.RecordOf(v)), false)])
  }

  /** The first tick builds the box on an empty host. */
  lemma FirstTick(c: Config, n: NetConfig, b: Box)
    requires b.phase == Pending && b.spec.image == "image"
    ensures Ticked(c, n, Daemon(map["1" := b], V.State(map[], {}, map[])), "1", 0, LUCKY)
         == Daemon(map["1" := b.(instanceRef := "1", ip := Ip(n, FIRST_OCTET), agentConnected := false,
                                 phase := Provisioning)], FirstVm(n))
  {
    L.FirstAlloc();
    var d := Daemon(map["1" := b], V.State(map[], {}, map[]));
    TickedRows(c, d.rows, 0, "1", AnswersOf(n, d.vm, "1", b.instanceRef, LUCKY));
    hide RowsNext, V.Alloc, Ip, TapName;
  }

  lemma StartingTick(c: Config, n: NetConfig, b: Box, s: V.State)
    requires b.phase == Provisioning && b.agentConnected
    ensures Ticked(c, n, Daemon(map["1" := b], s), "1", 0, LUCKY) == Daemon(map["1" := Started(b, 0)], s)
  {
    var d := Daemon(map["1" := b], s);
    TickedRows(c, d.rows, 0, "1", AnswersOf(n, d.vm, "1", b.instanceRef, LUCKY));
    hide RowsNext, V.Alloc, Started;
  }

  lemma StaleCycle(c: Config, n: NetConfig, b: Box)
    requires c.suspender && b.spec.tenant == c.tenant && !b.spec.ephemeral && b.phase == Running && b.instanceRef == "1"
    ensures var d := Daemon(map["1" := b], FirstVm(n));
            Listed(c, d.rows, ["1"])
            && var d' := Cycled(c, d, ["1"], {}, {"1"}, {"1"}, {});
               Asleep(d', "1") && d'.rows["1"].agentConnected == b.agentConnected
  {
    hide Ip, TapName, LastOctet, V.Readable, RowsNext;
    var d := Daemon(map["1" := b], FirstVm(n));
    var s' := DrainVms(c, d.rows, d.vm, ["1"], {}, {"1"});
    assert ["1"][1..] == [];
    assert Suspendable(d, {}) == {};
    assert s' == V.Suspended(d.vm, "1", false, true);
    assert V.Reattaches(s'.disk, {"1"}, "1");
    DrainedAt(c, d.rows, {}, "1");
    SameNames(c, d.rows, Lifecycle.Event(0, Drain({})));
    ResetAt(c, RowsNext(c, d.rows, Lifecycle.Event(0, Drain({}))), "1");
  }

  /** The box of the run once Running. */
  function RunningBox(c: Config, n: NetConfig): Box {
    var b := NewBox(BoxSpec(c.tenant, "owner", "name", "image", "", false, 0, 0, 0));
    Started(b.(instanceRef := "1", ip := Ip(n, FIRST_OCTET), phase := Provisioning, agentConnected := true), 0)
  }

  lemma BuiltAndConnected(c: Config, n: NetConfig)
    ensures At(c, n, FRESH, StaleRun(c), 4) == Daemon(map["1" := RunningBox(c, n)], FirstVm(n))
  {
    hide At, RowsNext, Ticked, FirstVm;
    var ms := StaleRun(c);
    var b1 := NewBox(BoxSpec(c.tenant, "owner", "name", "image", "", false, 0, 0, 0));
    var b2 := b1.(instanceRef := "1", ip := Ip(n, FIRST_OCTET), phase := Provisioning);
    var b3 := b2.(agentConnected := true);
    AtNext(c, n, FRESH, ms, 0);
    AtNext(c, n, FRESH, ms, 1);
    AtNext(c, n, FRESH, ms, 2);
    AtNext(c, n, FRESH, ms, 3);
    FirstRow(c, ms[0].e.e);
    FirstTick(c, n, b1);
    AloneRows(c, map["1" := b2], ms[2].e.e, "1", b2, b3);
    StartingTick(c, n, b3, FirstVm(n));
  }

  /** A reachable stale snapshot: after this run of an empty daemon the box is asleep under a Running row. */
  lemma StaleIsReachable(c: Config, n: NetConfig)
    requires c.suspender
    ensures var d := At(c, n, FRESH, StaleRun(c), 6);
            Asleep(d, "1") && !d.rows["1"].agentConnected
  {
    hide At, RowsNext, Ticked, Cycled, Asleep, FirstVm;
    var ms := StaleRun(c);
    var b := RunningBox(c, n);
    var b' := b.(agentConnected := false);
    BuiltAndConnected(c, n);
    AtNext(c, n, FRESH, ms, 4);
    AtNext(c, n, FRESH, ms, 5);
    AloneRows(c, map["1" := b], ms[4].e.e, "1", b, b');
    StaleCycle(c, n, b');
  }
}
