/** The reconciler object (internal/core/box/reconcile.go), method by method as the
    daemon runs it, proved to do what Lifecycle.Next says; its sweep, its drain, and
    the session reset at daemon start (cmd/boxd/main.go). */
module Reconcilers {
  import opened Common
  import opened Phases
  import opened Boxes
  import opened Lifecycle
  import opened Stores

  /** The events of a sweep that visits ids in order. */
  function SweepEvents(ids: seq<Id>, clock: nat -> int, oracle: Id -> Answers): (es: seq<Event>)
    ensures |es| == |ids|
    ensures forall k :: 0 <= k < |ids| ==> es[k] == Event(clock(k), Tick(ids[k], oracle(ids[k])))
  {
    seq(|ids|, k requires 0 <= k < |ids| => Event(clock(k), Tick(ids[k], oracle(ids[k]))))
  }

  /** The calls a run of ticks makes, in order. */
  ghost function CallsAt(c: Config, s: World, es: seq<Event>, n: nat): seq<Call>
    requires n <= |es|
  {
    if n == 0 then []
    else CallsAt(c, s, es, n - 1) + StepCalls(c, At(c, s, es, n - 1).rows, es[n - 1])
  }

  function StepCalls(c: Config, rows: Rows, e: Event): seq<Call> {
    if e.act.Tick? && e.act.id in rows then
      CallsOf(c, rows[e.act.id].instanceRef, Next(c, rows[e.act.id], e.now, e.act.a).ask)
    else []
  }

  lemma RunNext(c: Config, s: World, es: seq<Event>)
    ensures At(c, s, es, 0) == s && CallsAt(c, s, es, 0) == []
    ensures forall k :: 0 <= k < |es| ==>
              At(c, s, es, k + 1) == Step(c, At(c, s, es, k), es[k])
              && CallsAt(c, s, es, k + 1) == CallsAt(c, s, es, k) + StepCalls(c, At(c, s, es, k).rows, es[k])
  {
    hide Step, StepCalls;
  }

  predicate Drains(b: Box) {
    !b.spec.ephemeral && b.phase == Running
  }

  /** The calls of a drain over the first k of ids. */
  function DrainCalls(rows: Rows, ids: seq<Id>, k: nat): seq<Call>
    requires k <= |ids| && forall i :: 0 <= i < k ==> ids[i] in rows
  {
    if k == 0 then []
    else DrainCalls(rows, ids, k - 1) + if Drains(rows[ids[k - 1]]) then [Suspend(rows[ids[k - 1]].instanceRef)] else []
  }

  lemma TickOneRow(c: Config, rows: Rows, now: int, id: Id, a: Answers)
    ensures RowsNext(c, rows, Event(now, Tick(id, a))) ==
            if id !in rows then rows
            else match Next(c, rows[id], now, a).row
                 case None => rows - {id}
                 case Some(b) => rows[id := b]
  {
  }

  class Reconciler {
    const cfg: Config
    const store: Store
    const host: Host

    constructor (cfg: Config, store: Store, host: Host)
      ensures this.cfg == cfg && this.store == store && this.host == host
    {
      this.cfg, this.store, this.host := cfg, store, host;
    }

    ghost function World(): World
      reads store, host
    {
      Lifecycle.World(store.rows, host.insts)
    }

    /** b is the row of id, up to its mutable fields. */
    ghost predicate Holds(id: Id, b: Box)
      reads store
    {
      id in store.rows && store.rows[id].spec == b.spec
    }

    /** Write phase p, if the table allows it; a box entering Running gets an activity mark. */
    method SetPhase(id: Id, b: Box, p: Phase, now: int) returns (ok: bool)
      requires Holds(id, b)
      modifies store
      ensures ok == CanTransition(b.phase, p)
      ensures store.rows == if !ok then old(store.rows)
                            else old(store.rows)[id := if p == Running then Started(b, now) else b.(phase := p)]
    {
      if !CanTransition(b.phase, p) {
        return false;
      }
      var b' := b;
      if p == Running && b'.lastActive.None? {
        b' := b'.(lastActive := Some(now));
      }
      b' := b'.(phase := p);
      store.Update(id, b');
      return true;
    }

    method Fail(id: Id, b: Box)
      requires Holds(id, b)
      modifies store
      ensures store.rows == old(store.rows)[id := b.(phase := Failed)]
    {
      store.Update(id, b.(phase := Failed));
    }

    method Provision(id: Id, b: Box, a: Answers)
      requires Holds(id, b)
      modifies store, host
      ensures store.rows == old(store.rows)[id := ProvisionedRow(cfg, b, a)]
      ensures var called := !cfg.hooks || a.hookOk;
              && host.insts == (if called then AfterProvision(old(host.insts), id, a.provision) else old(host.insts))
              && host.log == old(host.log) + CallsOf(cfg, b.instanceRef, Make(false, called))
    {
      if cfg.hooks {
        host.Note(PreProvision);
        if !a.hookOk {
          Fail(id, b);
          return;
        }
      }
      host.Provision(id, a.provision);
      match a.provision {
        case ProvisionErr(_) => Fail(id, b);
        case ProvisionLeft(_) => Fail(id, b);
        case ProvisionOk(ref, ip) =>
          store.Update(id, b.(instanceRef := ref, ip := ip, agentConnected := false, phase := Provisioning));
      }
    }

    method HealIfDead(id: Id, b: Box, a: Answers)
      requires Holds(id, b) && store.rows[id] == b
      modifies store, host
      ensures var o := Healed(cfg, b, a);
              && o.row.Some? && store.rows == old(store.rows)[id := o.row.value]
              && host.insts == Effect(old(host.insts), id, b.instanceRef, o.ask, a)
              && host.log == old(host.log) + CallsOf(cfg, b.instanceRef, o.ask)
      ensures b.instanceRef != "" && a.status != Dead ==>
                && store.rows == old(store.rows) && host.insts == old(host.insts)
                && host.log == old(host.log) + [Status(b.instanceRef)]
      ensures (b.instanceRef == "" || a.status == Dead) && (cfg.hooks ==> a.hookOk) ==>
                Call.Provision in host.log[|old(host.log)|..]
    {
      if b.instanceRef == "" {
        Provision(id, b, a);
        return;
      }
      host.Note(Status(b.instanceRef));
      if a.status == Dead {
        Provision(id, b, a);
      }
    }

    method CheckAlive(id: Id, b: Box, a: Answers)
      requires Holds(id, b) && store.rows[id] == b
      modifies store, host
      ensures host.insts == old(host.insts)
      ensures host.log == old(host.log) + if b.instanceRef == "" then [] else [Status(b.instanceRef)]
      ensures store.rows == old(store.rows)[id := if b.instanceRef != "" && a.status == Dead then b.(phase := Failed)
                                            else b]
    {
      if b.instanceRef != "" {
        host.Note(Status(b.instanceRef));
        if a.status == Dead {
          Fail(id, b);
        }
      }
    }

    method Destroy(id: Id, b: Box, a: Answers)
      requires Holds(id, b) && store.rows[id] == b
      modifies store, host
      ensures var o := Destroyed(b, a);
              && store.rows == (if o.row.None? then old(store.rows) - {id} else old(store.rows))
              && host.insts == Effect(old(host.insts), id, b.instanceRef, o.ask, a)
              && host.log == old(host.log) + CallsOf(cfg, b.instanceRef, o.ask)
    {
      if cfg.hooks {
        host.Note(PreDestroy);
      }
      if b.instanceRef != "" {
        host.Destroy(b.instanceRef, a.destroy);
        if !a.destroy.DestroyOk? {
          return;
        }
      }
      store.Delete(id);
    }

    /** Lifetime of a Running ephemeral box; done means the tick ends here. */
    method ReconcileLifetime(id: Id, b: Box, now: int) returns (b': Box, done: bool)
      requires Holds(id, b) && store.rows[id] == b && b.phase == Running && b.spec.ephemeral
      modifies store
      ensures var act := EvalLifetime(b, now);
              && b' == (if act.Reap? then b.(phase := Destroying) else WithDeadline(b, act))
              && done == (act.Reap? || !b.attached)
              && store.rows == old(store.rows)[id := b']
    {
      var act := EvalLifetime(b, now);
      b' := b;
      match act {
        case Reap =>
          var ok := SetPhase(id, b, Destroying, now);
          return b.(phase := Destroying), true;
        case SetDeadline(at) =>
          b' := b.(deadline := Some(at));
          store.Update(id, b');
        case ClearDeadline =>
          b' := b.(deadline := None);
          store.Update(id, b');
        case NoAction =>
      }
      done := !b.attached;
    }

    method Serve(id: Id, b: Box, a: Answers)
      requires Holds(id, b) && store.rows[id] == b
      modifies store, host
      ensures var o := Served(cfg, b, a);
              && o.row.Some? && store.rows == old(store.rows)[id := o.row.value]
              && host.insts == Effect(old(host.insts), id, b.instanceRef, o.ask, a)
              && host.log == old(host.log) + CallsOf(cfg, b.instanceRef, o.ask)
    {
      if !b.agentConnected {
        HealIfDead(id, b, a);
      } else if cfg.hooks {
        host.Note(PostRunning);
      }
    }

    method Suspend(id: Id, b: Box, ok: bool, now: int)
      requires Holds(id, b) && store.rows[id] == b && b.phase == Running
      modifies store, host
      ensures store.rows == old(store.rows)[id := if ok then SuspendedRow(b) else b]
      ensures host.insts == old(host.insts) && host.log == old(host.log) + [Call.Suspend(b.instanceRef)]
    {
      host.Note(Call.Suspend(b.instanceRef));
      if ok {
        var legal := SetPhase(id, b.(agentConnected := false), Suspended, now);
      }
    }

    /** Resume an attached Suspended box, or rebuild it when compute cannot suspend. */
    method Resume(id: Id, b: Box, now: int, a: Answers)
      requires Holds(id, b) && store.rows[id] == b && b.phase == Suspended && b.attached
      modifies store, host
      ensures var o := Next(cfg, b, now, a);
              && o.row.Some? && store.rows == old(store.rows)[id := o.row.value]
              && host.insts == Effect(old(host.insts), id, b.instanceRef, o.ask, a)
              && host.log == old(host.log) + CallsOf(cfg, b.instanceRef, o.ask)
    {
      if !cfg.suspender {
        Provision(id, b, a);
        return;
      }
      host.Note(Call.Resume(b.instanceRef));
      if a.resumeOk {
        var legal := SetPhase(id, b, Running, now);
      }
    }

    method ReconcileRunning(id: Id, b: Box, now: int, a: Answers)
      requires Holds(id, b) && store.rows[id] == b && b.phase == Running
      modifies store, host
      ensures var o := Next(cfg, b, now, a);
              && o.row.Some? && store.rows == old(store.rows)[id := o.row.value]
              && host.insts == Effect(old(host.insts), id, b.instanceRef, o.ask, a)
              && host.log == old(host.log) + CallsOf(cfg, b.instanceRef, o.ask)
    {
      if b.spec.ephemeral {
        var b', done := ReconcileLifetime(id, b, now);
        if !done {
          Serve(id, b', a);
        }
      } else if ShouldSuspend(cfg, b, now) {
        Suspend(id, b, a.suspendOk, now);
      } else {
        Serve(id, b, a);
      }
    }

    /** One tick on one box: exactly the step Tick(id, a) of the lifecycle. */
    method ReconcileOne(id: Id, now: int, a: Answers) returns (found: bool)
      modifies store, host
      ensures found == (id in old(store.rows))
      ensures World() == Step(cfg, old(World()), Event(now, Tick(id, a)))
      ensures host.log == old(host.log) + StepCalls(cfg, old(store.rows), Event(now, Tick(id, a)))
    {
      TickOneRow(cfg, store.rows, now, id, a);
      var got := store.Get(id);
      if got.None? {
        return false;
      }
      var b := got.value;
      found := true;
      match b.phase {
        case Pending => Provision(id, b, a);
        case Provisioning =>
          if b.agentConnected {
            var legal := SetPhase(id, b, Running, now);
          } else {
            CheckAlive(id, b, a);
          }
        case Running => ReconcileRunning(id, b, now, a);
        case Suspended =>
          if b.attached {
            Resume(id, b, now, a);
          }
        case Destroying => Destroy(id, b, a);
        case Failed =>
          if b.spec.ephemeral {
            Destroy(id, b, a);
          }
        case Stopped =>
          if b.spec.ephemeral {
            Destroy(id, b, a);
          }
      }
    }

    /** The backstop sweep: one tick on every row present at its start, in some order. */
    method Sweep(clock: nat -> int, oracle: Id -> Answers) returns (ids: seq<Id>)
      modifies store, host
      ensures forall id :: id in ids <==> id in old(store.rows)
      ensures forall i, j :: 0 <= i < j < |ids| ==> ids[i] != ids[j]
      ensures World() == At(cfg, old(World()), SweepEvents(ids, clock, oracle), |ids|)
      ensures host.log == old(host.log) + CallsAt(cfg, old(World()), SweepEvents(ids, clock, oracle), |ids|)
    {
      hide Step, StepCalls, At, CallsAt;
      ids := store.List("");
      var k := 0;
      ghost var es := SweepEvents(ids, clock, oracle);
      RunNext(cfg, World(), es);
      while k < |ids|
        invariant 0 <= k <= |ids|
        invariant World() == At(cfg, old(World()), es, k)
        invariant host.log == old(host.log) + CallsAt(cfg, old(World()), es, k)
      {
        var found := ReconcileOne(ids[k], clock(k), oracle(ids[k]));
        assert es[k] == Event(clock(k), Tick(ids[k], oracle(ids[k])));
        k := k + 1;
      }
    }

    /** Shutdown: ask for a snapshot of every Running persistent box of the tenant, once each, and of no other;
        suspend those whose snapshot succeeds. */
    method Drain(ok: set<Id>) returns (ids: seq<Id>)
      requires cfg.tenant != ""
      modifies store, host
      ensures forall id ::
                id in ids <==> cfg.suspender && id in old(store.rows) && old(store.rows)[id].spec.tenant == cfg.tenant
      ensures forall i, j :: 0 <= i < j < |ids| ==> ids[i] != ids[j]
      ensures World() == Step(cfg, old(World()), Event(0, Lifecycle.Drain(ok)))
      ensures host.log == old(host.log) + DrainCalls(old(store.rows), ids, |ids|)
    {
      hide RowsNext, SuspendedRow, DrainedTo, DrainCalls;
      ids := [];
      NothingDrainedYet(store.rows, ids, ok);
      if cfg.suspender {
        ids := store.List(cfg.tenant);
        var k := 0;
        NothingDrainedYet(store.rows, ids, ok);
        while k < |ids|
          invariant 0 <= k <= |ids| && host.insts == old(host.insts)
          invariant store.rows == DrainedTo(old(store.rows), ids, k, ok)
          invariant host.log == old(host.log) + DrainCalls(old(store.rows), ids, k)
        {
          DrainNext(old(store.rows), ids, k, ok);
          var id := ids[k];
          var b := store.rows[id];
          if !b.spec.ephemeral && b.phase == Running {
            Suspend(id, b, id in ok, 0);
          }
          k := k + 1;
        }
      }
      DrainRows(cfg, old(store.rows), ids, ok);
    }
  }

  /** The rows after a drain got through the first k of ids. */
  function DrainedTo(rows: Rows, ids: seq<Id>, k: nat, ok: set<Id>): (r: Rows)
    requires k <= |ids| && forall i :: 0 <= i < |ids| ==> ids[i] in rows
  {
    if k == 0 then rows
    else
      var before := DrainedTo(rows, ids, k - 1, ok);
      var id := ids[k - 1];
      if !Drains(rows[id]) then before
      else before[id := if id in ok then SuspendedRow(rows[id]) else rows[id]]
  }

  lemma {:induction false} DrainedSoFar(rows: Rows, ids: seq<Id>, k: nat, ok: set<Id>, id: Id)
    requires k <= |ids| && (forall i :: 0 <= i < |ids| ==> ids[i] in rows)
    requires forall i, j :: 0 <= i < j < |ids| ==> ids[i] != ids[j]
    ensures var r := DrainedTo(rows, ids, k, ok);
            && r.Keys == rows.Keys
            && (id in rows ==> r[id] == if id in ids[..k] && Drains(rows[id]) && id in ok then SuspendedRow(rows[id])
                else rows[id])
  {
    hide SuspendedRow;
    if k > 0 {
      assert ids[..k] == ids[..k - 1] + [ids[k - 1]];
      DrainedSoFar(rows, ids, k - 1, ok, id);
    }
  }

  lemma NothingDrainedYet(rows: Rows, ids: seq<Id>, ok: set<Id>)
    requires forall i :: 0 <= i < |ids| ==> ids[i] in rows
    ensures DrainedTo(rows, ids, 0, ok) == rows && DrainCalls(rows, ids, 0) == []
  {
  }

  /** One more box of the drain. */
  lemma DrainNext(rows: Rows, ids: seq<Id>, k: nat, ok: set<Id>)
    requires k < |ids| && (forall i :: 0 <= i < |ids| ==> ids[i] in rows)
    requires forall i, j :: 0 <= i < j < |ids| ==> ids[i] != ids[j]
    ensures var id, r := ids[k], DrainedTo(rows, ids, k, ok);
            && id in r && r[id] == rows[id]
            && DrainedTo(rows, ids, k + 1, ok)
               == (if Drains(rows[id]) then r[id := if id in ok then SuspendedRow(rows[id]) else rows[id]] else r)
            && DrainCalls(rows, ids, k + 1)
               == DrainCalls(rows, ids, k) + if Drains(rows[id]) then [Suspend(rows[id].instanceRef)] else []
  {
    DrainedSoFar(rows, ids, k, ok, ids[k]);
    hide SuspendedRow;
  }

  lemma DrainRows(c: Config, rows: Rows, ids: seq<Id>, ok: set<Id>)
    requires forall id :: id in ids <==> c.suspender && id in rows && rows[id].spec.tenant == c.tenant
    requires forall i, j :: 0 <= i < j < |ids| ==> ids[i] != ids[j]
    ensures DrainedTo(rows, ids, |ids|, ok) == RowsNext(c, rows, Event(0, Drain(ok)))
  {
    var r := DrainedTo(rows, ids, |ids|, ok);
    assert ids[..|ids|] == ids;
    hide SuspendedRow, DrainedTo;
    forall id | id in rows ensures id in r && r.Keys == rows.Keys && r[id] == DrainedRow(c, rows[id], id, ok) {
      DrainedSoFar(rows, ids, |ids|, ok, id);
    }
    if rows == map[] {
      DrainedSoFar(rows, ids, |ids|, ok, "");
    }
  }

  /** The rows after a reset got through the first k of ids. */
  function ResetTo(rows: Rows, ids: seq<Id>, k: nat): Rows
    requires k <= |ids| && forall i :: 0 <= i < |ids| ==> ids[i] in rows
  {
    if k == 0 then rows
    else
      var before, b := ResetTo(rows, ids, k - 1), rows[ids[k - 1]];
      if b.attached then before[ids[k - 1] := b.(attached := false)] else before
  }

  lemma {:induction false} ResetSoFar(rows: Rows, ids: seq<Id>, k: nat, id: Id)
    requires k <= |ids| && (forall i :: 0 <= i < |ids| ==> ids[i] in rows)
    requires forall i, j :: 0 <= i < j < |ids| ==> ids[i] != ids[j]
    ensures var r := ResetTo(rows, ids, k);
            && r.Keys == rows.Keys
            && (id in rows ==> r[id] == if id in ids[..k] then rows[id].(attached := false) else rows[id])
  {
    if k > 0 {
      assert ids[..k] == ids[..k - 1] + [ids[k - 1]];
      ResetSoFar(rows, ids, k - 1, id);
    }
  }

  /** One more row of the reset. */
  lemma ResetNext(rows: Rows, ids: seq<Id>, k: nat)
    requires k < |ids| && (forall i :: 0 <= i < |ids| ==> ids[i] in rows)
    requires forall i, j :: 0 <= i < j < |ids| ==> ids[i] != ids[j]
    ensures var id, r := ids[k], ResetTo(rows, ids, k);
            && id in r && r[id] == rows[id]
            && ResetTo(rows, ids, k + 1) == if rows[id].attached then r[id := rows[id].(attached := false)] else r
  {
    ResetSoFar(rows, ids, k, ids[k]);
  }

  lemma NothingResetYet(rows: Rows, ids: seq<Id>)
    requires forall i :: 0 <= i < |ids| ==> ids[i] in rows
    ensures ResetTo(rows, ids, 0) == rows
  {
  }

  lemma ResetRows(c: Config, rows: Rows, ids: seq<Id>)
    requires forall id :: id in ids <==> id in rows && rows[id].spec.tenant == c.tenant
    requires forall i, j :: 0 <= i < j < |ids| ==> ids[i] != ids[j]
    ensures ResetTo(rows, ids, |ids|) == RowsNext(c, rows, Event(0, Restart({})))
  {
    hide ResetTo, RowsNext, ResetRow;
    var r := ResetTo(rows, ids, |ids|);
    forall id ensures r.Keys == rows.Keys && (id in rows ==> r[id] == ResetRow(c, rows[id])) {
      ResetOne(c, rows, ids, id);
    }
    RowsReset(c, rows, r);
  }

  lemma ResetOne(c: Config, rows: Rows, ids: seq<Id>, id: Id)
    requires forall i :: i in ids <==> i in rows && rows[i].spec.tenant == c.tenant
    requires forall i, j :: 0 <= i < j < |ids| ==> ids[i] != ids[j]
    ensures var r := ResetTo(rows, ids, |ids|);
            r.Keys == rows.Keys && (id in rows ==> r[id] == ResetRow(c, rows[id]))
  {
    assert ids[..|ids|] == ids;
    ResetSoFar(rows, ids, |ids|, id);
    hide ResetTo;
  }

  lemma RowsReset(c: Config, rows: Rows, rows': Rows)
    requires rows'.Keys == rows.Keys
    requires forall id :: id in rows ==> rows'[id] == ResetRow(c, rows[id])
    ensures rows' == RowsNext(c, rows, Event(0, Restart({})))
  {
  }

  /** Daemon start: no session survives a restart, so every Attached flag of the tenant is stale. */
  method ResetSessions(cfg: Config, store: Store)
    requires cfg.tenant != ""
    modifies store
    ensures store.rows == RowsNext(cfg, old(store.rows), Event(0, Restart({})))
  {
    hide RowsNext, ResetTo;
    var ids := store.List(cfg.tenant);
    NothingResetYet(store.rows, ids);
    var k := 0;
    while k < |ids|
      invariant 0 <= k <= |ids| && store.rows == ResetTo(old(store.rows), ids, k)
    {
      ResetNext(old(store.rows), ids, k);
      var b := store.rows[ids[k]];
      if b.attached {
        store.Update(ids[k], b.(attached := false));
      }
      k := k + 1;
    }
    ResetRows(cfg, old(store.rows), ids);
  }
}
