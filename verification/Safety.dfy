/** Invariants of every run: phase safety, no orphaned instance, no unasked deletion. */
module Safety {
  import opened Common
  import opened Phases
  import opened Boxes
  import opened Lifecycle

  // ---- one row through one step ----

  /** How a row reaches the next state: by RowNext, or by being born. */
  lemma RowAt(c: Config, s: World, es: seq<Event>, n: nat, id: Id)
    requires n < |es|
    ensures var now, later := At(c, s, es, n).rows, At(c, s, es, n + 1).rows;
            if id in now then
              (id in later <==> RowNext(c, now, es[n], id).Some?)
              && (id in later ==> later[id] == RowNext(c, now, es[n], id).value)
            else
              id in later ==> Born(c, now, es[n]) == Some((id, later[id])) && Creates(es[n], id)
  {
  }

  /** What holds of every row of every reachable state. */
  ghost predicate RowOk(b: Box) {
    && (b.spec.ephemeral ==> b.phase != Suspended)
    && (b.deadline.Some? ==> b.spec.ephemeral && (b.phase.Running? || b.phase.Destroying?))
    && (b.phase == Running ==> b.lastActive.Some?)
  }

  /** Rows keep their identity and tier for life, move along the table, and stay well-formed. */
  ghost predicate Follows(b: Box, b': Box) {
    && b'.spec == b.spec
    && CanTransition(b.phase, b'.phase)
    && (Ending(b.phase) ==> Ending(b'.phase))
    && (RowOk(b) ==> RowOk(b'))
  }

  lemma NextFollows(c: Config, b: Box, now: int, a: Answers)
    ensures Next(c, b, now, a).row.Some? ==> Follows(b, Next(c, b, now, a).row.value)
  {
    match b.phase {
      case Pending =>
      case Provisioning =>
      case Running =>
        if b.spec.ephemeral {
          match EvalLifetime(b, now) {
            case Reap =>
            case SetDeadline(_) =>
            case ClearDeadline =>
            case NoAction =>
          }
        } else if ShouldSuspend(c, b, now) {
        } else if b.agentConnected {
        } else {
        }
      case Suspended =>
      case Stopped =>
      case Failed =>
      case Destroying =>
    }
  }

  ghost predicate Good(s: World) {
    && Unique(s.rows)
    && forall id :: id in s.rows ==> RowOk(s.rows[id])
  }

  lemma RowNextFollows(c: Config, rows: Rows, e: Event, id: Id)
    requires id in rows && RowNext(c, rows, e, id).Some?
    ensures Follows(rows[id], RowNext(c, rows, e, id).value)
  {
    hide AttachOf;
    match e.act {
      case Tick(_, a) => NextFollows(c, rows[id], e.now, a);
      case Meta(_, _, cmd) => match cmd { case Heartbeat(_) => case _ => }
      case Attach(_, _, _) =>
      case Drain(_) =>
      case _ =>
    }
  }

  /** Only a tick deletes a row or changes the instance it names. */
  lemma OnlyTicksTouchInstances(c: Config, rows: Rows, e: Event, id: Id)
    requires id in rows && !(e.act.Tick? && e.act.id == id)
    ensures RowNext(c, rows, e, id).Some? && RowNext(c, rows, e, id).value.instanceRef == rows[id].instanceRef
  {
  }

  /** A persistent row enters Destroying only on an explicit request. */
  lemma OnlyDestroyTearsDown(c: Config, rows: Rows, e: Event, id: Id)
    requires id in rows && RowNext(c, rows, e, id).Some?
    requires !rows[id].spec.ephemeral && rows[id].phase != Destroying
    ensures RowNext(c, rows, e, id).value.phase == Destroying ==> e.act == DestroyBox(id)
  {
  }

  /** A row is deleted only by a tick that found it ending and whose Destroy, if needed, succeeded. */
  lemma OnlyTicksDelete(c: Config, rows: Rows, e: Event, id: Id)
    requires id in rows && RowNext(c, rows, e, id).None?
    ensures e.act.Tick? && e.act.id == id
    ensures var b := rows[id];
            && (b.phase == Destroying || (b.spec.ephemeral && (b.phase == Failed || b.phase == Stopped)))
            && (b.instanceRef == "" || e.act.a.destroy.DestroyOk?)
  {
  }

  lemma BornOk(c: Config, rows: Rows, e: Event)
    requires Born(c, rows, e).Some?
    ensures var (id, b) := Born(c, rows, e).value;
            RowOk(b) && b.phase == Pending && b.deadline.None? && b.lastActive.None? && b.keepAliveUntil.None?
            && b.instanceRef == ""
            && !b.agentConnected && forall i :: i in rows ==> !Named(rows[i], b.spec.tenant, b.spec.owner, b.spec.name)
  {
  }

  lemma UniqueAfter(c: Config, rows: Rows, e: Event)
    requires Unique(rows)
    ensures Unique(RowsNext(c, rows, e))
  {
    forall id | id in rows && RowNext(c, rows, e, id).Some?
      ensures RowNext(c, rows, e, id).value.spec == rows[id].spec {
      RowNextFollows(c, rows, e, id);
    }
    if Born(c, rows, e).Some? {
      BornOk(c, rows, e);
    }
    hide RowNext, Born;
  }

  lemma StepGood(c: Config, s: World, e: Event)
    requires Good(s)
    ensures Good(Step(c, s, e))
  {
    var rows, rows' := s.rows, Step(c, s, e).rows;
    forall id | id in rows && id in rows'
      ensures RowOk(rows'[id]) && rows'[id].spec == rows[id].spec
    {
      RowNextFollows(c, rows, e, id);
    }
    if Born(c, rows, e).Some? {
      BornOk(c, rows, e);
    }
  }

  /** Every reachable state is good: no ephemeral box is Suspended, an ephemeral box
      with a deadline is Running or Destroying, every Running box has an activity
      mark, and (tenant, owner, name) is unique. */
  lemma {:induction false} AlwaysGood(c: Config, s: World, es: seq<Event>, n: nat)
    requires n <= |es| && Good(s)
    ensures Good(At(c, s, es, n))
  {
    if n > 0 {
      AlwaysGood(c, s, es, n - 1);
      StepGood(c, At(c, s, es, n - 1), es[n - 1]);
    }
  }

  // ---- no cap ----

  /** No way of creating a box sets a lifetime cap, and none changes it later. */
  lemma {:induction false} NeverCapped(c: Config, es: seq<Event>, n: nat, id: Id)
    requires n <= |es| && id in At(c, INIT, es, n).rows
    ensures At(c, INIT, es, n).rows[id].spec.maxTTL == 0
    ensures forall now :: !PastMaxTTL(At(c, INIT, es, n).rows[id], now)
  {
    hide Step, RowNext;
    if n > 0 {
      var rows := At(c, INIT, es, n - 1).rows;
      RowAt(c, INIT, es, n - 1, id);
      if id in rows {
        NeverCapped(c, es, n - 1, id);
        RowNextFollows(c, rows, es[n - 1], id);
      } else {
        hide At;
        BornUncapped(c, rows, es[n - 1]);
      }
    }
  }

  lemma BornUncapped(c: Config, rows: Rows, e: Event)
    requires Born(c, rows, e).Some?
    ensures Born(c, rows, e).value.1.spec.maxTTL == 0
  {
  }

  // ---- phases ----

  /** Every phase any step writes lies in the transition table, though provision, fail and
      Destroy bypass it; rows are born Pending; and a box on its way out never comes back. */
  lemma PhaseSafety(c: Config, s: World, es: seq<Event>, n: nat, id: Id)
    requires n < |es| && id in At(c, s, es, n + 1).rows
    ensures var rows, b' := At(c, s, es, n).rows, At(c, s, es, n + 1).rows[id];
            if id in rows then
              CanTransition(rows[id].phase, b'.phase) && (Ending(rows[id].phase) ==> Ending(b'.phase))
            else b'.phase == Pending
  {
    RowAt(c, s, es, n, id);
    var rows := At(c, s, es, n).rows;
    if id in rows {
      RowNextFollows(c, rows, es[n], id);
    } else {
      BornOk(c, rows, es[n]);
    }
  }

  // ---- fresh ids ----

  lemma {:induction false} Origin(c: Config, s: World, es: seq<Event>, n: nat, id: Id)
    requires n <= |es| && id in At(c, s, es, n).rows
    ensures id in s.rows || exists k :: 0 <= k < n && Creates(es[k], id)
  {
    hide Step;
    if n > 0 {
      RowAt(c, s, es, n - 1, id);
      if id in At(c, s, es, n - 1).rows {
        Origin(c, s, es, n - 1, id);
      }
    }
  }

  /** A deleted box never returns: a row present at m and at n was present in between. */
  lemma {:induction false} Present(c: Config, s: World, es: seq<Event>, m: nat, n: nat, id: Id)
    requires m <= n <= |es| && FreshIds(s, es)
    requires id in At(c, s, es, m).rows && id in At(c, s, es, n).rows
    ensures forall k :: m <= k <= n ==> id in At(c, s, es, k).rows
  {
    hide Step;
    if m < n {
      RowAt(c, s, es, n - 1, id);
      Origin(c, s, es, m, id);
      assert id in At(c, s, es, n - 1).rows;
      Present(c, s, es, m, n - 1, id);
    }
  }

  /** Destroying is left only by deletion. */
  lemma {:induction false} DestroyingIsFinal(c: Config, s: World, es: seq<Event>, m: nat, n: nat, id: Id)
    requires m <= n <= |es| && FreshIds(s, es)
    requires id in At(c, s, es, m).rows && At(c, s, es, m).rows[id].phase == Destroying
    requires id in At(c, s, es, n).rows
    ensures At(c, s, es, n).rows[id].phase == Destroying
  {
    hide Step;
    if m < n {
      Present(c, s, es, m, n, id);
      DestroyingIsFinal(c, s, es, m, n - 1, id);
      PhaseSafety(c, s, es, n - 1, id);
    }
  }

  /** Name, owner, tier and lifetime settings of a box never change. */
  lemma {:induction false} IdentityIsConstant(c: Config, s: World, es: seq<Event>, m: nat, n: nat, id: Id)
    requires m <= n <= |es| && FreshIds(s, es)
    requires id in At(c, s, es, m).rows && id in At(c, s, es, n).rows
    ensures var b, b' := At(c, s, es, m).rows[id], At(c, s, es, n).rows[id];
            b'.spec == b.spec
  {
    hide Step, RowNext;
    if m < n {
      Present(c, s, es, m, n, id);
      IdentityIsConstant(c, s, es, m, n - 1, id);
      RowAt(c, s, es, n - 1, id);
      RowNextFollows(c, At(c, s, es, n - 1).rows, es[n - 1], id);
    }
  }

  // ---- instances ----

  /** Each instance compute holds is the InstanceRef of a row in the store. */
  ghost predicate NoOrphans(s: World) {
    forall r :: r in s.insts ==> r != "" && s.insts[r] in s.rows && s.rows[s.insts[r]].instanceRef == r
  }

  /** How a tick's question and answer decide the row's instance. */
  lemma TickRow(c: Config, b: Box, now: int, a: Answers)
    ensures var o := Next(c, b, now, a);
            match o.ask
            case Make(_, called) =>
              o.row.Some? && o.row.value.instanceRef ==
                (if called && a.provision.ProvisionOk? then a.provision.ref else b.instanceRef)
            case Teardown(called) =>
              called == (b.instanceRef != "")
              && o.row == (if called && !a.destroy.DestroyOk? then Some(b) else None)
            case _ => o.row.Some? && o.row.value.instanceRef == b.instanceRef
  {
    match b.phase {
      case Pending =>
      case Provisioning =>
      case Running =>
        if b.spec.ephemeral {
          match EvalLifetime(b, now) {
            case Reap =>
            case SetDeadline(_) =>
            case ClearDeadline =>
            case NoAction =>
          }
        } else if ShouldSuspend(c, b, now) {
        } else if b.agentConnected {
        } else {
        }
      case Suspended =>
      case Stopped =>
      case Failed =>
      case Destroying =>
    }
  }

  /** The tick asks for a Provision that fails and leaves an instance behind. */
  predicate LeavesBehind(c: Config, rows: Rows, e: Event) {
    e.act.Tick? && e.act.id in rows && e.act.a.provision.ProvisionLeft?
    && var ask := Next(c, rows[e.act.id], e.now, e.act.a).ask; ask.Make? && ask.provision
  }

  lemma TickNoOrphans(c: Config, s: World, e: Event)
    requires NoOrphans(s) && e.act.Tick? && FreshRef(s.insts, e.act.id, e.act.a) && !LeavesBehind(c, s.rows, e)
    ensures NoOrphans(Step(c, s, e))
  {
    hide Next;
    if e.act.id in s.rows {
      TickRow(c, s.rows[e.act.id], e.now, e.act.a);
    }
  }

  /** An instance a tick makes, or leaves behind, has a ref of its own. */
  ghost predicate FreshAnswers(s: World, e: Event) {
    e.act.Tick? ==>
      var id, p := e.act.id, e.act.a.provision;
      && FreshRef(s.insts, id, e.act.a)
      && (p.ProvisionLeft? ==> p.ref != "" && p.ref !in s.insts && (id in s.rows ==> p.ref != s.rows[id].instanceRef))
  }

  /** One step keeps the store free of orphans exactly when it asks for no Provision that fails and leaves a new
      instance behind. */
  lemma OrphanIffLeftBehind(c: Config, s: World, e: Event)
    requires NoOrphans(s) && FreshAnswers(s, e)
    ensures NoOrphans(Step(c, s, e)) <==> !LeavesBehind(c, s.rows, e)
  {
    if LeavesBehind(c, s.rows, e) {
      TickRow(c, s.rows[e.act.id], e.now, e.act.a);
      hide Next;
      var s', ref := Step(c, s, e), e.act.a.provision.ref;
      assert ref in s'.insts && s'.insts[ref] == e.act.id;
    } else if e.act.Tick? {
      TickNoOrphans(c, s, e);
    } else {
      OutsideNoOrphans(c, s, e);
    }
  }

  lemma OutsideNoOrphans(c: Config, s: World, e: Event)
    requires NoOrphans(s) && !e.act.Tick?
    ensures NoOrphans(Step(c, s, e))
  {
    var rows' := Step(c, s, e).rows;
    forall id | id in s.rows ensures id in rows' && rows'[id].instanceRef == s.rows[id].instanceRef {
      OnlyTicksTouchInstances(c, s.rows, e, id);
    }
    hide RowNext, Born;
  }

  ghost predicate CleanAt(c: Config, s: World, es: seq<Event>, n: nat)
    requires n <= |es|
  {
    NoOrphans(At(c, s, es, n))
  }

  ghost predicate LeavesBehindAt(c: Config, s: World, es: seq<Event>, n: nat)
    requires n < |es|
  {
    LeavesBehind(c, At(c, s, es, n).rows, es[n])
  }

  ghost predicate NothingLeft(c: Config, s: World, es: seq<Event>, n: nat)
    requires n <= |es|
  {
    forall k :: 0 <= k < n ==> !LeavesBehindAt(c, s, es, k)
  }

  ghost predicate FreshRun(c: Config, s: World, es: seq<Event>) {
    forall n :: 0 <= n < |es| ==> FreshAnswers(At(c, s, es, n), es[n])
  }

  /** Over runs, exactly: no state up to n has an orphan if and only if no tick so far left an instance behind. */
  lemma {:induction false} NoOrphansIff(c: Config, s: World, es: seq<Event>, n: nat)
    requires n <= |es| && NoOrphans(s) && FreshRun(c, s, es)
    ensures (forall k :: 0 <= k <= n ==> CleanAt(c, s, es, k)) <==> NothingLeft(c, s, es, n)
  {
    hide Step, NoOrphans, LeavesBehind, FreshAnswers;
    if n == 0 {
      assert CleanAt(c, s, es, 0);
    } else {
      NoOrphansIff(c, s, es, n - 1);
      var before := At(c, s, es, n - 1);
      assert CleanAt(c, s, es, n - 1) <==> NoOrphans(before);
      assert LeavesBehindAt(c, s, es, n - 1) <==> LeavesBehind(c, before.rows, es[n - 1]);
      assert CleanAt(c, s, es, n) <==> NoOrphans(Step(c, before, es[n - 1]));
      if NoOrphans(before) {
        OrphanIffLeftBehind(c, before, es[n - 1]);
      }
      assert NothingLeft(c, s, es, n) <==> NothingLeft(c, s, es, n - 1) && !LeavesBehindAt(c, s, es, n - 1);
    }
  }

  /** In particular while compute answers by the port's contract. */
  lemma NeverAnOrphan(c: Config, s: World, es: seq<Event>, n: nat)
    requires n <= |es| && NoOrphans(s) && LawfulRun(c, s, es)
    ensures NoOrphans(At(c, s, es, n))
  {
    hide At, NoOrphans, Next;
    NoOrphansIff(c, s, es, n);
    assert CleanAt(c, s, es, n);
  }

  /** A workspace is created and its first start fails after the container was made. */
  function OrphaningRun(c: Config, a: Answers): seq<Event> {
    [Event(0, CreateWorkspace("1", c.tenant, "owner", "name", "image")), Event(0, Tick("1", a))]
  }

  /** The run that shows it: from the empty store, compute ends up holding an instance no row names. */
  lemma FailedStartOrphans(c: Config, a: Answers, ref: Ref)
    requires a.hookOk && a.provision == ProvisionLeft(ref) && ref != ""
    ensures var s := At(c, INIT, OrphaningRun(c, a), 2);
            ref in s.insts && !NoOrphans(s) && "1" in s.rows && s.rows["1"].phase == Failed
  {
    var es := OrphaningRun(c, a);
    var b := NewBox(BoxSpec(c.tenant, "owner", "name", "image", "", false, 0, 0, 0));
    assert At(c, INIT, es, 0) == INIT;
    assert At(c, INIT, es, 1) == World(map["1" := b], map[]);
    var s := At(c, INIT, es, 2);
    assert s.insts == map[ref := "1"] && s.rows["1"].instanceRef == "";
  }

  /** A row disappears only in a tick on it that found it ending, and only once the
      Destroy of its instance succeeded; nothing of it is left in compute. */
  lemma DeletionIsEarned(c: Config, s: World, es: seq<Event>, n: nat, id: Id)
    requires n < |es| && NoOrphans(s) && LawfulRun(c, s, es)
    requires id in At(c, s, es, n).rows && id !in At(c, s, es, n + 1).rows
    ensures es[n].act.Tick? && es[n].act.id == id
    ensures var b := At(c, s, es, n).rows[id];
            && (b.phase == Destroying || (b.spec.ephemeral && (b.phase.Failed? || b.phase.Stopped?)))
            && (b.instanceRef == "" || es[n].act.a.destroy.DestroyOk?)
    ensures id !in At(c, s, es, n + 1).insts.Values
  {
    hide Step, RowNext;
    NeverAnOrphan(c, s, es, n + 1);
    RowAt(c, s, es, n, id);
    OnlyTicksDelete(c, At(c, s, es, n).rows, es[n], id);
  }

  /** A persistent row is torn down only because someone asked for it earlier in the run. */
  lemma {:induction false} TeardownWasAsked(c: Config, s: World, es: seq<Event>, n: nat, id: Id)
    requires n <= |es| && id in At(c, s, es, n).rows
    requires id in s.rows ==> s.rows[id].phase != Destroying
    requires !At(c, s, es, n).rows[id].spec.ephemeral && At(c, s, es, n).rows[id].phase == Destroying
    ensures exists k :: 0 <= k < n && es[k].act == DestroyBox(id) && id in At(c, s, es, k).rows
  {
    hide Step, RowNext, Born;
    var rows := At(c, s, es, n - 1).rows;
    RowAt(c, s, es, n - 1, id);
    if id in rows {
      RowNextFollows(c, rows, es[n - 1], id);
      if rows[id].phase == Destroying {
        TeardownWasAsked(c, s, es, n - 1, id);
      } else {
        OnlyDestroyTearsDown(c, rows, es[n - 1], id);
      }
    } else {
      BornOk(c, rows, es[n - 1]);
    }
  }

  /** No unasked deletion of a persistent box. */
  lemma PersistentDeletionWasAsked(c: Config, s: World, es: seq<Event>, n: nat, id: Id)
    requires n < |es| && NoOrphans(s) && LawfulRun(c, s, es)
    requires id in s.rows ==> s.rows[id].phase != Destroying
    requires id in At(c, s, es, n).rows && id !in At(c, s, es, n + 1).rows
    requires !At(c, s, es, n).rows[id].spec.ephemeral
    ensures exists k :: 0 <= k < n && es[k].act == DestroyBox(id) && id in At(c, s, es, k).rows
  {
    DeletionIsEarned(c, s, es, n, id);
    TeardownWasAsked(c, s, es, n, id);
  }
}
