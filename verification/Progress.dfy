/** Progress of the reconciler: no livelock without outside events, and reaping
    that depends on sweeps alone. */
module Progress {
  import opened Common
  import opened Phases
  import opened Boxes
  import opened Lifecycle
  import opened Safety

  // ---- no livelock ----

  /** How many more phase changes ticks alone can make of a row. */
  function Rank(b: Box): nat {
    var e := if b.spec.ephemeral then 1 else 0;
    match b.phase
    case Destroying => 1
    case Failed => e
    case Stopped => e
    case Pending => 2 + e
    case Provisioning => if b.agentConnected then 2 + e else 1 + e
    case Running => if b.agentConnected then 1 + e else 2 + e
    case Suspended => if b.attached then 3 + e else 0
  }

  function RankIn(rows: Rows, id: Id): nat {
    if id in rows then Rank(rows[id]) else 0
  }

  /** The rank strictly drops whenever a tick changes a box's phase or deletes it, and never rises. */
  lemma TickLowersRank(c: Config, b: Box, now: int, a: Answers)
    ensures var row := Next(c, b, now, a).row;
            if row.None? then Rank(b) > 0
            else Rank(row.value) <= Rank(b) && (row.value.phase != b.phase ==> Rank(row.value) < Rank(b))
  {
    match b.phase {
      case Running =>
        if b.spec.ephemeral {
          match EvalLifetime(b, now) { case Reap => case _ => }
        } else if ShouldSuspend(c, b, now) {
        } else {
        }
      case _ =>
    }
  }

  predicate TicksOnly(es: seq<Event>) {
    forall n :: 0 <= n < |es| ==> es[n].act.Tick?
  }

  ghost predicate PhaseChanged(rows: Rows, rows': Rows, id: Id) {
    id in rows && (id !in rows' || rows'[id].phase != rows[id].phase)
  }

  ghost function PhaseChanges(c: Config, s: World, es: seq<Event>, n: nat, id: Id): nat
    requires n <= |es|
  {
    if n == 0 then 0
    else PhaseChanges(c, s, es, n - 1, id)
         + if PhaseChanged(At(c, s, es, n - 1).rows, At(c, s, es, n).rows, id) then 1 else 0
  }

  lemma StepLowersRank(c: Config, s: World, e: Event, id: Id)
    requires e.act.Tick?
    ensures var rows' := Step(c, s, e).rows;
            RankIn(rows', id) + (if PhaseChanged(s.rows, rows', id) then 1 else 0) <= RankIn(s.rows, id)
  {
    if id in s.rows {
      TickLowersRank(c, s.rows[id], e.now, e.act.a);
      hide Next, Rank;
    }
  }

  /** With no outside event, whatever the clock and compute do, a box changes phase at most
      Rank many times, which in every reachable state is at most three. */
  lemma {:induction false} NoLivelock(c: Config, s: World, es: seq<Event>, n: nat, id: Id)
    requires n <= |es| && TicksOnly(es)
    ensures PhaseChanges(c, s, es, n, id) + RankIn(At(c, s, es, n).rows, id) <= RankIn(s.rows, id)
    ensures Good(s) ==> PhaseChanges(c, s, es, n, id) <= 3
  {
    hide Step, PhaseChanged;
    if n > 0 {
      NoLivelock(c, s, es, n - 1, id);
      StepLowersRank(c, At(c, s, es, n - 1), es[n - 1], id);
    }
  }

  /** The bound is met in both tiers: an ephemeral box can be built, fail and be deleted; ... */
  lemma ThreeChangesOfEphemeral(c: Config, b: Box, now: int, a: Answers)
    requires b.phase == Pending && b.spec.ephemeral && a.hookOk && a.status == Dead && a.destroy == DestroyOk
    requires a.provision.ProvisionOk? && a.provision.ref != ""
    ensures var b1 := Next(c, b, now, a).row;
            && b1.Some? && b1.value.phase == Provisioning
            && var b2 := Next(c, b1.value, now, a).row;
            && b2.Some? && b2.value.phase == Failed && Next(c, b2.value, now, a).row == None
  {
  }

  /** ... and a persistent suspended box whose owner attaches can resume, die, be rebuilt and fail. */
  lemma ThreeChangesHappen(c: Config, b: Box, now: int, a: Answers)
    requires c.suspender && b.phase == Suspended && b.attached && !b.spec.ephemeral && !b.agentConnected
    requires b.instanceRef != "" && a.resumeOk && a.hookOk && a.status == Dead
    requires a.provision.ProvisionOk? && a.provision.ref != ""
    ensures var b1 := Next(c, b, now, a).row;
            && b1.Some? && b1.value.phase == Running
            && var b2 := Next(c, b1.value, now, a).row;
            && b2.Some? && b2.value.phase == Provisioning
            && var b3 := Next(c, b2.value, now, a).row;
            && b3.Some? && b3.value.phase == Failed && Rank(b3.value) == 0 && Rank(b) == 3
  {
  }

  // ---- bounded reap ----

  /** The box will not survive a tick at or after `due`, provided it stays detached. */
  ghost predicate Doomed(b: Box, due: int) {
    b.phase == Destroying
    || (b.phase == Running && b.spec.ephemeral && b.deadline.Some? && b.deadline.value <= due)
  }

  lemma DoomedStays(c: Config, rows: Rows, e: Event, id: Id, due: int)
    requires id in rows && Doomed(rows[id], due) && !rows[id].attached
    ensures RowNext(c, rows, e, id).Some? ==>
              Doomed(RowNext(c, rows, e, id).value, due)
              && (e.act.Tick? && e.act.id == id && e.now >= due ==> RowNext(c, rows, e, id).value.phase == Destroying)
  {
  }

  /** Event i is the tick that first found box id detached. */
  ghost predicate FirstDetached(c: Config, s: World, es: seq<Event>, i: nat, id: Id) {
    && i < |es| && IsTick(es[i], id) && id in At(c, s, es, i).rows
    && var b := At(c, s, es, i).rows[id];
    && b.phase == Running && b.spec.ephemeral && b.deadline.None?
  }

  ghost predicate LeftDetached(c: Config, s: World, es: seq<Event>, i: nat, j: nat, id: Id)
    requires j <= |es|
  {
    forall m :: i <= m < j && id in At(c, s, es, m).rows ==> !At(c, s, es, m).rows[id].attached
  }

  ghost function Due(c: Config, s: World, es: seq<Event>, i: nat, id: Id): int
    requires FirstDetached(c, s, es, i, id)
  {
    es[i].now + At(c, s, es, i).rows[id].spec.grace
  }

  lemma FoundDetached(c: Config, rows: Rows, e: Event, id: Id)
    requires id in rows && e.act.Tick? && e.act.id == id
    requires rows[id].phase == Running && rows[id].spec.ephemeral && rows[id].deadline.None? && !rows[id].attached
    ensures RowNext(c, rows, e, id).Some? && Doomed(RowNext(c, rows, e, id).value, e.now + rows[id].spec.grace)
  {
  }

  /** From the first tick that found the box detached on, it is doomed. */
  lemma {:induction false} DoomedFrom(c: Config, s: World, es: seq<Event>, i: nat, k: nat, id: Id)
    requires i < k <= |es| && FreshIds(s, es)
    requires FirstDetached(c, s, es, i, id)
    requires LeftDetached(c, s, es, i, k, id)
    requires id in At(c, s, es, k).rows
    ensures Doomed(At(c, s, es, k).rows[id], Due(c, s, es, i, id))
  {
    hide Step, RowNext, Doomed;
    var rows := At(c, s, es, k - 1).rows;
    RowAt(c, s, es, k - 1, id);
    if i < k - 1 {
      Present(c, s, es, i, k, id);
      DoomedFrom(c, s, es, i, k - 1, id);
      DoomedStays(c, rows, es[k - 1], id, Due(c, s, es, i, id));
    } else {
      FoundDetached(c, rows, es[i], id);
    }
  }

  /** Whichever wake-ups are lost: a Running ephemeral box first found detached at time t and
      left detached is Destroying, or already gone, after any tick at or after t + Grace. */
  lemma ReapedInTime(c: Config, s: World, es: seq<Event>, i: nat, j: nat, id: Id)
    requires i < j < |es| && FreshIds(s, es)
    requires FirstDetached(c, s, es, i, id)
    requires LeftDetached(c, s, es, i, j + 1, id)
    requires IsTick(es[j], id) && es[j].now >= Due(c, s, es, i, id)
    ensures id in At(c, s, es, j + 1).rows ==> At(c, s, es, j + 1).rows[id].phase == Destroying
  {
    hide Step, RowNext, Doomed;
    if id in At(c, s, es, j + 1).rows {
      Present(c, s, es, i, j + 1, id);
      DoomedFrom(c, s, es, i, j, id);
      DoomedStays(c, At(c, s, es, j).rows, es[j], id, Due(c, s, es, i, id));
      RowAt(c, s, es, j, id);
    }
  }

  /** A Destroying box and its instance are gone after the next tick whose Destroy succeeds. */
  lemma TeardownCompletes(c: Config, s: World, es: seq<Event>, m: nat, id: Id)
    requires m < |es| && NoOrphans(s) && LawfulRun(c, s, es)
    requires id in At(c, s, es, m).rows ==> At(c, s, es, m).rows[id].phase == Destroying
    requires IsTick(es[m], id) && es[m].act.a.destroy == DestroyOk
    ensures id !in At(c, s, es, m + 1).rows && id !in At(c, s, es, m + 1).insts.Values
  {
    NeverAnOrphan(c, s, es, m + 1);
    RowAt(c, s, es, m, id);
    hide Step, AttachOf;
  }

  /** Reap, end to end: found detached at i, past its grace at j, destroyed at m. */
  lemma ReapIsBounded(c: Config, s: World, es: seq<Event>, i: nat, j: nat, m: nat, id: Id)
    requires i < j < m < |es| && FreshIds(s, es) && NoOrphans(s) && LawfulRun(c, s, es)
    requires FirstDetached(c, s, es, i, id)
    requires LeftDetached(c, s, es, i, j + 1, id)
    requires IsTick(es[j], id) && es[j].now >= Due(c, s, es, i, id)
    requires IsTick(es[m], id) && es[m].act.a.destroy == DestroyOk
    ensures id !in At(c, s, es, m + 1).rows && id !in At(c, s, es, m + 1).insts.Values
  {
    hide Step;
    if id in At(c, s, es, m).rows {
      Present(c, s, es, i, m, id);
      ReapedInTime(c, s, es, i, j, id);
      DestroyingIsFinal(c, s, es, j + 1, m, id);
    }
    TeardownCompletes(c, s, es, m, id);
  }
}
