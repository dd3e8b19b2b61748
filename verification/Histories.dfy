/** What the reconciler's decisions say about the history of a run: when a box is
    suspended, and when an ephemeral one is reaped. Runs start from an empty store;
    restarts are events of the run. */
module Histories {
  import opened Common
  import opened Phases
  import opened Boxes
  import opened Lifecycle
  import opened Safety

  // ---- grace ----

  /** Tick k found box id Running and detached, and so did every later tick on it before n. */
  ghost predicate DetachedSince(c: Config, es: seq<Event>, k: nat, n: nat, id: Id) {
    && k < n <= |es| && IsTick(es[k], id)
    && forall m :: k <= m < n && IsTick(es[m], id) ==>
         id in At(c, INIT, es, m).rows
         && At(c, INIT, es, m).rows[id].phase == Running && !At(c, INIT, es, m).rows[id].attached
  }

  /** A step onto a Running row with a deadline: the deadline was kept or was just set. */
  lemma DeadlineStep(c: Config, rows: Rows, e: Event, id: Id)
    requires id in rows && RowOk(rows[id]) && RowNext(c, rows, e, id).Some?
    requires RowNext(c, rows, e, id).value.phase == Running && RowNext(c, rows, e, id).value.deadline.Some?
    ensures var b, d := rows[id], RowNext(c, rows, e, id).value.deadline;
            && b.phase == Running
            && (b.deadline != d ==> IsTick(e, id) && d.value == e.now + b.spec.grace)
            && (IsTick(e, id) ==> !b.attached)
  {
    hide AttachOf;
    match e.act {
      case Tick(i, a) => if rows[id].spec.ephemeral { match EvalLifetime(rows[id], e.now) { case _ => } }
      case _ =>
    }
  }

  /** A pending deadline was set by a tick Grace before it, and every tick since found the box detached. */
  lemma {:induction false} DeadlineWitness(c: Config, es: seq<Event>, n: nat, id: Id)
    requires n <= |es| && id in At(c, INIT, es, n).rows
    requires At(c, INIT, es, n).rows[id].phase == Running && At(c, INIT, es, n).rows[id].deadline.Some?
    ensures var b := At(c, INIT, es, n).rows[id];
            exists k: nat :: DetachedSince(c, es, k, n, id) && b.deadline.value == es[k].now + b.spec.grace
  {
    hide Step, RowNext, Born;
    var rows := At(c, INIT, es, n - 1).rows;
    RowAt(c, INIT, es, n - 1, id);
    if id in rows {
      AlwaysGood(c, INIT, es, n - 1);
      DeadlineStep(c, rows, es[n - 1], id);
      RowNextFollows(c, rows, es[n - 1], id);
      if rows[id].deadline == At(c, INIT, es, n).rows[id].deadline {
        DeadlineWitness(c, es, n - 1, id);
        var k: nat :| DetachedSince(c, es, k, n - 1, id) && rows[id].deadline.value == es[k].now + rows[id].spec.grace;
        assert DetachedSince(c, es, k, n, id);
      } else {
        assert DetachedSince(c, es, n - 1, n, id);
      }
    } else {
      BornOk(c, rows, es[n - 1]);
    }
  }

  lemma ReapReasons(c: Config, b: Box, now: int, a: Answers)
    requires b.phase == Running && b.spec.ephemeral && b.spec.grace > 0 && !PastMaxTTL(b, now)
    requires Next(c, b, now, a).row.Some? && Next(c, b, now, a).row.value.phase == Destroying
    ensures !b.attached && b.deadline.Some? && now >= b.deadline.value
  {
  }

  /** Grace is honoured: the reconciler reaps an ephemeral box with Grace > 0 only past its
      MaxTTL, or if some tick at least Grace earlier found it detached and so did every tick since. */
  lemma GraceIsHonoured(c: Config, es: seq<Event>, n: nat, id: Id)
    requires n < |es| && IsTick(es[n], id) && id in At(c, INIT, es, n).rows && id in At(c, INIT, es, n + 1).rows
    requires var b := At(c, INIT, es, n).rows[id];
             b.spec.ephemeral && b.spec.grace > 0 && b.phase == Running
    requires At(c, INIT, es, n + 1).rows[id].phase == Destroying
    ensures var b := At(c, INIT, es, n).rows[id];
            PastMaxTTL(b, es[n].now)
            || exists k: nat :: DetachedSince(c, es, k, n + 1, id) && es[n].now - es[k].now >= b.spec.grace
  {
    hide Step;
    var b := At(c, INIT, es, n).rows[id];
    RowAt(c, INIT, es, n, id);
    assert RowNext(c, At(c, INIT, es, n).rows, es[n], id) == Next(c, b, es[n].now, es[n].act.a).row;
    if !PastMaxTTL(b, es[n].now) {
      ReapReasons(c, b, es[n].now, es[n].act.a);
      DeadlineWitness(c, es, n, id);
      hide RowNext, Next;
      var k: nat :| DetachedSince(c, es, k, n, id) && b.deadline.value == es[k].now + b.spec.grace;
      assert DetachedSince(c, es, k, n + 1, id);
    }
  }

  /** Since no box is ever capped, grace is honoured without exception. */
  lemma GraceIsAlwaysHonoured(c: Config, es: seq<Event>, n: nat, id: Id)
    requires n < |es| && IsTick(es[n], id) && id in At(c, INIT, es, n).rows && id in At(c, INIT, es, n + 1).rows
    requires var b := At(c, INIT, es, n).rows[id];
             b.spec.ephemeral && b.spec.grace > 0 && b.phase == Running
    requires At(c, INIT, es, n + 1).rows[id].phase == Destroying
    ensures exists k: nat ::
              DetachedSince(c, es, k, n + 1, id) && es[n].now - es[k].now >= At(c, INIT, es, n).rows[id].spec.grace
  {
    hide At, DetachedSince;
    GraceIsHonoured(c, es, n, id);
    NeverCapped(c, es, n, id);
  }

  // ---- activity ----

  /** At event k an owner session on box id ended, a busy heartbeat of it arrived, or it became Running. */
  ghost predicate Stirs(c: Config, es: seq<Event>, k: nat, id: Id)
    requires k < |es|
  {
    && id in At(c, INIT, es, k).rows
    && var b := At(c, INIT, es, k).rows[id];
       match es[k].act
       case Release(i) => i == id
       case Meta(i, ip, Heartbeat(load)) => i == id && Reaches(b, ip) && Busy(b, load, c.idle)
       case Tick(i, _) =>
         && i == id && b.phase != Running
         && id in At(c, INIT, es, k + 1).rows && At(c, INIT, es, k + 1).rows[id].phase == Running
       case _ => false
  }

  /** What counts as activity: becoming Running does so only the first time, when nothing came before. */
  ghost predicate Active(c: Config, es: seq<Event>, k: nat, id: Id)
    requires k < |es|
  {
    Stirs(c, es, k, id) && (es[k].act.Tick? ==> forall j :: 0 <= j < k ==> !Stirs(c, es, j, id))
  }

  /** Event k pinned box id alive. */
  ghost predicate Pinned(c: Config, es: seq<Event>, k: nat, id: Id)
    requires k < |es|
  {
    && id in At(c, INIT, es, k).rows
    && es[k].act.Meta? && es[k].act.id == id && es[k].act.cmd.KeepAlive?
    && Reaches(At(c, INIT, es, k).rows[id], es[k].act.ip)
  }

  /** Where event e leaves the activity mark of row b, given the row b' it leaves. */
  ghost function Mark(c: Config, b: Box, b': Box, e: Event, id: Id): Option<int> {
    match e.act
    case Release(i) => if i == id then Some(e.now) else b.lastActive
    case Meta(i, ip, Heartbeat(load)) =>
      if i == id && Reaches(b, ip) && Busy(b, load, c.idle) then Some(e.now) else b.lastActive
    case Tick(i, _) =>
      if i == id && b.phase != Running && b'.phase == Running && b.lastActive.None? then Some(e.now) else b.lastActive
    case _ => b.lastActive
  }

  lemma MarkStep(c: Config, rows: Rows, e: Event, id: Id)
    requires id in rows && RowNext(c, rows, e, id).Some?
    ensures var b' := RowNext(c, rows, e, id).value;
            b'.lastActive == Mark(c, rows[id], b', e, id)
  {
    hide AttachOf;
    match e.act {
      case Tick(i, _) =>
        match rows[id].phase { case Running => case _ => }
      case Meta(_, _, cmd) => match cmd { case Heartbeat(_) => case _ => }
      case _ =>
    }
  }

  /** The activity mark is the time of the latest activity, and is set once there was any. */
  ghost predicate Marked(c: Config, es: seq<Event>, n: nat, id: Id)
    requires n <= |es| && id in At(c, INIT, es, n).rows
  {
    var mark := At(c, INIT, es, n).rows[id].lastActive;
    && (forall k :: 0 <= k < n && Stirs(c, es, k, id) ==> mark.Some?)
    && (forall k :: 0 <= k < n && Active(c, es, k, id) ==> es[k].now <= mark.value)
    && (mark.Some? ==> exists k :: 0 <= k < n && Active(c, es, k, id) && es[k].now == mark.value)
  }

  lemma {:induction false} MarkIsLatestActivity(c: Config, es: seq<Event>, n: nat, id: Id)
    requires n <= |es| && FreshIds(INIT, es) && Monotone(es) && id in At(c, INIT, es, n).rows
    ensures Marked(c, es, n, id)
  {
    hide Step, RowNext, Born;
    var rows := At(c, INIT, es, n - 1).rows;
    RowAt(c, INIT, es, n - 1, id);
    if id in rows {
      MarkIsLatestActivity(c, es, n - 1, id);
      MarkStep(c, rows, es[n - 1], id);
      MarkGrows(c, es, n, id);
    } else {
      BornOk(c, rows, es[n - 1]);
      forall k | 0 <= k < n ensures !Stirs(c, es, k, id) {
        if id in At(c, INIT, es, k).rows {
          Present(c, INIT, es, k, n, id);
        }
      }
    }
  }

  /** The inductive step: the mark moves exactly when the last event is activity. */
  lemma MarkGrows(c: Config, es: seq<Event>, n: nat, id: Id)
    requires 0 < n <= |es| && Monotone(es)
    requires id in At(c, INIT, es, n - 1).rows && id in At(c, INIT, es, n).rows && Marked(c, es, n - 1, id)
    requires var b, b' := At(c, INIT, es, n - 1).rows[id], At(c, INIT, es, n).rows[id];
             b'.lastActive == Mark(c, b, b', es[n - 1], id)
    ensures Marked(c, es, n, id)
  {
    hide At;
    var b, b' := At(c, INIT, es, n - 1).rows[id], At(c, INIT, es, n).rows[id];
    assert b.lastActive.None? ==> forall j :: 0 <= j < n - 1 ==> !Stirs(c, es, j, id);
    if Active(c, es, n - 1, id) {
      assert b'.lastActive == Some(es[n - 1].now);
    } else {
      assert b'.lastActive == b.lastActive;
    }
  }

  // ---- pins ----

  /** The pin is the latest keep-alive's, if there was one. */
  ghost predicate PinKept(c: Config, es: seq<Event>, n: nat, id: Id)
    requires n <= |es| && id in At(c, INIT, es, n).rows
  {
    var pin := At(c, INIT, es, n).rows[id].keepAliveUntil;
    && (pin.None? ==> forall k :: 0 <= k < n ==> !Pinned(c, es, k, id))
    && (pin.Some? ==> exists k :: 0 <= k < n && LatestPin(c, es, k, n, id) && pin.value == es[k].now + es[k].act.cmd.d)
  }

  ghost predicate LatestPin(c: Config, es: seq<Event>, k: nat, n: nat, id: Id)
    requires k < n <= |es|
  {
    Pinned(c, es, k, id) && forall j :: k < j < n ==> !Pinned(c, es, j, id)
  }

  lemma PinStep(c: Config, rows: Rows, e: Event, id: Id)
    requires id in rows && RowNext(c, rows, e, id).Some?
    ensures RowNext(c, rows, e, id).value.keepAliveUntil ==
            if e.act.Meta? && e.act.id == id && e.act.cmd.KeepAlive? && Reaches(rows[id], e.act.ip)
            then Some(e.now + e.act.cmd.d) else rows[id].keepAliveUntil
  {
    hide AttachOf;
    match e.act {
      case Tick(_, _) =>
      case Meta(_, _, cmd) => match cmd { case Heartbeat(_) => case _ => }
      case _ =>
    }
  }

  lemma {:induction false} PinIsLatestKeepAlive(c: Config, es: seq<Event>, n: nat, id: Id)
    requires n <= |es| && FreshIds(INIT, es) && id in At(c, INIT, es, n).rows
    ensures PinKept(c, es, n, id)
  {
    hide Step, RowNext, Born;
    var rows := At(c, INIT, es, n - 1).rows;
    RowAt(c, INIT, es, n - 1, id);
    if id in rows {
      PinIsLatestKeepAlive(c, es, n - 1, id);
      PinStep(c, rows, es[n - 1], id);
      if Pinned(c, es, n - 1, id) {
        assert LatestPin(c, es, n - 1, n, id);
      } else if rows[id].keepAliveUntil.Some? {
        var k :| 0 <= k < n - 1 && LatestPin(c, es, k, n - 1, id)
                 && rows[id].keepAliveUntil.value == es[k].now + es[k].act.cmd.d;
        assert LatestPin(c, es, k, n, id);
      }
    } else {
      BornOk(c, rows, es[n - 1]);
      forall k | 0 <= k < n ensures !Pinned(c, es, k, id) {
        if id in At(c, INIT, es, k).rows {
          Present(c, INIT, es, k, n, id);
        }
      }
    }
  }

  // ---- suspend ----

  /** No activity of the box is younger than timeout at time now. */
  ghost predicate Quiet(c: Config, es: seq<Event>, n: nat, id: Id, now: int, timeout: int)
    requires n <= |es|
  {
    forall k :: 0 <= k < n && Active(c, es, k, id) ==> now - es[k].now >= timeout
  }

  ghost predicate PinExpired(c: Config, es: seq<Event>, n: nat, id: Id, now: int)
    requires n <= |es|
  {
    forall k :: 0 <= k < n && LatestPin(c, es, k, n, id) ==> now > es[k].now + es[k].act.cmd.d
  }

  lemma QuietIffMarkOld(c: Config, es: seq<Event>, n: nat, id: Id, now: int, timeout: int)
    requires n <= |es| && id in At(c, INIT, es, n).rows && Marked(c, es, n, id)
    requires At(c, INIT, es, n).rows[id].lastActive.Some?
    ensures Quiet(c, es, n, id, now, timeout) <==> now - At(c, INIT, es, n).rows[id].lastActive.value >= timeout
  {
  }

  lemma ExpiredIffPinOld(c: Config, es: seq<Event>, n: nat, id: Id, now: int)
    requires n <= |es| && id in At(c, INIT, es, n).rows && PinKept(c, es, n, id)
    ensures var pin := At(c, INIT, es, n).rows[id].keepAliveUntil;
            PinExpired(c, es, n, id, now) <==> (pin.Some? ==> now > pin.value)
  {
    hide At, Pinned;
    forall j, k | 0 <= j < n && 0 <= k < n && LatestPin(c, es, j, n, id) && LatestPin(c, es, k, n, id)
      ensures j == k
    {
    }
  }

  lemma SuspendsIff(c: Config, b: Box, now: int, a: Answers)
    requires b.phase == Running
    ensures Next(c, b, now, a).row.Some? && Next(c, b, now, a).row.value.phase == Suspended
            <==> ShouldSuspend(c, b, now) && a.suspendOk
  {
  }

  /** A tick suspends a Running box exactly when compute takes the snapshot and the box is
      persistent, auto-suspending, connected, detached and lightly loaded, its latest
      keep-alive has run out, and no activity of it is younger than its idle timeout. */
  lemma SuspendHistory(c: Config, es: seq<Event>, n: nat, id: Id)
    requires n < |es| && FreshIds(INIT, es) && Monotone(es)
    requires IsTick(es[n], id) && id in At(c, INIT, es, n).rows && At(c, INIT, es, n).rows[id].phase == Running
    ensures var b, t := At(c, INIT, es, n).rows[id], es[n].now;
            (id in At(c, INIT, es, n + 1).rows && At(c, INIT, es, n + 1).rows[id].phase == Suspended)
            <==>
            (&& c.suspender && es[n].act.a.suspendOk
             && !b.spec.ephemeral && b.autoSuspend && b.agentConnected
             && !b.attached && b.load < c.idle.loadThreshold
             && PinExpired(c, es, n, id, t)
             && Quiet(c, es, n, id, t, if b.idleOverride > 0 then b.idleOverride else c.idle.timeout))
  {
    var b, t := At(c, INIT, es, n).rows[id], es[n].now;
    RowAt(c, INIT, es, n, id);
    assert RowNext(c, At(c, INIT, es, n).rows, es[n], id)
             == Next(c, b, t, es[n].act.a).row by { hide Step, At, Next, AttachOf; }
    hide Step, At, RowNext, Next, Quiet, PinExpired;
    SuspendsIff(c, b, t, es[n].act.a);
    AlwaysGood(c, INIT, es, n);
    MarkIsLatestActivity(c, es, n, id);
    PinIsLatestKeepAlive(c, es, n, id);
    QuietIffMarkOld(c, es, n, id, t, EffectiveIdle(b, c.idle).timeout);
    ExpiredIffPinOld(c, es, n, id, t);
  }
}
