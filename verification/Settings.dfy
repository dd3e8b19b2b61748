/** What the metadata commands (internal/core/boxmeta/boxmeta.go) leave over a run: each setting of a box is the
    argument of the latest command of its kind that reached the box, or the value the box was created with. */
module Settings {
  import opened Common
  import opened Boxes
  import opened Lifecycle
  import opened Safety
  import Decisions

  /** The settings of a box besides its keep-alive pin: load report, auto-suspend flag, idle timeout. */
  datatype Kind = Report | Flag | Timeout

  datatype Value = Number(n: real) | Truth(t: bool) | Span(d: int)

  function ValueOf(b: Box, kind: Kind): Value {
    match kind
    case Report => Number(b.load)
    case Flag => Truth(b.autoSuspend)
    case Timeout => Span(b.idleOverride)
  }

  /** The value a command asks for, if it is of that kind. */
  function Asked(cmd: Command, kind: Kind): Option<Value> {
    match cmd
    case Heartbeat(load) => if kind == Report then Some(Number(load)) else None
    case AutoSuspend(on) => if kind == Flag then Some(Truth(on)) else None
    case Idle(t) => if kind == Timeout then Some(Span(t)) else None
    case KeepAlive(_) => None
  }

  /** Event k is a command of that kind from the box's own address. */
  ghost predicate Sets(c: Config, es: seq<Event>, k: nat, id: Id, kind: Kind)
    requires k < |es|
  {
    var rows := At(c, INIT, es, k).rows;
    && id in rows && es[k].act.Meta? && es[k].act.id == id && es[k].act.ip == rows[id].ip && rows[id].ip != ""
    && Asked(es[k].act.cmd, kind).Some?
  }

  ghost predicate LastSet(c: Config, es: seq<Event>, k: nat, n: nat, id: Id, kind: Kind)
    requires k < n <= |es|
  {
    Sets(c, es, k, id, kind) && forall j :: k < j < n ==> !Sets(c, es, j, id, kind)
  }

  /** Event m created the box. */
  ghost predicate BornAt(c: Config, es: seq<Event>, m: nat, id: Id)
    requires m < |es|
  {
    Creates(es[m], id) && id !in At(c, INIT, es, m).rows && id in At(c, INIT, es, m + 1).rows
  }

  /** No load, no timeout of its own, and auto-suspend for an identified owner who attached. */
  function AtBirth(c: Config, e: Event, kind: Kind): Value {
    match kind
    case Report => Number(0.0)
    case Flag => Truth(e.act.Attach? && c.persistent(e.act.owner))
    case Timeout => Span(0)
  }

  /** The setting as the run so far explains it. */
  ghost predicate Explained(c: Config, es: seq<Event>, n: nat, id: Id, kind: Kind)
    requires n <= |es| && id in At(c, INIT, es, n).rows
  {
    var value := ValueOf(At(c, INIT, es, n).rows[id], kind);
    || (exists k: nat :: k < n && LastSet(c, es, k, n, id, kind) && Asked(es[k].act.cmd, kind) == Some(value))
    || ((forall k: nat :: k < n ==> !Sets(c, es, k, id, kind))
        && exists m: nat :: m < n && BornAt(c, es, m, id) && value == AtBirth(c, es[m], kind))
  }

  lemma SettingStep(c: Config, rows: Rows, e: Event, id: Id, kind: Kind)
    requires id in rows && RowNext(c, rows, e, id).Some?
    ensures var b, r := rows[id], RowNext(c, rows, e, id).value;
            ValueOf(r, kind) ==
              if e.act.Meta? && e.act.id == id && e.act.ip == b.ip && b.ip != "" && Asked(e.act.cmd, kind).Some?
              then Asked(e.act.cmd, kind).value else ValueOf(b, kind)
  {
    hide Next, Applied, AttachOf;
    if e.act.Tick? {
      if e.act.id == id {
        Decisions.TickSettings(c, rows[id], e.now, e.act.a);
      }
    } else {
      Decisions.OutsideSettings(c, rows, e, id);
      hide RowNext;
    }
  }

  lemma BirthValue(c: Config, rows: Rows, e: Event, kind: Kind)
    requires Born(c, rows, e).Some?
    ensures ValueOf(Born(c, rows, e).value.1, kind) == AtBirth(c, e, kind)
  {
    if e.act.Attach? {
      Decisions.AttachBorn(c, rows, e.act.owner, e.act.username, e.act.newId, e.now);
      Decisions.CreatedRow(c, rows, e.act.owner, e.act.username, e.act.newId, e.now);
      hide AttachOf, Born;
    } else if e.act.CreateWorkspace? {
      Decisions.WorkspaceBorn(c, rows, e);
      hide Born;
    }
  }

  /** Over any run each setting is that of the latest command that reached the box, or its value at birth. */
  lemma {:induction false} SettingIsLatest(c: Config, es: seq<Event>, n: nat, id: Id, kind: Kind)
    requires n <= |es| && FreshIds(INIT, es) && id in At(c, INIT, es, n).rows
    ensures Explained(c, es, n, id, kind)
  {
    hide Step, RowNext, Born, ValueOf, Asked, AtBirth;
    var rows := At(c, INIT, es, n - 1).rows;
    RowAt(c, INIT, es, n - 1, id);
    if id in rows {
      SettingIsLatest(c, es, n - 1, id, kind);
      SettingStep(c, rows, es[n - 1], id, kind);
      StaysExplained(c, es, n, id, kind);
    } else {
      BirthValue(c, rows, es[n - 1], kind);
      forall k: nat | k < n ensures !Sets(c, es, k, id, kind) {
        if id in At(c, INIT, es, k).rows {
          Present(c, INIT, es, k, n, id);
        }
      }
      assert BornAt(c, es, n - 1, id);
    }
  }

  lemma StaysExplained(c: Config, es: seq<Event>, n: nat, id: Id, kind: Kind)
    requires 0 < n <= |es| && id in At(c, INIT, es, n - 1).rows && id in At(c, INIT, es, n).rows
    requires Explained(c, es, n - 1, id, kind)
    requires var b, r := At(c, INIT, es, n - 1).rows[id], At(c, INIT, es, n).rows[id];
             ValueOf(r, kind) == if Sets(c, es, n - 1, id, kind) then Asked(es[n - 1].act.cmd, kind).value
                                 else ValueOf(b, kind)
    ensures Explained(c, es, n, id, kind)
  {
    hide At, ValueOf, Asked, AtBirth, BornAt;
    var value := ValueOf(At(c, INIT, es, n - 1).rows[id], kind);
    if Sets(c, es, n - 1, id, kind) {
      assert LastSet(c, es, n - 1, n, id, kind);
    } else if exists k: nat ::
                k < n - 1 && LastSet(c, es, k, n - 1, id, kind) && Asked(es[k].act.cmd, kind) == Some(value)
    {
      var k: nat :| k < n - 1 && LastSet(c, es, k, n - 1, id, kind) && Asked(es[k].act.cmd, kind) == Some(value);
      assert LastSet(c, es, k, n, id, kind);
    } else {
      var m: nat :| m < n - 1 && BornAt(c, es, m, id) && value == AtBirth(c, es[m], kind);
    }
  }
}
