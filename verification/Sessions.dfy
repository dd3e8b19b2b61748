/** Owner sessions against the Attached flag: who an Attach reaches, what a release
    touches, and what an open session protects from. Runs start from an empty store. */
module Sessions {
  import opened Common
  import opened Phases
  import opened Boxes
  import opened Usernames
  import opened Lifecycle
  import opened Safety

  /** Event k opens a session on box id. */
  ghost predicate Opens(c: Config, es: seq<Event>, k: nat, id: Id)
    requires k < |es|
  {
    && es[k].act.Attach?
    && match AttachOf(c, At(c, INIT, es, k).rows, es[k].act.owner, es[k].act.username, es[k].act.newId, es[k].now)
       case Refused => false
       case Reused(i) => i == id
       case Created(i, _) => i == id
  }

  /** Sessions open on box id after n events; none survives a restart of the daemon. */
  ghost function OpenSessions(c: Config, es: seq<Event>, n: nat, id: Id): int
    requires n <= |es|
  {
    if n == 0 then 0
    else if es[n - 1].act.Restart? then 0
    else if es[n - 1].act == Release(id) then OpenSessions(c, es, n - 1, id) - 1
    else if Opens(c, es, n - 1, id) then OpenSessions(c, es, n - 1, id) + 1
    else OpenSessions(c, es, n - 1, id)
  }

  /** Sessions on one box do not overlap, and only open sessions are released. */
  ghost predicate NonOverlapping(c: Config, es: seq<Event>) {
    forall n, id :: 0 <= n <= |es| ==> 0 <= OpenSessions(c, es, n, id) <= 1
  }

  /** No release without an open session. */
  ghost predicate Balanced(c: Config, es: seq<Event>) {
    forall n, id :: 0 <= n <= |es| ==> 0 <= OpenSessions(c, es, n, id)
  }

  // ---- Attached is exactly an open session ----

  /** How a step moves the Attached flag of an existing row. */
  lemma AttachedStep(c: Config, rows: Rows, e: Event, id: Id)
    requires id in rows && RowNext(c, rows, e, id).Some?
    ensures var b, b' := rows[id], RowNext(c, rows, e, id).value;
            b'.attached ==
              match e.act
              case Attach(owner, username, newId) =>
                b.attached || AttachOf(c, rows, owner, username, newId, e.now) == Reused(id)
              case Release(i) => b.attached && i != id
              case Restart(_) => b.attached && b.spec.tenant != c.tenant
              case _ => b.attached
  {
    hide AttachOf;
    match e.act {
      case Meta(_, _, cmd) => match cmd { case Heartbeat(_) => case _ => }
      case _ =>
    }
  }

  lemma {:induction false} NeverOpenedIsClosed(c: Config, es: seq<Event>, n: nat, id: Id)
    requires n <= |es| && forall k :: 0 <= k < n ==> !Opens(c, es, k, id)
    ensures OpenSessions(c, es, n, id) <= 0
  {
    if n > 0 {
      NeverOpenedIsClosed(c, es, n - 1, id);
    }
  }

  /** A session is only ever opened on a box that exists from then on. */
  lemma OpenedExists(c: Config, es: seq<Event>, k: nat, id: Id)
    requires k < |es| && Opens(c, es, k, id)
    ensures id in At(c, INIT, es, k + 1).rows
    ensures var b := At(c, INIT, es, k + 1).rows[id];
            b.attached && b.spec.tenant == c.tenant && b.spec.owner == es[k].act.owner
            && ParseSpec(es[k].act.username, c.durations).Ok?
            && b.spec.name == ParseSpec(es[k].act.username, c.durations).value.name
  {
  }

  /** Of the two ways to create a row, only Attach creates it attached. */
  lemma BornByAttach(c: Config, es: seq<Event>, k: nat, id: Id, b: Box)
    requires k < |es| && Born(c, At(c, INIT, es, k).rows, es[k]) == Some((id, b)) && b.attached
    ensures Opens(c, es, k, id)
  {
  }

  /** A row that appears without an Attach has no session, and never had one. */
  lemma BornDetached(c: Config, es: seq<Event>, k: nat, id: Id)
    requires k < |es| && FreshIds(INIT, es) && Balanced(c, es) && !Opens(c, es, k, id)
    requires id !in At(c, INIT, es, k).rows && id in At(c, INIT, es, k + 1).rows
    ensures !At(c, INIT, es, k + 1).rows[id].attached && OpenSessions(c, es, k + 1, id) == 0
  {
    hide Step, RowNext, Born, AttachOf, Opens;
    RowAt(c, INIT, es, k, id);
    if At(c, INIT, es, k + 1).rows[id].attached {
      BornByAttach(c, es, k, id, At(c, INIT, es, k + 1).rows[id]);
    }
    forall j | 0 <= j < k ensures !Opens(c, es, j, id) {
      if Opens(c, es, j, id) {
        OpenedExists(c, es, j, id);
        Present(c, INIT, es, j + 1, k + 1, id);
      }
    }
    NeverOpenedIsClosed(c, es, k + 1, id);
    assert 0 <= OpenSessions(c, es, k + 1, id);
  }

  /** Only the daemon's own tenant is ever attached to. */
  lemma {:induction false} AttachedIsOurs(c: Config, es: seq<Event>, n: nat, id: Id)
    requires n <= |es| && id in At(c, INIT, es, n).rows && At(c, INIT, es, n).rows[id].attached
    ensures At(c, INIT, es, n).rows[id].spec.tenant == c.tenant
  {
    hide Step, RowNext, Born, AttachOf;
    var rows := At(c, INIT, es, n - 1).rows;
    RowAt(c, INIT, es, n - 1, id);
    if Opens(c, es, n - 1, id) {
      OpenedExists(c, es, n - 1, id);
    } else if id in rows {
      AttachedStep(c, rows, es[n - 1], id);
      RowNextFollows(c, rows, es[n - 1], id);
      AttachedIsOurs(c, es, n - 1, id);
    } else {
      BornByAttach(c, es, n - 1, id, At(c, INIT, es, n).rows[id]);
    }
  }

  /** The flag of the row, if it is stored, says whether a session is open. */
  ghost predicate FlagRight(c: Config, es: seq<Event>, n: nat, id: Id)
    requires n <= |es|
  {
    var rows := At(c, INIT, es, n).rows;
    id in rows ==> (rows[id].attached <==> OpenSessions(c, es, n, id) > 0)
  }

  /** Event k, if it releases the stored box, ends its only session. */
  ghost predicate ReleasesLast(c: Config, es: seq<Event>, k: nat, id: Id)
    requires k < |es|
  {
    es[k].act == Release(id) && id in At(c, INIT, es, k).rows ==> OpenSessions(c, es, k, id) == 1
  }

  /** A release leaves the flag right exactly when the released session was the only one. */
  lemma ReleaseAgreesIffLast(c: Config, es: seq<Event>, n: nat, id: Id)
    requires n < |es| && es[n].act == Release(id) && id in At(c, INIT, es, n).rows
    requires OpenSessions(c, es, n, id) >= 1
    ensures id in At(c, INIT, es, n + 1).rows
    ensures FlagRight(c, es, n + 1, id) <==> ReleasesLast(c, es, n, id)
  {
    RowAt(c, INIT, es, n, id);
    hide Step, AttachOf;
  }

  /** One more event keeps the flag right, as long as it does not release one of several sessions. */
  lemma FlagStaysRight(c: Config, es: seq<Event>, n: nat, id: Id)
    requires n < |es| && FreshIds(INIT, es) && Balanced(c, es)
    requires FlagRight(c, es, n, id) && ReleasesLast(c, es, n, id)
    ensures FlagRight(c, es, n + 1, id)
  {
    hide Step, RowNext, Born, AttachOf;
    var rows, rows' := At(c, INIT, es, n).rows, At(c, INIT, es, n + 1).rows;
    RowAt(c, INIT, es, n, id);
    assert OpenSessions(c, es, n, id) >= 0;
    if id !in rows' {
    } else if Opens(c, es, n, id) {
      OpenedExists(c, es, n, id);
    } else if id in rows {
      AttachedStep(c, rows, es[n], id);
      if rows[id].attached {
        AttachedIsOurs(c, es, n, id);
      }
    } else {
      BornDetached(c, es, n, id);
    }
  }

  ghost predicate RightUpTo(c: Config, es: seq<Event>, n: nat)
    requires n <= |es|
  {
    forall m, id :: 0 <= m <= n ==> FlagRight(c, es, m, id)
  }

  ghost predicate LastUpTo(c: Config, es: seq<Event>, n: nat)
    requires n <= |es|
  {
    forall k, id :: 0 <= k < n ==> ReleasesLast(c, es, k, id)
  }

  /** Overlapping sessions, exactly: the flags of all stored rows are right in every state up to n if and only if
      every release of a stored box so far ended its only session. */
  lemma {:induction false} FlagsRightIff(c: Config, es: seq<Event>, n: nat)
    requires n <= |es| && FreshIds(INIT, es) && Balanced(c, es)
    ensures RightUpTo(c, es, n) <==> LastUpTo(c, es, n)
  {
    hide FlagRight, ReleasesLast;
    if n == 0 {
      forall id ensures FlagRight(c, es, 0, id) { NothingStored(c, es, id); }
    } else {
      FlagsRightIff(c, es, n - 1);
      if LastUpTo(c, es, n) {
        forall id ensures FlagRight(c, es, n, id) {
          assert FlagRight(c, es, n - 1, id) && ReleasesLast(c, es, n - 1, id);
          FlagStaysRight(c, es, n - 1, id);
        }
      }
      if RightUpTo(c, es, n) {
        var k: nat := n - 1;
        forall id ensures ReleasesLast(c, es, k, id) {
          assert FlagRight(c, es, n, id);
          WrongReleaseShows(c, es, k, id);
        }
      }
    }
  }

  lemma NothingStored(c: Config, es: seq<Event>, id: Id)
    ensures FlagRight(c, es, 0, id)
  {
  }

  lemma WrongReleaseShows(c: Config, es: seq<Event>, n: nat, id: Id)
    requires n < |es| && Balanced(c, es) && FlagRight(c, es, n + 1, id)
    ensures ReleasesLast(c, es, n, id)
  {
    if es[n].act == Release(id) && id in At(c, INIT, es, n).rows {
      assert OpenSessions(c, es, n + 1, id) >= 0;
      ReleaseAgreesIffLast(c, es, n, id);
    }
  }

  /** In one process with non-overlapping sessions, a stored row is Attached exactly while its session is open. */
  lemma AttachedIffOpen(c: Config, es: seq<Event>, n: nat, id: Id)
    requires n <= |es| && FreshIds(INIT, es) && NonOverlapping(c, es) && id in At(c, INIT, es, n).rows
    ensures At(c, INIT, es, n).rows[id].attached <==> OpenSessions(c, es, n, id) == 1
    ensures At(c, INIT, es, n).rows[id].attached ==> At(c, INIT, es, n).rows[id].spec.tenant == c.tenant
  {
    hide At;
    forall k, i | 0 <= k < n ensures ReleasesLast(c, es, k, i) {
      assert 0 <= OpenSessions(c, es, k, i) <= 1 && 0 <= OpenSessions(c, es, k + 1, i);
    }
    FlagsRightIff(c, es, n);
    assert FlagRight(c, es, n, id);
    if At(c, INIT, es, n).rows[id].attached {
      AttachedIsOurs(c, es, n, id);
    }
  }

  /** While its owner's session is open the reconciler never suspends a Running box, and reaps it only past MaxTTL. */
  lemma OpenSessionProtects(c: Config, es: seq<Event>, n: nat, id: Id)
    requires n < |es| && FreshIds(INIT, es) && NonOverlapping(c, es)
    requires IsTick(es[n], id) && id in At(c, INIT, es, n).rows && At(c, INIT, es, n).rows[id].phase == Running
    requires OpenSessions(c, es, n, id) == 1
    ensures id in At(c, INIT, es, n + 1).rows
    ensures var b, b' := At(c, INIT, es, n).rows[id], At(c, INIT, es, n + 1).rows[id];
            b'.phase != Suspended && (b'.phase == Destroying ==> PastMaxTTL(b, es[n].now))
  {
    hide Step, AttachOf;
    AttachedIffOpen(c, es, n, id);
    RowAt(c, INIT, es, n, id);
  }

  /** And since no box is ever capped, an open session keeps a Running box from being suspended or reaped at all. */
  lemma OpenSessionHolds(c: Config, es: seq<Event>, n: nat, id: Id)
    requires n < |es| && FreshIds(INIT, es) && NonOverlapping(c, es)
    requires IsTick(es[n], id) && id in At(c, INIT, es, n).rows && At(c, INIT, es, n).rows[id].phase == Running
    requires OpenSessions(c, es, n, id) == 1
    ensures id in At(c, INIT, es, n + 1).rows
    ensures var b' := At(c, INIT, es, n + 1).rows[id];
            b'.phase != Suspended && b'.phase != Destroying
  {
    hide At;
    OpenSessionProtects(c, es, n, id);
    NeverCapped(c, es, n, id);
  }

  /** A run that shows it: two sessions on one box, one release, and the flag is down with a session open. */
  lemma OverlapDetaches(c: Config, owner: string)
    requires c.backends == ["docker"]
    ensures var es := [Event(0, Attach(owner, "a", "1")), Event(1, Attach(owner, "a", "2")), Event(2, Release("1"))];
            "1" in At(c, INIT, es, 3).rows && !At(c, INIT, es, 3).rows["1"].attached && OpenSessions(c, es, 3, "1") == 1
  {
    hide ParseSpec, Build, AttachOf, Lookup;
    var es := [Event(0, Attach(owner, "a", "1")), Event(1, Attach(owner, "a", "2")), Event(2, Release("1"))];
    var b := TwoAttaches(c, owner);
    assert At(c, INIT, es, 0) == INIT;
    assert At(c, INIT, es, 1).rows == map["1" := b];
    assert OpenSessions(c, es, 1, "1") == 1;
    assert At(c, INIT, es, 2).rows == map["1" := b];
    assert OpenSessions(c, es, 2, "1") == 2;
  }

  lemma TwoAttaches(c: Config, owner: string) returns (b: Box)
    requires c.backends == ["docker"]
    ensures b.attached && AttachOf(c, map[], owner, "a", "1", 0) == Created("1", b)
    ensures AttachOf(c, map["1" := b], owner, "a", "2", 1) == Reused("1")
  {
    var spec := Spec("a", "", "", "", 0, false, "", "");
    PlainParses("a", "", c.durations);
    b := Build(c, owner, spec, 0).value.(attached := true);
    hide ParseSpec, Build, ResolveBackend;
    assert Named(map["1" := b]["1"], c.tenant, owner, "a");
  }

  // ---- who an Attach reaches ----

  /** Until it is deleted, the owner's Attach by name reaches the same box; it never reaches another owner's. */
  lemma AttachIsStable(c: Config, es: seq<Event>, m: nat, n: nat, id: Id)
    requires m < n < |es| && FreshIds(INIT, es) && Opens(c, es, m, id) && id in At(c, INIT, es, n).rows
    requires es[n].act.Attach? && es[n].act.owner == es[m].act.owner
    requires var p, q := ParseSpec(es[m].act.username, c.durations), ParseSpec(es[n].act.username, c.durations);
             p.Ok? && q.Ok? && p.value.special == "" && q.value.special == "" && p.value.name == q.value.name
    ensures Opens(c, es, n, id)
  {
    hide Step, ParseSpec, Lookup;
    OpenedExists(c, es, m, id);
    IdentityIsConstant(c, INIT, es, m + 1, n, id);
    AlwaysGood(c, INIT, es, n);
    UniqueLookup(At(c, INIT, es, n).rows, c.tenant, es[n].act.owner, id);
  }

  lemma UniqueLookup(rows: Rows, tenant: string, owner: string, id: Id)
    requires Unique(rows) && id in rows && Named(rows[id], tenant, owner, rows[id].spec.name)
    ensures Lookup(rows, tenant, owner, rows[id].spec.name) == Some(id)
  {
  }

  lemma ReleaseOfNothing(c: Config, s: World, e: Event)
    requires e.act.Release? && e.act.id !in s.rows
    ensures Step(c, s, e).rows == s.rows
  {
  }

  /** A stale release - its box is gone - changes no row, whatever box has its name by then. */
  lemma StaleReleaseIsHarmless(c: Config, es: seq<Event>, m: nat, k: nat, n: nat, id: Id)
    requires m < k <= n < |es| && FreshIds(INIT, es) && Opens(c, es, m, id)
    requires id !in At(c, INIT, es, k).rows && es[n].act == Release(id)
    ensures At(c, INIT, es, n + 1).rows == At(c, INIT, es, n).rows
  {
    hide Step, Opens;
    OpenedExists(c, es, m, id);
    if id in At(c, INIT, es, n).rows {
      Present(c, INIT, es, m + 1, n, id);
    }
    ReleaseOfNothing(c, At(c, INIT, es, n), es[n]);
  }

  // ---- the force-new modifier ----

  lemma PlusParses(u: string, dur: DurationReader)
    requires '+' !in u && u != "cli" && u != "sudo" && u != "_"
    ensures match ParseSpec(u, dur)
            case Err => ParseSpec(u + "+", dur) == Err
            case Ok(s) =>
              if s.special != "" then ParseSpec(u + "+", dur).Ok? && ParseSpec(u + "+", dur).value.special != ""
              else ParseSpec(u + "+", dur) == Ok(s.(forceNew := true))
  {
    var v := u + "+";
    LastIndexOfLast(u, "", '+');
    NoPlus(u);
    assert u + ['+'] + [] == v && v[..|u|] == u;
    assert HasPrefix(v, SESSION) <==> HasPrefix(u, SESSION) by { SessionPlus(u); }
    assert v[|u|] == '+' && "cli"[|"cli"| - 1] == 'i' && "sudo"[|"sudo"| - 1] == 'o';
    hide Split, IndexOf, HasPrefix;
    if u == "" {
      EmptyBody();
    }
  }

  lemma NoPlus(u: string)
    requires '+' !in u
    ensures LastIndexOf(u, '+') == -1
  {
  }

  lemma SessionPlus(u: string)
    ensures HasPrefix(u + "+", SESSION) <==> HasPrefix(u, SESSION)
  {
    assert SESSION == "session-" && |SESSION| == 8;
    if |u| >= 8 {
      assert (u + "+")[..8] == u[..8];
    } else if |u| == 7 {
      assert (u + "+")[7] == '+' && SESSION[7] == '-';
    }
  }

  lemma EmptyBody()
    ensures ParseBody("", 0, true) == Err
  {
  }

  /** A bare trailing plus changes nothing: Attach reuses, creates or refuses exactly as without it. */
  lemma PlusIsIgnored(c: Config, rows: Rows, owner: string, u: string, newId: Id, now: int)
    requires '+' !in u && u != "cli" && u != "sudo" && u != "_"
    ensures AttachOf(c, rows, owner, u + "+", newId, now) == AttachOf(c, rows, owner, u, newId, now)
  {
    PlusParses(u, c.durations);
    hide ParseSpec;
  }

  /** Attach spawns no box for a reserved word or a session id. */
  lemma SpecialsAreRefused(c: Config, rows: Rows, owner: string, u: string, newId: Id, now: int)
    requires u == "" || u == "cli" || u == "sudo" || u == "_" || "session-" <= u
    ensures AttachOf(c, rows, owner, u, newId, now) == Refused
  {
    SpecialsParse(if "session-" <= u then u[8..] else "", c.durations);
    assert "session-" <= u ==> u == "session-" + u[8..];
    hide ParseSpec;
  }
}
