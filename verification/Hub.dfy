/** The agent hub (internal/agenthub/agenthub.go): accept loops, one per agent dial,
    compete for one session slot per workspace. Each step below is one lock-level
    action of one loop, or the death of a session; any interleaving is a run. */
module Hubs {
  import opened Common

  type Ws = string

  /** Connected, under the lock: an open session holds the slot. */
  predicate Holds<S(==)>(sessions: map<Ws, S>, closed: set<S>, ws: Ws) {
    ws in sessions && sessions[ws] !in closed
  }

  /** Register, under the lock: a live holder keeps the slot, a dead one is replaced. */
  function RegisterNext<S(==)>(sessions: map<Ws, S>, closed: set<S>, ws: Ws, sess: S): map<Ws, S> {
    if Holds(sessions, closed, ws) then sessions else sessions[ws := sess]
  }

  /** Unregister, under the lock: only the holder gives up the slot. */
  function UnregisterNext<S(==)>(sessions: map<Ws, S>, ws: Ws, sess: S): map<Ws, S> {
    if ws in sessions && sessions[ws] == sess then sessions - {ws} else sessions
  }

  // ---- the object ----

  class Session {
    var closed: bool
  }

  class Hub {
    var sessions: map<Ws, Session>

    constructor ()
      ensures sessions == map[]
    {
      sessions := map[];
    }

    /** The sessions among those given that have closed. */
    ghost function Closed(of: set<Session>): set<Session>
      reads of
    {
      set s | s in of && s.closed
    }

    method Register(ws: Ws, sess: Session) returns (ok: bool)
      modifies this
      ensures ok <==> !(ws in old(sessions) && !old(sessions)[ws].closed)
      ensures sessions == RegisterNext(old(sessions), Closed(old(sessions).Values), ws, sess)
      ensures ok ==> ws in sessions && sessions[ws] == sess
    {
      if ws in sessions {
        assert sessions[ws] in sessions.Values;
        if !sessions[ws].closed {
          return false;
        }
      }
      sessions := sessions[ws := sess];
      return true;
    }

    method Unregister(ws: Ws, sess: Session) returns (removed: bool)
      modifies this
      ensures sessions == UnregisterNext(old(sessions), ws, sess)
      ensures removed <==> ws in old(sessions) && ws !in sessions
    {
      if ws !in sessions || sessions[ws] != sess {
        return false;
      }
      sessions := sessions - {ws};
      return true;
    }

    method Connected(ws: Ws) returns (r: bool)
      ensures r <==> Holds(sessions, Closed(sessions.Values), ws)
    {
      r := ws in sessions && !sessions[ws].closed;
    }

    /** openStream, up to the stream: the session that will carry it, or an error. */
    method SessionFor(ws: Ws) returns (r: Option<Session>)
      ensures r.Some? <==> Holds(sessions, Closed(sessions.Values), ws)
      ensures r.Some? ==> r.value == sessions[ws]
    {
      if ws !in sessions || sessions[ws].closed {
        return None;
      }
      return Some(sessions[ws]);
    }
  }

  // ---- interleaved accept loops ----

  /** Every accept loop owns the session it dialed; sessions name loops. */
  type Sess = nat

  datatype Stage = Dialed | Serving | Refused | Done

  datatype Loop = Loop(ws: Ws, stage: Stage)

  datatype State = State(sessions: map<Ws, Sess>, closed: set<Sess>, loops: map<Sess, Loop>)

  const START := State(map[], {}, map[])

  datatype Move =
    | Dial(sess: Sess, ws: Ws)       // handshake accepted for ws; a fresh session
    | Register(sess: Sess)           // the loop tries to take the slot
    | CloseRefused(sess: Sess)       // a refused loop closes its own session and ends
    | Die(sess: Sess)                // the session closes, for whatever reason
    | Unregister(sess: Sess)         // the loop saw its session close, and ends

  predicate InStage(h: State, sess: Sess, stage: Stage) {
    sess in h.loops && h.loops[sess].stage == stage
  }

  predicate Enabled(h: State, m: Move) {
    match m
    case Dial(sess, _) => sess !in h.loops
    case Register(sess) => InStage(h, sess, Dialed)
    case CloseRefused(sess) => InStage(h, sess, Refused)
    case Die(sess) => sess in h.loops
    case Unregister(sess) => InStage(h, sess, Serving) && sess in h.closed
  }

  function Moved(h: State, sess: Sess, stage: Stage): map<Sess, Loop>
    requires sess in h.loops
  {
    h.loops[sess := h.loops[sess].(stage := stage)]
  }

  predicate Takes(h: State, sess: Sess)
    requires sess in h.loops
  {
    !Holds(h.sessions, h.closed, h.loops[sess].ws)
  }

  function Step(h: State, m: Move): State {
    if !Enabled(h, m) then h
    else match m
      case Dial(sess, ws) => h.(loops := h.loops[sess := Loop(ws, Dialed)])
      case Register(sess) =>
        State(RegisterNext(h.sessions, h.closed, h.loops[sess].ws, sess), h.closed,
              Moved(h, sess, if Takes(h, sess) then Serving else Refused))
      case CloseRefused(sess) => State(h.sessions, h.closed + {sess}, Moved(h, sess, Done))
      case Die(sess) => h.(closed := h.closed + {sess})
      case Unregister(sess) =>
        State(UnregisterNext(h.sessions, h.loops[sess].ws, sess), h.closed, Moved(h, sess, Done))
  }

  function At(ms: seq<Move>, n: nat): State
    requires n <= |ms|
  {
    if n == 0 then START else Step(At(ms, n - 1), ms[n - 1])
  }

  /** Every slot is held by a loop that serves that workspace and has not yet unregistered. */
  predicate Owned(h: State) {
    forall ws :: ws in h.sessions ==> InStage(h, h.sessions[ws], Serving) && h.loops[h.sessions[ws]].ws == ws
  }

  lemma StepOwned(h: State, m: Move)
    requires Owned(h)
    ensures Owned(Step(h, m))
  {
  }

  lemma {:induction false} AlwaysOwned(ms: seq<Move>, n: nat)
    requires n <= |ms|
    ensures Owned(At(ms, n))
  {
    if n > 0 {
      AlwaysOwned(ms, n - 1);
      StepOwned(At(ms, n - 1), ms[n - 1]);
    }
  }

  /** sess is the open session of a loop that serves ws. */
  predicate Serves(h: State, sess: Sess, ws: Ws) {
    InStage(h, sess, Serving) && h.loops[sess].ws == ws && sess !in h.closed
  }

  lemma {:induction false} ServingHolds(ms: seq<Move>, n: nat, sess: Sess, ws: Ws)
    requires n <= |ms| && Serves(At(ms, n), sess, ws)
    ensures ws in At(ms, n).sessions && At(ms, n).sessions[ws] == sess
  {
    if n > 0 && Serves(At(ms, n - 1), sess, ws) {
      ServingHolds(ms, n - 1, sess, ws);
    }
  }

  /** A workspace reads as connected exactly when some accept loop serves it over an open session; there is
      never more than one such loop, and its session is the one a new stream is opened on. */
  lemma ConnectedIffServed(ms: seq<Move>, n: nat, ws: Ws)
    requires n <= |ms|
    ensures var h := At(ms, n);
            && (Holds(h.sessions, h.closed, ws) <==> exists sess :: Serves(h, sess, ws))
            && (forall sess :: Serves(h, sess, ws) ==> ws in h.sessions && h.sessions[ws] == sess)
  {
    var h := At(ms, n);
    AlwaysOwned(ms, n);
    assert Holds(h.sessions, h.closed, ws) ==> Serves(h, h.sessions[ws], ws);
    forall sess | Serves(h, sess, ws) ensures ws in h.sessions && h.sessions[ws] == sess {
      ServingHolds(ms, n, sess, ws);
    }
  }

  /** Once every accept loop has ended, no slot is left behind. */
  lemma EmptyWhenDone(ms: seq<Move>, n: nat)
    requires n <= |ms| && forall sess :: sess in At(ms, n).loops ==> At(ms, n).loops[sess].stage == Done
    ensures At(ms, n).sessions == map[]
  {
    AlwaysOwned(ms, n);
    var h := At(ms, n);
    assert forall ws :: ws in h.sessions ==> InStage(h, h.sessions[ws], Serving);
  }

  lemma {:induction false} ClosedForGood(ms: seq<Move>, m: nat, n: nat, sess: Sess)
    requires m <= n <= |ms| && sess in At(ms, m).closed
    ensures sess in At(ms, n).closed
  {
    if m < n {
      ClosedForGood(ms, m, n - 1, sess);
    }
  }

  /** Non-displacement: whatever the other loops do, a registered session keeps its slot until it closes. */
  lemma {:induction false} KeepsSlotUntilClosed(ms: seq<Move>, m: nat, n: nat, ws: Ws)
    requires m <= n <= |ms| && ws in At(ms, m).sessions && At(ms, m).sessions[ws] !in At(ms, n).closed
    ensures ws in At(ms, n).sessions && At(ms, n).sessions[ws] == At(ms, m).sessions[ws]
  {
    if m < n {
      var sess := At(ms, m).sessions[ws];
      if sess in At(ms, n - 1).closed {
        ClosedForGood(ms, n - 1, n, sess);
      }
      KeepsSlotUntilClosed(ms, m, n - 1, ws);
    }
  }

  /** A slot changes hands only so: its own loop unregisters after its session closed, or a newcomer
      replaces it after it closed. The end of any other loop leaves it alone. */
  lemma SlotLostOnlyWhenClosed(ms: seq<Move>, n: nat, ws: Ws)
    requires n < |ms| && ws in At(ms, n).sessions
    requires ws in At(ms, n + 1).sessions ==> At(ms, n + 1).sessions[ws] != At(ms, n).sessions[ws]
    ensures At(ms, n).sessions[ws] in At(ms, n).closed
    ensures if ws in At(ms, n + 1).sessions then ms[n] == Register(At(ms, n + 1).sessions[ws])
            else ms[n] == Unregister(At(ms, n).sessions[ws])
  {
  }

  /** A dialed loop is turned away exactly when a live agent holds the slot, and then nobody loses it. */
  lemma RefusedIffHeld(ms: seq<Move>, n: nat, sess: Sess)
    requires n < |ms| && ms[n] == Register(sess) && InStage(At(ms, n), sess, Dialed)
    ensures var h, h' := At(ms, n), At(ms, n + 1);
            var ws := h.loops[sess].ws;
            && (InStage(h', sess, Refused) <==> ws in h.sessions && h.sessions[ws] !in h.closed)
            && (InStage(h', sess, Refused) ==> h'.sessions == h.sessions && h'.closed == h.closed)
            && (!InStage(h', sess, Refused) ==> InStage(h', sess, Serving) && h'.sessions == h.sessions[ws := sess])
  {
  }

  /** What each move does to its own session, and that it touches no other loop. */
  lemma MoveEffects(h: State, m: Move)
    requires Enabled(h, m)
    ensures var h' := Step(h, m);
            && (forall s :: s in h.loops && s != m.sess ==> s in h'.loops && h'.loops[s] == h.loops[s])
            && m.sess in h'.loops
            && h'.closed == (if m.CloseRefused? || m.Die? then h.closed + {m.sess} else h.closed)
            && match m
               case Dial(sess, ws) => h'.loops[sess] == Loop(ws, Dialed) && h'.sessions == h.sessions
               case CloseRefused(sess) => h'.loops[sess] == Loop(h.loops[sess].ws, Done) && h'.sessions == h.sessions
               case Die(sess) => h'.loops[sess] == h.loops[sess] && h'.sessions == h.sessions
               case Unregister(sess) =>
                 var ws := h.loops[sess].ws;
                 && h'.loops[sess] == Loop(ws, Done)
                 && h'.sessions == if ws in h.sessions && h.sessions[ws] == sess then h.sessions - {ws} else h.sessions
               case Register(sess) =>
                 var ws := h.loops[sess].ws;
                 var held := ws in h.sessions && h.sessions[ws] !in h.closed;
                 && h'.loops[sess] == Loop(ws, if held then Refused else Serving)
                 && h'.sessions == if held then h.sessions else h.sessions[ws := sess]
  {
  }
}
