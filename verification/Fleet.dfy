/** fleet.apply: convergence to a desired set of task boxes (internal/mcp/engine_backend.go),
    while the rest of the control plane goes on working. */
module Fleet {
  import opened Common
  import opened Boxes
  import opened Usernames
  import opened Lifecycle
  import opened Stores
  import opened Engines
  import Safety

  const OWNER := "mcp"
  const FLEET := "fleet-"

  /** One desired box; the command to run on it is not modelled. */
  datatype SpecBox = SpecBox(key: string, image: string)

  type Keys = map<string, Id>

  function NameOf(key: string): string {
    FLEET + key
  }

  function UserOf(sb: SpecBox): string {
    PlainUsername(NameOf(sb.key), sb.image)
  }

  /** What one entry of the spec meets: steps of others since the last entry, a candidate id, the time. */
  datatype Turn = Turn(meanwhile: seq<Event>, newId: Id, now: int)

  datatype Convergence = Convergence(ok: bool, rows: Rows, keys: Keys, created: seq<Id>)

  ghost function After(c: Config, rows: Rows, es: seq<Event>): Rows
    decreases |es|
  {
    if es == [] then rows else After(c, RowsNext(c, rows, es[0]), es[1..])
  }

  predicate Converged(keys: Keys, live: set<Id>, key: string) {
    key in keys && keys[key] in live
  }

  function AttachEvent(sb: SpecBox, t: Turn): Event {
    Event(t.now, Attach(OWNER, UserOf(sb), t.newId))
  }

  /** Apply against the fleet listed at its start; the first refused Attach ends it. */
  ghost function ApplyOf(c: Config, rows: Rows, keys: Keys, live: set<Id>, spec: seq<SpecBox>,
                         turns: seq<Turn>): Convergence
    requires |turns| == |spec|
    decreases |spec|
  {
    if spec == [] then Convergence(true, rows, keys, [])
    else
      var sb, t := spec[0], turns[0];
      var rows := After(c, rows, t.meanwhile);
      if sb.key == "" || Converged(keys, live, sb.key) then
        ApplyOf(c, rows, keys, live, spec[1..], turns[1..])
      else
        match AttachOf(c, rows, OWNER, UserOf(sb), t.newId, t.now)
        case Refused => Convergence(false, rows, keys, [])
        case Reused(id) => Taken(id, ApplyOf(c, RowsNext(c, rows, AttachEvent(sb, t)), keys[sb.key := id], live,
                                             spec[1..], turns[1..]))
        case Created(id, _) => Taken(id, ApplyOf(c, RowsNext(c, rows, AttachEvent(sb, t)), keys[sb.key := id], live,
                                                 spec[1..], turns[1..]))
  }

  function Taken(id: Id, rest: Convergence): Convergence {
    rest.(created := [id] + rest.created)
  }

  // ---- names ----

  predicate Plain(s: string) {
    ':' !in s && '~' !in s && '+' !in s
  }

  predicate PlainSpec(spec: seq<SpecBox>) {
    forall sb :: sb in spec ==> Plain(sb.key) && Plain(sb.image)
  }

  /** A plain entry names exactly its own box. */
  lemma UserParses(sb: SpecBox, dur: DurationReader)
    requires Plain(sb.key) && Plain(sb.image)
    ensures ParseSpec(UserOf(sb), dur) == Ok(Spec(NameOf(sb.key), "", sb.image, "", 0, false, "", ""))
  {
    var name := NameOf(sb.key);
    assert name[0] == 'f';
    PlainParses(name, sb.image, dur);
  }

  lemma NamesDiffer(k: string, l: string)
    requires NameOf(k) == NameOf(l)
    ensures k == l
  {
    assert k == NameOf(k)[|FLEET|..] && l == NameOf(l)[|FLEET|..];
  }

  /** The name of the box an entry asks for. */
  function BoxName(sb: SpecBox): string {
    CutName(UserOf(sb))
  }

  /** An entry's username, if accepted, is never a special one and names the box BoxName says. */
  lemma AcceptedName(sb: SpecBox, dur: DurationReader)
    requires ParseSpec(UserOf(sb), dur).Ok?
    ensures ParseSpec(UserOf(sb), dur).value.special == "" && ParseSpec(UserOf(sb), dur).value.name == BoxName(sb)
  {
    var u := UserOf(sb);
    assert u[0] == 'f' && "cli"[0] == 'c' && "sudo"[0] == 's' && SESSION[0] == 's';
    assert !HasPrefix(u, SESSION) && !Reserved(u);
    NotSpecial(u, dur);
    hide ParseSpec;
    NameIsTheCut(u, dur, ParseSpec(u, dur).value);
  }

  lemma NotSpecial(u: string, dur: DurationReader)
    requires !Reserved(u) && ParseSpec(u, dur).Ok?
    ensures ParseSpec(u, dur).value.special == ""
  {
  }

  lemma PlainBoxName(sb: SpecBox)
    requires Plain(sb.key) && Plain(sb.image)
    ensures BoxName(sb) == NameOf(sb.key)
  {
    var dur: DurationReader := _ => None;
    UserParses(sb, dur);
    AcceptedName(sb, dur);
  }

  // ---- the keys over any run ----

  /** Under which box name each key goes: no two keys under one. */
  predicate Names(names: map<string, string>) {
    forall k, l :: k in names && l in names && names[k] == names[l] ==> k == l
  }

  /** Each key has a box of its own, and while that box lives it carries the key's box name. */
  ghost predicate KeysOk(c: Config, rows: Rows, keys: Keys, names: map<string, string>) {
    && (forall k, l :: k in keys && l in keys && keys[k] == keys[l] ==> k == l)
    && (forall k :: k in keys && keys[k] in rows ==> k in names && Named(rows[keys[k]], c.tenant, OWNER, names[k]))
  }

  function Offers(es: seq<Event>): set<Id> {
    set e | e in es && (e.act.Attach? || e.act.CreateWorkspace?) :: e.act.newId
  }

  function Offered(t: Turn): set<Id> {
    Offers(t.meanwhile) + {t.newId}
  }

  /** Random ids: no entry offers an id used before, and its own differs from those offered meanwhile. */
  predicate Fresh(used: set<Id>, turns: seq<Turn>)
    decreases |turns|
  {
    turns == [] ||
    (Offered(turns[0]) !! used && turns[0].newId !in Offers(turns[0].meanwhile)
     && Fresh(used + Offered(turns[0]), turns[1..]))
  }

  function AllOffered(turns: seq<Turn>): set<Id> {
    if turns == [] then {} else Offered(turns[0]) + AllOffered(turns[1..])
  }

  /** No step of anyone disturbs the keys, as long as it offers no id a key already holds. */
  lemma StepKeepsKeys(c: Config, rows: Rows, keys: Keys, names: map<string, string>, e: Event)
    requires KeysOk(c, rows, keys, names) && Offers([e]) !! keys.Values
    ensures KeysOk(c, RowsNext(c, rows, e), keys, names)
    ensures RowsNext(c, rows, e).Keys <= rows.Keys + Offers([e])
  {
    var rows' := RowsNext(c, rows, e);
    assert e in [e];
    hide AttachOf, RowNext;
    forall id | id in rows' && id in rows ensures rows'[id].spec == rows[id].spec {
      Safety.RowNextFollows(c, rows, e, id);
    }
    forall id | id in rows' && id !in rows ensures id in Offers([e]) {
      BornIsOffered(c, rows, e, id);
    }
  }

  lemma BornIsOffered(c: Config, rows: Rows, e: Event, id: Id)
    requires id in RowsNext(c, rows, e) && id !in rows
    ensures id in Offers([e])
  {
  }

  lemma {:induction false} OthersKeepKeys(c: Config, rows: Rows, keys: Keys, names: map<string, string>, es: seq<Event>)
    requires KeysOk(c, rows, keys, names) && Offers(es) !! keys.Values
    ensures KeysOk(c, After(c, rows, es), keys, names)
    ensures After(c, rows, es).Keys <= rows.Keys + Offers(es)
    decreases |es|
  {
    hide KeysOk, RowsNext;
    if es != [] {
      assert es[0] in es && forall e :: e in es[1..] ==> e in es;
      assert Offers([es[0]]) <= Offers(es) && Offers(es[1..]) <= Offers(es);
      StepKeepsKeys(c, rows, keys, names, es[0]);
      OthersKeepKeys(c, RowsNext(c, rows, es[0]), keys, names, es[1..]);
    }
  }

  /** The username parses and a backend serves it. */
  predicate Acceptable(c: Config, sb: SpecBox) {
    var p := ParseSpec(UserOf(sb), c.durations);
    p.Ok? && ResolveBackend(p.value.backend, c.backends, c.defBackend).Ok?
  }

  /** What Attach makes of an entry: refused exactly when the username is not accepted, or the name is new and no
      backend serves it; otherwise the box that carries the name, or a new one. */
  lemma TakeOne(c: Config, rows: Rows, sb: SpecBox, t: Turn)
    requires t.newId !in rows
    ensures var r := AttachOf(c, rows, OWNER, UserOf(sb), t.newId, t.now);
            var accepted := ParseSpec(UserOf(sb), c.durations).Ok?;
            var found := Lookup(rows, c.tenant, OWNER, BoxName(sb));
            match r
            case Refused => !accepted || (found.None? && !Acceptable(c, sb))
            case Reused(id) => accepted && found == Some(id)
            case Created(id, b) =>
              Acceptable(c, sb) && found.None? && id == t.newId && Named(b, c.tenant, OWNER, BoxName(sb))
  {
    if ParseSpec(UserOf(sb), c.durations).Ok? {
      AcceptedName(sb, c.durations);
    }
    hide ParseSpec, UserOf, BoxName;
  }

  /** The rows after an entry's Attach: nothing is lost or renamed, and the box taken carries its name. */
  lemma TakeRows(c: Config, rows: Rows, sb: SpecBox, t: Turn)
    requires t.newId !in rows
    ensures var rows' := RowsNext(c, rows, AttachEvent(sb, t));
            var r := AttachOf(c, rows, OWNER, UserOf(sb), t.newId, t.now);
            && (forall i :: i in rows ==> i in rows' && rows'[i].spec == rows[i].spec)
            && rows'.Keys <= rows.Keys + {t.newId}
            && (!r.Refused? ==> r.id in rows' && Named(rows'[r.id], c.tenant, OWNER, BoxName(sb)))
            && (r.Created? ==> r.id == t.newId)
  {
    var e := AttachEvent(sb, t);
    var rows' := RowsNext(c, rows, e);
    TakeOne(c, rows, sb, t);
    AttachStays(c, rows, sb, t);
    hide Lookup, BoxName, Acceptable, ParseSpec, UserOf, Build;
    forall i | i in rows ensures i in rows' && rows'[i].spec == rows[i].spec {
      Safety.OnlyTicksTouchInstances(c, rows, e, i);
      Safety.RowNextFollows(c, rows, e, i);
    }
    hide RowNext;
  }

  lemma AttachStays(c: Config, rows: Rows, sb: SpecBox, t: Turn)
    ensures RowsNext(c, rows, AttachEvent(sb, t)).Keys >= rows.Keys
    ensures var r := AttachOf(c, rows, OWNER, UserOf(sb), t.newId, t.now);
            !r.Refused? ==> r.id in RowsNext(c, rows, AttachEvent(sb, t))
  {
  }

  /** The box an entry takes is its key's own. */
  lemma TakeKeepsKeys(c: Config, rows: Rows, keys: Keys, names: map<string, string>, sb: SpecBox, t: Turn)
    requires KeysOk(c, rows, keys, names) && t.newId !in rows && t.newId !in keys.Values
    requires Names(names) && sb.key in names && names[sb.key] == BoxName(sb)
    requires !AttachOf(c, rows, OWNER, UserOf(sb), t.newId, t.now).Refused?
    ensures var id := AttachOf(c, rows, OWNER, UserOf(sb), t.newId, t.now).id;
            KeysOk(c, RowsNext(c, rows, AttachEvent(sb, t)), keys[sb.key := id], names)
  {
    hide RowsNext, AttachOf, Lookup, BoxName, UserOf, Acceptable, ParseSpec;
    var rows' := RowsNext(c, rows, AttachEvent(sb, t));
    TakeRows(c, rows, sb, t);
    TakeOne(c, rows, sb, t);
    var r := AttachOf(c, rows, OWNER, UserOf(sb), t.newId, t.now);
    forall k | k in keys && keys[k] == r.id ensures k == sb.key {
      assert r.id in rows;
    }
  }

  // ---- convergence ----

  predicate DistinctKeys(spec: seq<SpecBox>) {
    forall i, j :: 0 <= i < j < |spec| ==> spec[i].key == "" || spec[i].key != spec[j].key
  }

  /** The keys whose recorded box was absent from the fleet. */
  function Missing(keys: Keys, live: set<Id>, spec: seq<SpecBox>): seq<string> {
    if spec == [] then []
    else (if spec[0].key == "" || Converged(keys, live, spec[0].key) then []
          else [spec[0].key]) + Missing(keys, live, spec[1..])
  }

  ghost predicate Recorded(keys: Keys, ks: seq<string>, ids: seq<Id>) {
    |ids| == |ks| && forall i :: 0 <= i < |ks| ==> ks[i] in keys && keys[ks[i]] == ids[i]
  }

  /** What an Apply that found these keys missing ends with. */
  ghost predicate Reached(c: Config, r: Convergence, keys: Keys, names: map<string, string>, missing: seq<string>,
                          ids: set<Id>, spec: seq<SpecBox>) {
    && KeysOk(c, r.rows, r.keys, names)
    && r.rows.Keys + r.keys.Values <= ids
    && (forall k :: k in keys && k !in missing ==> k in r.keys && r.keys[k] == keys[k])
    && (r.ok ==> Recorded(r.keys, missing, r.created))
    && (r.ok ==> forall sb :: sb in spec && sb.key != "" ==> sb.key in r.keys)
    && ((forall sb :: sb in spec && sb.key in missing ==> Acceptable(c, sb)) ==> r.ok)
  }

  ghost predicate Converges(c: Config, rows: Rows, keys: Keys, names: map<string, string>, live: set<Id>, used: set<Id>,
                            spec: seq<SpecBox>, turns: seq<Turn>)
    requires |turns| == |spec|
  {
    Reached(c, ApplyOf(c, rows, keys, live, spec, turns), keys, names, Missing(keys, live, spec),
            used + AllOffered(turns), spec)
  }

  /** The entries to be taken go under their box names. */
  ghost predicate Naming(names: map<string, string>, keys: Keys, live: set<Id>, spec: seq<SpecBox>) {
    && Names(names)
    && (forall sb :: sb in spec && sb.key != "" && !Converged(keys, live, sb.key) ==>
          sb.key in names && names[sb.key] == BoxName(sb))
  }

  lemma {:induction false} MissingIsStable(keys: Keys, live: set<Id>, spec: seq<SpecBox>, key: string, id: Id)
    requires forall sb :: sb in spec ==> sb.key == "" || sb.key != key
    ensures Missing(keys[key := id], live, spec) == Missing(keys, live, spec)
              && (key != "" ==> key !in Missing(keys, live, spec))
    ensures "" !in Missing(keys, live, spec)
  {
    if spec != [] {
      assert spec[0] in spec && forall sb :: sb in spec[1..] ==> sb in spec;
      MissingIsStable(keys, live, spec[1..], key, id);
    }
  }

  lemma DistinctTail(spec: seq<SpecBox>)
    requires spec != [] && DistinctKeys(spec)
    ensures DistinctKeys(spec[1..])
    ensures forall sb :: sb in spec[1..] ==> sb.key == "" || sb.key != spec[0].key
    ensures forall sb :: sb in spec <==> sb == spec[0] || sb in spec[1..]
  {
  }

  /** One entry that is skipped. */
  lemma SkipConverges(c: Config, rows: Rows, keys: Keys, names: map<string, string>, live: set<Id>, used: set<Id>,
                      spec: seq<SpecBox>, turns: seq<Turn>)
    requires |turns| == |spec| && spec != [] && (spec[0].key == "" || Converged(keys, live, spec[0].key))
    requires "" !in Missing(keys, live, spec[1..])
               && (spec[0].key != "" ==> spec[0].key !in Missing(keys, live, spec[1..]))
    requires forall sb :: sb in spec <==> sb == spec[0] || sb in spec[1..]
    requires Converges(c, After(c, rows, turns[0].meanwhile), keys, names, live, used + Offered(turns[0]), spec[1..],
                       turns[1..])
    ensures Converges(c, rows, keys, names, live, used, spec, turns)
  {
    hide KeysOk, Offered, Acceptable;
    assert ApplyOf(c, rows, keys, live, spec, turns)
             == ApplyOf(c, After(c, rows, turns[0].meanwhile), keys, live, spec[1..], turns[1..]);
    assert Missing(keys, live, spec) == Missing(keys, live, spec[1..]);
    hide ApplyOf, Missing;
  }

  /** An entry whose Attach is refused. */
  lemma RefusedConverges(c: Config, rows: Rows, keys: Keys, names: map<string, string>, live: set<Id>, used: set<Id>,
                         spec: seq<SpecBox>, turns: seq<Turn>)
    requires |turns| == |spec| && spec != [] && spec[0].key != "" && !Converged(keys, live, spec[0].key)
    requires AttachOf(c, After(c, rows, turns[0].meanwhile), OWNER, UserOf(spec[0]), turns[0].newId,
                      turns[0].now).Refused?
    requires !Acceptable(c, spec[0])
    requires KeysOk(c, After(c, rows, turns[0].meanwhile), keys, names)
    requires After(c, rows, turns[0].meanwhile).Keys + keys.Values <= used + Offered(turns[0])
    ensures Converges(c, rows, keys, names, live, used, spec, turns)
  {
    hide KeysOk, Offered, AttachOf, After, Converged, Acceptable;
    assert spec[0] in spec && spec[0].key in Missing(keys, live, spec);
    hide Missing;
  }

  /** One entry whose box is taken. */
  lemma TakeConverges(c: Config, rows: Rows, keys: Keys, names: map<string, string>, live: set<Id>, used: set<Id>,
                      spec: seq<SpecBox>, turns: seq<Turn>, id: Id)
    requires |turns| == |spec| && spec != [] && spec[0].key != "" && !Converged(keys, live, spec[0].key)
    requires forall sb :: sb in spec <==> sb == spec[0] || sb in spec[1..]
    requires forall sb :: sb in spec[1..] ==> sb.key == "" || sb.key != spec[0].key
    requires var r := AttachOf(c, After(c, rows, turns[0].meanwhile), OWNER, UserOf(spec[0]), turns[0].newId,
                               turns[0].now);
             r == Reused(id) || (r.Created? && r.id == id)
    requires Converges(c, RowsNext(c, After(c, rows, turns[0].meanwhile), AttachEvent(spec[0], turns[0])),
                       keys[spec[0].key := id],
                       names, live, used + Offered(turns[0]), spec[1..], turns[1..])
    ensures Converges(c, rows, keys, names, live, used, spec, turns)
  {
    hide KeysOk, Offered, AttachOf, RowsNext, After, Converged, Reached;
    var key := spec[0].key;
    var todo := Missing(keys, live, spec[1..]);
    MissingIsStable(keys, live, spec[1..], key, id);
    var rest := ApplyOf(c, RowsNext(c, After(c, rows, turns[0].meanwhile), AttachEvent(spec[0], turns[0])),
                        keys[key := id],
                        live, spec[1..], turns[1..]);
    assert ApplyOf(c, rows, keys, live, spec, turns) == Taken(id, rest);
    assert Missing(keys, live, spec) == [key] + todo;
    assert used + AllOffered(turns) == used + Offered(turns[0]) + AllOffered(turns[1..]);
    hide ApplyOf, Missing;
    TakeReached(c, rest, keys, names, key, id, todo, used + AllOffered(turns), spec);
  }

  lemma TakeReached(c: Config, rest: Convergence, keys: Keys, names: map<string, string>, key: string, id: Id,
                    todo: seq<string>, ids: set<Id>, spec: seq<SpecBox>)
    requires spec != [] && spec[0].key == key && key !in todo
    requires forall sb :: sb in spec <==> sb == spec[0] || sb in spec[1..]
    requires Reached(c, rest, keys[key := id], names, todo, ids, spec[1..])
    ensures Reached(c, Taken(id, rest), keys, names, [key] + todo, ids, spec)
  {
    hide KeysOk, Acceptable;
    var r, missing := Taken(id, rest), [key] + todo;
    assert key in rest.keys && rest.keys[key] == id;
    assert forall k :: k in todo ==> k in missing;
    if rest.ok {
      forall i | 0 <= i < |missing| ensures missing[i] in r.keys && r.keys[missing[i]] == r.created[i] {
        if i > 0 {
          assert missing[i] == todo[i - 1] && r.created[i] == rest.created[i - 1];
        }
      }
    }
  }

  lemma NamingTail(names: map<string, string>, keys: Keys, live: set<Id>, spec: seq<SpecBox>, id: Id)
    requires spec != [] && DistinctKeys(spec) && Naming(names, keys, live, spec)
    ensures Naming(names, keys, live, spec[1..])
    ensures spec[0].key != "" ==> Naming(names, keys[spec[0].key := id], live, spec[1..])
  {
    DistinctTail(spec);
    hide BoxName, DistinctKeys;
  }

  /** fleet.apply converges, whatever others do between its entries, when the entries to be taken go under box names
      no other key goes under: on success every key has a box of its own, the boxes created or taken are exactly those
      of the keys whose recorded box was absent from the fleet, every other key keeps its box; and it succeeds
      whenever the entries to be taken are acceptable. */
  lemma {:induction false} ApplyConverges(c: Config, rows: Rows, keys: Keys, names: map<string, string>, live: set<Id>,
                                          used: set<Id>, spec: seq<SpecBox>, turns: seq<Turn>)
    requires |turns| == |spec| && DistinctKeys(spec) && KeysOk(c, rows, keys, names) && Naming(names, keys, live, spec)
    requires rows.Keys + keys.Values <= used && Fresh(used, turns)
    ensures Converges(c, rows, keys, names, live, used, spec, turns)
    decreases |spec|
  {
    if spec == [] {
      return;
    }
    hide KeysOk, AttachOf, RowsNext, After, DistinctKeys, ApplyOf, Converged, Converges, UserOf, Naming, Acceptable,
        BoxName;
    var sb, t := spec[0], turns[0];
    var now, used' := After(c, rows, t.meanwhile), used + Offered(t);
    DistinctTail(spec);
    MissingIsStable(keys, live, spec[1..], sb.key, "");
    OthersKeepKeys(c, rows, keys, names, t.meanwhile);
    NamingTail(names, keys, live, spec, "");
    if sb.key == "" || Converged(keys, live, sb.key) {
      ApplyConverges(c, now, keys, names, live, used', spec[1..], turns[1..]);
      SkipConverges(c, rows, keys, names, live, used, spec, turns);
    } else {
      TakeOne(c, now, sb, t);
      TakeRows(c, now, sb, t);
      var r := AttachOf(c, now, OWNER, UserOf(sb), t.newId, t.now);
      if r.Refused? {
        UnparsedIsUnacceptable(c, sb);
        RefusedConverges(c, rows, keys, names, live, used, spec, turns);
      } else {
        HeadNamed(names, keys, live, spec);
        TakeKeepsKeys(c, now, keys, names, sb, t);
        NamingTail(names, keys, live, spec, r.id);
        TakenIds(c, now, keys, sb, t, used);
        ApplyConverges(c, RowsNext(c, now, AttachEvent(sb, t)), keys[sb.key := r.id], names, live, used', spec[1..],
                       turns[1..]);
        TakeConverges(c, rows, keys, names, live, used, spec, turns, r.id);
      }
    }
  }

  lemma UnparsedIsUnacceptable(c: Config, sb: SpecBox)
    ensures !ParseSpec(UserOf(sb), c.durations).Ok? ==> !Acceptable(c, sb)
  {
  }

  lemma HeadNamed(names: map<string, string>, keys: Keys, live: set<Id>, spec: seq<SpecBox>)
    requires spec != [] && Naming(names, keys, live, spec) && spec[0].key != "" && !Converged(keys, live, spec[0].key)
    ensures Names(names) && spec[0].key in names && names[spec[0].key] == BoxName(spec[0])
  {
    assert spec[0] in spec;
  }

  lemma TakenIds(c: Config, rows: Rows, keys: Keys, sb: SpecBox, t: Turn, used: set<Id>)
    requires t.newId !in rows && rows.Keys <= used + Offered(t) && keys.Values <= used
    requires !AttachOf(c, rows, OWNER, UserOf(sb), t.newId, t.now).Refused?
    ensures var id := AttachOf(c, rows, OWNER, UserOf(sb), t.newId, t.now).id;
            RowsNext(c, rows, AttachEvent(sb, t)).Keys + keys[sb.key := id].Values <= used + Offered(t)
  {
    TakeRows(c, rows, sb, t);
    hide RowsNext, AttachOf, UserOf, BoxName;
  }

  // ---- which entries go under one name ----

  predicate DistinctNames(spec: seq<SpecBox>) {
    forall i, j :: 0 <= i < j < |spec| && spec[i].key != "" && spec[j].key != ""
        ==> BoxName(spec[i]) != BoxName(spec[j])
  }

  /** With keys recorded nowhere yet, distinct keys whose usernames cut to distinct names converge. */
  lemma FirstApplyConverges(c: Config, rows: Rows, live: set<Id>, used: set<Id>, spec: seq<SpecBox>, turns: seq<Turn>)
      returns (names: map<string, string>)
    requires |turns| == |spec| && DistinctKeys(spec) && DistinctNames(spec) && rows.Keys <= used && Fresh(used, turns)
    ensures Converges(c, rows, map[], names, live, used, spec, turns)
    ensures forall sb :: sb in spec && sb.key != "" ==> sb.key in names && names[sb.key] == BoxName(sb)
  {
    names := SpecNames(spec);
    ApplyConverges(c, rows, map[], names, live, used, spec, turns);
  }

  lemma {:induction false} SpecNames(spec: seq<SpecBox>) returns (names: map<string, string>)
    requires DistinctKeys(spec) && DistinctNames(spec)
    ensures Names(names)
    ensures forall sb :: sb in spec && sb.key != "" ==> sb.key in names && names[sb.key] == BoxName(sb)
    ensures forall k :: k in names ==> exists sb :: sb in spec && sb.key == k && k != "" && names[k] == BoxName(sb)
  {
    hide BoxName;
    names := map[];
    if spec != [] {
      DistinctTail(spec);
      var tail := SpecNames(spec[1..]);
      names := if spec[0].key == "" then tail else tail[spec[0].key := BoxName(spec[0])];
      HeadNameIsNew(spec, tail);
    }
  }

  lemma HeadNameIsNew(spec: seq<SpecBox>, tail: map<string, string>)
    requires spec != [] && DistinctKeys(spec) && DistinctNames(spec)
    requires forall k :: k in tail ==> exists sb :: sb in spec[1..] && sb.key == k && k != "" && tail[k] == BoxName(sb)
    ensures spec[0].key != "" ==> forall k :: k in tail ==> k != spec[0].key && tail[k] != BoxName(spec[0])
  {
    hide BoxName;
    DistinctTail(spec);
    forall k | spec[0].key != "" && k in tail ensures k != spec[0].key && tail[k] != BoxName(spec[0]) {
      var sb :| sb in spec[1..] && sb.key == k && k != "" && tail[k] == BoxName(sb);
      var i :| 0 <= i < |spec[1..]| && spec[1..][i] == sb;
      assert spec[i + 1] == sb;
    }
  }

  /** Keys and images free of the grammar's separators go under the keys' own names, so distinct keys never clash. */
  lemma PlainNaming(keys: Keys, live: set<Id>, names: map<string, string>, spec: seq<SpecBox>)
    requires PlainSpec(spec) && forall sb :: sb in spec ==> sb.key in names
    requires forall k :: k in names ==> names[k] == NameOf(k)
    ensures Naming(names, keys, live, spec)
  {
    forall k, l | k in names && l in names && names[k] == names[l] ensures k == l {
      NamesDiffer(k, l);
    }
    forall sb | sb in spec ensures names[sb.key] == BoxName(sb) {
      PlainBoxName(sb);
    }
    hide BoxName;
  }

  // ---- what a repeat does ----

  predicate AllConverged(keys: Keys, live: set<Id>, spec: seq<SpecBox>) {
    forall sb :: sb in spec && sb.key != "" ==> Converged(keys, live, sb.key)
  }

  /** With every key's box in the fleet, Apply creates nothing and records nothing: its rows are what others made of
      them. */
  lemma {:induction false} RepeatCreatesNothing(c: Config, rows: Rows, keys: Keys, live: set<Id>, spec: seq<SpecBox>,
                                                turns: seq<Turn>)
    requires |turns| == |spec| && AllConverged(keys, live, spec)
    ensures var r := ApplyOf(c, rows, keys, live, spec, turns);
            r.ok && r.created == [] && r.keys == keys
    ensures (forall t :: t in turns ==> t.meanwhile == []) ==> ApplyOf(c, rows, keys, live, spec, turns).rows == rows
    decreases |spec|
  {
    hide After;
    if spec != [] {
      assert spec[0] in spec && forall sb :: sb in spec[1..] ==> sb in spec;
      assert turns[0] in turns && forall t :: t in turns[1..] ==> t in turns;
      RepeatCreatesNothing(c, After(c, rows, turns[0].meanwhile), keys, live, spec[1..], turns[1..]);
      AfterNothing(c, rows);
    }
  }

  lemma AfterNothing(c: Config, rows: Rows)
    ensures After(c, rows, []) == rows
  {
  }

  /** The ids of the fleet as listed. */
  function FleetOf(c: Config, rows: Rows): set<Id> {
    set id | id in rows && rows[id].spec.tenant == c.tenant
  }

  predicate Quiet(turns: seq<Turn>) {
    forall t :: t in turns ==> t.meanwhile == []
  }

  /** Undisturbed, Apply leaves every key's box in the fleet. */
  lemma {:induction false} QuietApplyStays(c: Config, rows: Rows, keys: Keys, live: set<Id>, spec: seq<SpecBox>,
                                           turns: seq<Turn>)
    requires |turns| == |spec| && Quiet(turns)
    ensures var r := ApplyOf(c, rows, keys, live, spec, turns);
            r.rows.Keys >= rows.Keys && forall id :: id in r.created ==> id in r.rows
    decreases |spec|
  {
    if spec != [] {
      assert turns[0] in turns && Quiet(turns[1..]);
      AfterNothing(c, rows);
      var sb, t := spec[0], turns[0];
      var r := AttachOf(c, rows, OWNER, UserOf(sb), t.newId, t.now);
      hide After, AttachOf, UserOf, Converged;
      if sb.key == "" || Converged(keys, live, sb.key) {
        QuietApplyStays(c, rows, keys, live, spec[1..], turns[1..]);
      } else if !r.Refused? {
        AttachStays(c, rows, sb, t);
        hide RowsNext;
        assert r.id in RowsNext(c, rows, AttachEvent(sb, t));
        QuietApplyStays(c, RowsNext(c, rows, AttachEvent(sb, t)), keys[sb.key := r.id], live, spec[1..], turns[1..]);
      }
    }
  }

  /** An entry to be taken ended with a box in the store that carries its name. */
  ghost predicate HasItsBox(c: Config, r: Convergence, sb: SpecBox) {
    sb.key in r.keys && r.keys[sb.key] in r.rows && Named(r.rows[r.keys[sb.key]], c.tenant, OWNER, BoxName(sb))
  }

  predicate Wanted(keys: Keys, live: set<Id>, sb: SpecBox) {
    sb.key != "" && !Converged(keys, live, sb.key)
  }

  ghost predicate SameRows(rows: Rows, rows': Rows) {
    forall i :: i in rows ==> i in rows' && rows'[i].spec == rows[i].spec
  }

  /** What an undisturbed Apply leaves. */
  ghost predicate Settled(c: Config, rows: Rows, keys: Keys, live: set<Id>, r: Convergence, spec: seq<SpecBox>) {
    && Unique(r.rows) && SameRows(rows, r.rows)
    && (forall k :: k in keys && k !in Missing(keys, live, spec) ==> k in r.keys && r.keys[k] == keys[k])
    && (r.ok ==> forall sb :: sb in spec && Wanted(keys, live, sb) ==> HasItsBox(c, r, sb))
  }

  lemma SkipSettles(c: Config, rows: Rows, keys: Keys, live: set<Id>, r: Convergence, spec: seq<SpecBox>)
    requires spec != [] && DistinctKeys(spec) && !Wanted(keys, live, spec[0])
               && Settled(c, rows, keys, live, r, spec[1..])
    ensures Settled(c, rows, keys, live, r, spec)
  {
    hide Named, Unique, BoxName, HasItsBox;
    DistinctTail(spec);
    assert Missing(keys, live, spec) == Missing(keys, live, spec[1..]);
  }

  lemma TakeSettles(c: Config, rows: Rows, rows': Rows, keys: Keys, live: set<Id>, rest: Convergence,
                    spec: seq<SpecBox>, id: Id)
    requires spec != [] && DistinctKeys(spec) && Wanted(keys, live, spec[0]) && SameRows(rows, rows')
    requires id in rows' && Named(rows'[id], c.tenant, OWNER, BoxName(spec[0]))
    requires Settled(c, rows', keys[spec[0].key := id], live, rest, spec[1..])
    ensures Settled(c, rows, keys, live, Taken(id, rest), spec)
  {
    hide Named, Unique, BoxName, Converged, DistinctKeys;
    var key, keys' := spec[0].key, keys[spec[0].key := id];
    DistinctTail(spec);
    MissingIsStable(keys, live, spec[1..], key, id);
    assert Missing(keys, live, spec) == [key] + Missing(keys, live, spec[1..]);
    hide Missing;
    assert key in rest.keys && rest.keys[key] == id;
    StillNamed(rows', rest.rows, id, c.tenant, BoxName(spec[0]));
    forall other | other in spec[1..] && Wanted(keys, live, other) ensures Wanted(keys', live, other) {
      StillWanted(keys, live, key, id, other);
    }
  }

  /** Undisturbed, every entry to be taken has its box at the end, whatever the names. */
  lemma {:induction false} QuietApplySettles(c: Config, rows: Rows, keys: Keys, live: set<Id>, used: set<Id>,
                                             spec: seq<SpecBox>, turns: seq<Turn>)
    requires |turns| == |spec| && Quiet(turns) && DistinctKeys(spec) && Unique(rows) && rows.Keys <= used
               && Fresh(used, turns)
    ensures Settled(c, rows, keys, live, ApplyOf(c, rows, keys, live, spec, turns), spec)
    decreases |spec|
  {
    hide AttachOf, RowsNext, UserOf, BoxName, Unique, Wanted, DistinctKeys, Named, HasItsBox, Settled, ApplyOf, Fresh,
        SameRows;
    if spec == [] {
      ApplyNothing(c, rows, keys, live);
      NothingSettles(c, rows, keys, live, true, spec);
      return;
    }
    assert turns[0] in turns && Quiet(turns[1..]);
    DistinctTail(spec);
    FreshHead(used, turns);
    ApplyHead(c, rows, keys, live, spec, turns);
    var sb, t := spec[0], turns[0];
    var r := AttachOf(c, rows, OWNER, UserOf(sb), t.newId, t.now);
    if !Wanted(keys, live, sb) {
      QuietApplySettles(c, rows, keys, live, used + Offered(t), spec[1..], turns[1..]);
      SkipSettles(c, rows, keys, live, ApplyOf(c, rows, keys, live, spec, turns), spec);
    } else if r.Refused? {
      NothingSettles(c, rows, keys, live, false, spec);
    } else {
      var rows' := RowsNext(c, rows, AttachEvent(sb, t));
      TakeRows(c, rows, sb, t);
      SameRowsIs(rows, rows');
      Safety.UniqueAfter(c, rows, AttachEvent(sb, t));
      QuietApplySettles(c, rows', keys[sb.key := r.id], live, used + Offered(t), spec[1..], turns[1..]);
      TakeSettles(c, rows, rows', keys, live, ApplyOf(c, rows', keys[sb.key := r.id], live, spec[1..], turns[1..]),
                  spec, r.id);
    }
  }

  /** The first entry of an Apply, when nothing happened before it. */
  lemma ApplyHead(c: Config, rows: Rows, keys: Keys, live: set<Id>, spec: seq<SpecBox>, turns: seq<Turn>)
    requires |turns| == |spec| && spec != [] && turns[0].meanwhile == []
    ensures var sb, t := spec[0], turns[0];
            var r := AttachOf(c, rows, OWNER, UserOf(sb), t.newId, t.now);
            ApplyOf(c, rows, keys, live, spec, turns) ==
              if !Wanted(keys, live, sb) then ApplyOf(c, rows, keys, live, spec[1..], turns[1..])
              else if r.Refused? then Convergence(false, rows, keys, [])
              else Taken(r.id, ApplyOf(c, RowsNext(c, rows, AttachEvent(sb, t)), keys[sb.key := r.id], live,
                                       spec[1..], turns[1..]))
  {
    hide AttachOf, RowsNext, UserOf, After;
    AfterNothing(c, rows);
  }

  lemma NothingSettles(c: Config, rows: Rows, keys: Keys, live: set<Id>, ok: bool, spec: seq<SpecBox>)
    requires Unique(rows) && (ok ==> spec == [])
    ensures Settled(c, rows, keys, live, Convergence(ok, rows, keys, []), spec)
  {
  }

  lemma ApplyNothing(c: Config, rows: Rows, keys: Keys, live: set<Id>)
    ensures ApplyOf(c, rows, keys, live, [], []) == Convergence(true, rows, keys, [])
  {
  }

  lemma FreshHead(used: set<Id>, turns: seq<Turn>)
    requires turns != [] && Fresh(used, turns)
    ensures turns[0].newId !in used && Fresh(used + Offered(turns[0]), turns[1..])
              && turns[0].newId in Offered(turns[0])
  {
  }

  lemma SameRowsIs(rows: Rows, rows': Rows)
    requires forall i :: i in rows ==> i in rows' && rows'[i].spec == rows[i].spec
    ensures SameRows(rows, rows')
  {
  }

  lemma StillNamed(rows: Rows, rows': Rows, id: Id, tenant: string, name: string)
    requires SameRows(rows, rows') && id in rows && Named(rows[id], tenant, OWNER, name)
    ensures id in rows' && Named(rows'[id], tenant, OWNER, name)
  {
  }

  lemma StillWanted(keys: Keys, live: set<Id>, key: string, id: Id, other: SpecBox)
    requires Wanted(keys, live, other) && (other.key == "" || other.key != key)
    ensures Wanted(keys[key := id], live, other)
  {
  }

  /** Exactly which keys share a box: undisturbed, two entries taken by one successful Apply end on one id if and only
      if their usernames cut to one name. */
  lemma SharedIffOneName(c: Config, rows: Rows, keys: Keys, live: set<Id>, used: set<Id>, spec: seq<SpecBox>,
                         turns: seq<Turn>,
                         a: SpecBox, b: SpecBox)
    requires |turns| == |spec| && Quiet(turns) && DistinctKeys(spec) && Unique(rows) && rows.Keys <= used
               && Fresh(used, turns)
    requires a in spec && b in spec && Wanted(keys, live, a) && Wanted(keys, live, b)
    ensures var r := ApplyOf(c, rows, keys, live, spec, turns);
            r.ok ==>
              a.key in r.keys && b.key in r.keys
              && (r.keys[a.key] == r.keys[b.key] <==> BoxName(a) == BoxName(b))
  {
    hide BoxName, ApplyOf, Converged;
    QuietApplySettles(c, rows, keys, live, used, spec, turns);
  }

  /** Two accepted usernames name one box exactly when they cut to one name. */
  lemma OneNameIff(a: SpecBox, b: SpecBox, dur: DurationReader)
    requires ParseSpec(UserOf(a), dur).Ok? && ParseSpec(UserOf(b), dur).Ok?
    ensures ParseSpec(UserOf(a), dur).value.name == ParseSpec(UserOf(b), dur).value.name <==> BoxName(a) == BoxName(b)
  {
    AcceptedName(a, dur);
    AcceptedName(b, dur);
  }

  /** Apply succeeds, whatever the names, when the entries to be taken are acceptable. */
  lemma {:induction false} QuietApplySucceeds(c: Config, rows: Rows, keys: Keys, live: set<Id>, used: set<Id>,
                                              spec: seq<SpecBox>, turns: seq<Turn>)
    requires |turns| == |spec| && Quiet(turns) && rows.Keys <= used && Fresh(used, turns)
    requires forall sb :: sb in spec ==> Acceptable(c, sb)
    ensures ApplyOf(c, rows, keys, live, spec, turns).ok
    decreases |spec|
  {
    hide AttachOf, RowsNext, After, UserOf, BoxName, Converged, Acceptable;
    if spec != [] {
      assert turns[0] in turns && Quiet(turns[1..]) && spec[0] in spec && forall sb :: sb in spec[1..] ==> sb in spec;
      AfterNothing(c, rows);
      var sb, t := spec[0], turns[0];
      var r := AttachOf(c, rows, OWNER, UserOf(sb), t.newId, t.now);
      TakeOne(c, rows, sb, t);
      TakeRows(c, rows, sb, t);
      UnparsedIsUnacceptable(c, sb);
      QuietApplySucceeds(c, rows, keys, live, used + Offered(t), spec[1..], turns[1..]);
      if !r.Refused? {
        QuietApplySucceeds(c, RowsNext(c, rows, AttachEvent(sb, t)), keys[sb.key := r.id], live, used + Offered(t),
                           spec[1..], turns[1..]);
      }
    }
  }

  /** So on an empty store Apply puts a key and the key with a trailing '~' on one box. */
  lemma TildeSharesABox(c: Config, key: string)
    requires c.backends == ["docker"] && Plain(key) && key != ""
    ensures var r := ApplyOf(c, map[], map[], {}, [SpecBox(key, ""), SpecBox(key + "~", "")],
                             [Turn([], "1", 0), Turn([], "2", 0)]);
            r.ok && key in r.keys && key + "~" in r.keys && r.keys[key] == r.keys[key + "~"]
  {
    var a, b := SpecBox(key, ""), SpecBox(key + "~", "");
    var spec, turns := [a, b], [Turn([], "1", 0), Turn([], "2", 0)];
    TildeNames(c, key);
    hide ApplyOf, Acceptable, BoxName;
    assert |b.key| == |key| + 1;
    FreshTwo(turns[0], turns[1]);
    QuietApplySucceeds(c, map[], map[], {}, {}, spec, turns);
    SharedIffOneName(c, map[], map[], {}, {}, spec, turns, a, b);
  }

  lemma FreshTwo(t: Turn, t': Turn)
    requires t.meanwhile == [] && t'.meanwhile == [] && t.newId != t'.newId
    ensures Fresh({}, [t, t'])
  {
    assert [t, t'][1..] == [t'] && [t'][1..] == [];
    assert Offered(t) == {t.newId} && Offered(t') == {t'.newId};
    assert Fresh({} + Offered(t) + Offered(t'), []);
    assert Fresh({} + Offered(t), [t']);
  }

  /** Cutting makes a trailing '~' disappear. */
  lemma TildeNames(c: Config, key: string)
    requires c.backends == ["docker"] && Plain(key)
    ensures BoxName(SpecBox(key, "")) == BoxName(SpecBox(key + "~", ""))
    ensures Acceptable(c, SpecBox(key, "")) && Acceptable(c, SpecBox(key + "~", ""))
  {
    var name := NameOf(key);
    UserParses(SpecBox(key, ""), c.durations);
    Associative(FLEET, key, "~");
    assert UserOf(SpecBox(key + "~", "")) == name + "~";
    assert name[0] == 'f';
    TildeParses(name, c.durations);
    hide ParseSpec, BoxName, UserOf, NameOf;
    OneNameIff(SpecBox(key, ""), SpecBox(key + "~", ""), c.durations);
  }

  lemma TildeParses(name: string, dur: DurationReader)
    requires Plain(name) && name != "" && name[0] == 'f'
    ensures ParseSpec(name + "~", dur) == Ok(Spec(name, "", "", "", 0, false, "", ""))
  {
    var s, u := Spec(name, "", "", "", 0, false, "", ""), name + "~";
    hide ParseSpec, Join, Body, Modified;
    NotSession(u);
    NotSession(name);
    TildeBody(u, s, dur);
    ParseSpecIsTheGrammar(u, dur, s);
  }

  lemma TildeBody(u: string, s: Spec, dur: DurationReader)
    requires u == s.name + "~" + s.backend && s.image == "" && s.flavor == "" && '+' !in u && s.grace == 0
               && !s.forceNew
    ensures Body(u, s) && Modified(u, u, s, dur)
  {
    assert NameSegment(u, s) && ImageSegments([], s);
    assert u == Join([u] + [], ':');
  }

  lemma NotSession(u: string)
    requires u != "" && u[0] == 'f'
    ensures !HasPrefix(u, SESSION) && !Reserved(u)
  {
    assert "cli"[0] == 'c' && "sudo"[0] == 's' && SESSION[0] == 's';
  }

  /** A key given twice for a new name: undisturbed, the same box is returned twice. */
  lemma RepeatedKeyReturnsTwice(c: Config, rows: Rows, keys: Keys, sb: SpecBox, t: Turn, t': Turn)
    requires sb.key != "" && sb.key !in keys && Acceptable(c, sb) && Lookup(rows, c.tenant, OWNER, BoxName(sb)).None?
    requires Unique(rows) && t.newId !in rows && t'.newId !in rows && t'.newId != t.newId && t.meanwhile == []
               && t'.meanwhile == []
    ensures var r := ApplyOf(c, rows, keys, FleetOf(c, rows), [sb, sb], [t, t']);
            r.ok && r.created == [t.newId, t.newId] && r.keys == keys[sb.key := t.newId]
  {
    var live := FleetOf(c, rows);
    var rows' := RowsNext(c, rows, AttachEvent(sb, t));
    TakeOne(c, rows, sb, t);
    TakeRows(c, rows, sb, t);
    TakeOne(c, rows', sb, t');
    Safety.UniqueAfter(c, rows, AttachEvent(sb, t));
    UnparsedIsUnacceptable(c, sb);
    hide AttachOf, RowsNext, UserOf, BoxName, Acceptable, ApplyOf;
    assert AttachOf(c, rows', OWNER, UserOf(sb), t'.newId, t'.now) == Reused(t.newId);
    TwoEntries(c, rows, keys, live, sb, t, t');
  }

  lemma TwoEntries(c: Config, rows: Rows, keys: Keys, live: set<Id>, sb: SpecBox, t: Turn, t': Turn)
    requires sb.key != "" && sb.key !in keys && t.newId !in live && t.meanwhile == [] && t'.meanwhile == []
    requires var r := AttachOf(c, rows, OWNER, UserOf(sb), t.newId, t.now); r.Created? && r.id == t.newId
    requires AttachOf(c, RowsNext(c, rows, AttachEvent(sb, t)), OWNER, UserOf(sb), t'.newId, t'.now) == Reused(t.newId)
    ensures var r := ApplyOf(c, rows, keys, live, [sb, sb], [t, t']);
            r.ok && r.created == [t.newId, t.newId] && r.keys == keys[sb.key := t.newId]
  {
    hide AttachOf, RowsNext, After, UserOf;
    var spec, turns := [sb, sb], [t, t'];
    var rows' := RowsNext(c, rows, AttachEvent(sb, t));
    var rows2, keys' := RowsNext(c, rows', AttachEvent(sb, t')), keys[sb.key := t.newId];
    AfterNothing(c, rows);
    AfterNothing(c, rows');
    assert spec[1..] == [sb] && turns[1..] == [t'] && spec[1..][1..] == [] && turns[1..][1..] == [];
    assert ApplyOf(c, rows2, keys'[sb.key := t.newId], live, [], []) == Convergence(true, rows2, keys', []);
    assert ApplyOf(c, rows', keys', live, [sb], [t']) == Convergence(true, rows2, keys', [t.newId]);
  }

  /** A repeat right after a successful, undisturbed Apply creates nothing, whatever others do during it. */
  lemma ApplyTwice(c: Config, rows: Rows, keys: Keys, names: map<string, string>, used: set<Id>, spec: seq<SpecBox>,
                   turns: seq<Turn>, turns': seq<Turn>)
    requires |turns| == |spec| == |turns'| && Quiet(turns)
    requires DistinctKeys(spec) && KeysOk(c, rows, keys, names) && Naming(names, keys, FleetOf(c, rows), spec)
    requires rows.Keys + keys.Values <= used && Fresh(used, turns)
    ensures var r := ApplyOf(c, rows, keys, FleetOf(c, rows), spec, turns);
            var again := ApplyOf(c, r.rows, r.keys, FleetOf(c, r.rows), spec, turns');
            r.ok ==> again.ok && again.created == [] && again.keys == r.keys
  {
    var live := FleetOf(c, rows);
    var r := ApplyOf(c, rows, keys, live, spec, turns);
    ApplyConverges(c, rows, keys, names, live, used, spec, turns);
    QuietApplyStays(c, rows, keys, live, spec, turns);
    hide ApplyOf, Fresh, AllOffered, Quiet, Naming, DistinctKeys, Acceptable;
    if r.ok {
      var missing := Missing(keys, live, spec);
      forall sb | sb in spec && sb.key != "" ensures Converged(r.keys, FleetOf(c, r.rows), sb.key) {
        if sb.key in missing {
          var i :| 0 <= i < |missing| && missing[i] == sb.key;
          assert r.created[i] in r.created;
        } else {
          NotMissing(keys, live, spec, sb);
        }
      }
      RepeatCreatesNothing(c, r.rows, r.keys, FleetOf(c, r.rows), spec, turns');
    }
  }

  lemma {:induction false} NotMissing(keys: Keys, live: set<Id>, spec: seq<SpecBox>, sb: SpecBox)
    requires sb in spec && sb.key != ""
    ensures sb.key in Missing(keys, live, spec) || Converged(keys, live, sb.key)
  {
    if sb != spec[0] {
      NotMissing(keys, live, spec[1..], sb);
    }
  }

  function Prepended(created: seq<Id>, r: Convergence): Convergence {
    r.(created := created + r.created)
  }

  /** An Apply is its entries one after another, each against whatever others made of the rows by then. */
  lemma ApplySplits(c: Config, rows: Rows, keys: Keys, live: set<Id>, spec: seq<SpecBox>, turns: seq<Turn>)
    requires |turns| == |spec| && spec != []
    ensures var one := ApplyOf(c, After(c, rows, turns[0].meanwhile), keys, live, [spec[0]],
                               [turns[0].(meanwhile := [])]);
            ApplyOf(c, rows, keys, live, spec, turns) ==
              if !one.ok then one
              else Prepended(one.created, ApplyOf(c, one.rows, one.keys, live, spec[1..], turns[1..]))
  {
    hide AttachOf, RowsNext, UserOf, After, ApplyOf, Wanted;
    var sb, t := spec[0], turns[0].(meanwhile := []);
    var now := After(c, rows, turns[0].meanwhile);
    var r := AttachOf(c, now, OWNER, UserOf(sb), t.newId, t.now);
    var later := [t] + turns[1..];
    assert later[1..] == turns[1..] && [sb][1..] == [] && [t][1..] == [];
    MeanwhileFirst(c, rows, keys, live, spec, turns);
    ApplyHead(c, now, keys, live, spec, later);
    ApplyHead(c, now, keys, live, [sb], [t]);
    ApplyNothing(c, now, keys, live);
    if Wanted(keys, live, sb) && !r.Refused? {
      ApplyNothing(c, RowsNext(c, now, AttachEvent(sb, t)), keys[sb.key := r.id], live);
    }
  }

  lemma MeanwhileFirst(c: Config, rows: Rows, keys: Keys, live: set<Id>, spec: seq<SpecBox>, turns: seq<Turn>)
    requires |turns| == |spec| && spec != []
    ensures ApplyOf(c, rows, keys, live, spec, turns)
         == ApplyOf(c, After(c, rows, turns[0].meanwhile), keys, live, spec, [turns[0].(meanwhile := [])] + turns[1..])
  {
    AfterNothing(c, After(c, rows, turns[0].meanwhile));
    hide AttachOf, RowsNext, UserOf, After;
    assert ([turns[0].(meanwhile := [])] + turns[1..])[1..] == turns[1..];
  }

  lemma ApplyFrom(c: Config, rows: Rows, keys: Keys, live: set<Id>, spec: seq<SpecBox>, turns: seq<Turn>, k: nat)
    requires k < |spec| == |turns| && turns[k].meanwhile == []
    ensures var one := ApplyOf(c, rows, keys, live, [spec[k]], [turns[k]]);
            ApplyOf(c, rows, keys, live, spec[k..], turns[k..]) ==
              if !one.ok then one
              else Prepended(one.created, ApplyOf(c, one.rows, one.keys, live, spec[k + 1..], turns[k + 1..]))
  {
    hide ApplyOf, After;
    ApplySplits(c, rows, keys, live, spec[k..], turns[k..]);
    AfterNothing(c, rows);
    assert spec[k..][1..] == spec[k + 1..] && turns[k..][1..] == turns[k + 1..];
    assert turns[k].(meanwhile := []) == turns[k];
  }

  lemma ApplyToNone(c: Config, rows: Rows, keys: Keys, live: set<Id>, spec: seq<SpecBox>, turns: seq<Turn>)
    requires |spec| == |turns|
    ensures ApplyOf(c, rows, keys, live, spec[|spec|..], turns[|spec|..]) == Convergence(true, rows, keys, [])
  {
  }

  lemma RefusedAddsNothing(c: Config, rows: Rows, sb: SpecBox, t: Turn)
    requires AttachOf(c, rows, OWNER, UserOf(sb), t.newId, t.now).Refused?
    ensures RowsNext(c, rows, AttachEvent(sb, t)) == rows
  {
  }

  /** The backend the protocol drives. */
  class EngineBackend {
    const engine: Engine
    var keys: Keys

    constructor (engine: Engine)
      ensures this.engine == engine && keys == map[]
    {
      this.engine, keys := engine, map[];
    }

    method ListFleet() returns (live: set<Id>)
      requires engine.cfg.tenant != ""
      ensures live == FleetOf(engine.cfg, engine.store.rows)
    {
      var ids := engine.store.List(engine.cfg.tenant);
      live := set id | id in ids;
    }

    /** One entry of an Apply, whatever happened before it. */
    method ApplyEntry(sb: SpecBox, live: set<Id>, newId: Id, now: int) returns (ok: bool, created: seq<Id>)
      requires engine.cfg.tenant != "" && Unique(engine.store.rows)
      modifies this, engine.store
      ensures Convergence(ok, engine.store.rows, keys, created)
              == ApplyOf(engine.cfg, old(engine.store.rows), old(keys), live, [sb], [Turn([], newId, now)])
      ensures Unique(engine.store.rows)
    {
      hide AttachOf, RowsNext, UserOf, Unique, ApplyOf;
      var t := Turn([], newId, now);
      assert [sb][1..] == [] && [t][1..] == [];
      ApplyHead(engine.cfg, engine.store.rows, keys, live, [sb], [t]);
      ok, created := true, [];
      if sb.key != "" && !(sb.key in keys && keys[sb.key] in live) {
        Safety.UniqueAfter(engine.cfg, engine.store.rows, AttachEvent(sb, t));
        var r := engine.Attach(OWNER, UserOf(sb), newId, now);
        if r.Refused? {
          RefusedAddsNothing(engine.cfg, old(engine.store.rows), sb, t);
          return false, [];
        }
        keys := keys[sb.key := r.id];
        created := [r.id];
      }
      ApplyNothing(engine.cfg, engine.store.rows, keys, live);
    }

    /** One Apply with no step of others inside it. */
    method Apply(spec: seq<SpecBox>, turns: seq<Turn>) returns (ok: bool, created: seq<Id>)
      requires engine.cfg.tenant != "" && |turns| == |spec| && Quiet(turns) && Unique(engine.store.rows)
      modifies this, engine.store
      ensures Convergence(ok, engine.store.rows, keys, created)
              == ApplyOf(engine.cfg, old(engine.store.rows), old(keys), FleetOf(engine.cfg, old(engine.store.rows)),
                         spec, turns)
      ensures Unique(engine.store.rows)
    {
      hide Unique, ApplyOf;
      var live := ListFleet();
      created := [];
      ghost var whole := ApplyOf(engine.cfg, engine.store.rows, keys, live, spec, turns);
      var k := 0;
      assert spec[0..] == spec && turns[0..] == turns;
      while k < |spec|
        invariant 0 <= k <= |spec| && Unique(engine.store.rows)
        invariant whole == Prepended(created, ApplyOf(engine.cfg, engine.store.rows, keys, live, spec[k..], turns[k..]))
      {
        assert turns[k] in turns;
        ApplyFrom(engine.cfg, engine.store.rows, keys, live, spec, turns, k);
        assert turns[k] == Turn([], turns[k].newId, turns[k].now);
        var done, more := ApplyEntry(spec[k], live, turns[k].newId, turns[k].now);
        created := created + more;
        if !done {
          return false, created;
        }
        k := k + 1;
      }
      ok := true;
      ApplyToNone(engine.cfg, engine.store.rows, keys, live, spec, turns);
    }
  }

  // ---- the texts themselves ----

  /** The username of an entry, and the owner its box goes to. */
  lemma EntryText(sb: SpecBox)
    ensures UserOf(sb) == "fleet-" + sb.key + (if sb.image == "" then "" else ":" + sb.image)
    ensures AttachEvent(sb, Turn([], "", 0)).act.owner == "mcp"
  {
    if sb.image != "" {
      Associative("fleet-" + sb.key, ":", sb.image);
    }
  }

  /** Which keys an Apply acts on: those of entries with a key whose recorded box, if any, is not in the fleet. */
  lemma {:induction false} MissingIff(keys: Keys, live: set<Id>, spec: seq<SpecBox>, k: string)
    ensures k in Missing(keys, live, spec) <==>
              k != "" && !(k in keys && keys[k] in live) && exists sb :: sb in spec && sb.key == k
  {
    if spec != [] {
      MissingIff(keys, live, spec[1..], k);
      assert forall sb :: sb in spec <==> sb == spec[0] || sb in spec[1..];
    }
  }
}
