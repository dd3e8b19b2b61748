/** The row table (internal/core/boxsqlite/boxsqlite.go) as a keyed map, and the
    host side the reconciler calls. Calls into compute take their answer as an argument. */
module Stores {
  import opened Common
  import opened Boxes
  import opened Lifecycle

  /** What UPDATE stores: the identity columns of the row are not in its column list. */
  function Written(was: Box, b: Box): Box {
    b.(spec := b.spec.(tenant := was.spec.tenant, owner := was.spec.owner,
                       name := was.spec.name, createdAt := was.spec.createdAt))
  }

  /** An update renames no box and moves it to no other owner; all else is as given. */
  lemma WrittenIs(was: Box, b: Box)
    ensures var r := Written(was, b);
            && r.spec.tenant == was.spec.tenant && r.spec.owner == was.spec.owner && r.spec.name == was.spec.name
            && r.spec.createdAt == was.spec.createdAt
            && r.spec.image == b.spec.image && r.spec.backend == b.spec.backend
            && r.spec.ephemeral == b.spec.ephemeral && r.spec.grace == b.spec.grace && r.spec.maxTTL == b.spec.maxTTL
            && r.(spec := b.spec) == b
  {
  }

  class Store {
    var rows: Rows

    constructor ()
      ensures rows == map[]
    {
      rows := map[];
    }

    method Get(id: Id) returns (r: Option<Box>)
      ensures r == if id in rows then Some(rows[id]) else None
    {
      r := if id in rows then Some(rows[id]) else None;
    }

    /** Insert, subject to the primary key and UNIQUE(tenant_id, owner, name). */
    method Create(id: Id, b: Box) returns (ok: bool)
      modifies this
      ensures ok <==> id !in old(rows) && Lookup(old(rows), b.spec.tenant, b.spec.owner, b.spec.name).None?
      ensures rows == if ok then old(rows)[id := b] else old(rows)
      ensures Unique(old(rows)) ==> Unique(rows)
    {
      ok := id !in rows && forall i | i in rows :: !Named(rows[i], b.spec.tenant, b.spec.owner, b.spec.name);
      if ok {
        rows := rows[id := b];
      }
    }

    /** Update never inserts and never renames. */
    method Update(id: Id, b: Box)
      modifies this
      ensures rows == if id in old(rows) then old(rows)[id := Written(old(rows)[id], b)] else old(rows)
    {
      if id in rows {
        rows := rows[id := Written(rows[id], b)];
      }
    }

    method Delete(id: Id)
      modifies this
      ensures rows == old(rows) - {id}
    {
      rows := rows - {id};
    }

    /** The ids of a tenant's rows ("" lists all), each once, in no particular order. */
    method List(tenant: string) returns (ids: seq<Id>)
      ensures forall id :: id in ids <==> id in rows && (tenant == "" || rows[id].spec.tenant == tenant)
      ensures forall i, j :: 0 <= i < j < |ids| ==> ids[i] != ids[j]
    {
      var left := rows.Keys;
      ids := [];
      while left != {}
        invariant left <= rows.Keys
        invariant forall id ::
                    id in ids <==> id in rows && id !in left && (tenant == "" || rows[id].spec.tenant == tenant)
        invariant forall i, j :: 0 <= i < j < |ids| ==> ids[i] != ids[j]
        decreases left
      {
        var id :| id in left;
        left := left - {id};
        if tenant == "" || rows[id].spec.tenant == tenant {
          ids := ids + [id];
        }
      }
    }
  }

  datatype Call =
    | PreProvision | Provision | Status(ref: Ref) | Suspend(ref: Ref) | Resume(ref: Ref)
    | PostRunning | PreDestroy | Destroy(ref: Ref)

  function HookCall(c: Config, call: Call): seq<Call> {
    if c.hooks then [call] else []
  }

  /** The calls behind what a tick asks, in order. */
  function CallsOf(c: Config, ref: Ref, ask: Ask): seq<Call> {
    match ask
    case Nothing => []
    case Check => [Status(ref)]
    case Make(afterCheck, provision) =>
      (if afterCheck then [Status(ref)] else []) + HookCall(c, PreProvision) + (if provision then [Provision] else [])
    case Snapshot => [Suspend(ref)]
    case Wake => [Resume(ref)]
    case Serve => HookCall(c, PostRunning)
    case Teardown(destroy) => HookCall(c, PreDestroy) + if destroy then [Destroy(ref)] else []
  }

  /** Compute and the host layer's hooks: the instances held, and every call made. */
  class Host {
    var insts: Insts
    var log: seq<Call>

    method Note(call: Call)
      modifies this`log
      ensures log == old(log) + [call]
    {
      log := log + [call];
    }

    method Provision(id: Id, p: ProvisionAnswer)
      modifies this
      ensures insts == AfterProvision(old(insts), id, p) && log == old(log) + [Call.Provision]
    {
      var others := map r | r in insts && insts[r] != id :: insts[r];
      match p {
        case ProvisionOk(ref, _) => insts := others[ref := id];
        case ProvisionErr(keepsOld) => if !keepsOld { insts := others; }
        case ProvisionLeft(ref) => insts := others[ref := id];
      }
      log := log + [Call.Provision];
    }

    method Destroy(ref: Ref, d: DestroyAnswer)
      modifies this
      ensures insts == AfterDestroy(old(insts), ref, d) && log == old(log) + [Call.Destroy(ref)]
    {
      if d != DestroyErr(false) {
        insts := insts - {ref};
      }
      log := log + [Call.Destroy(ref)];
    }
  }
}
