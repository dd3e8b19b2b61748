/** The engine the front door drives (internal/core/box/engine.go), the agent sink and
    the metadata write seam (cmd/boxd/main.go): the store writers besides the reconciler. */
module Engines {
  import opened Common
  import opened Phases
  import opened Boxes
  import opened Usernames
  import opened Lifecycle
  import opened Stores

  /** A step that only rewrites one existing row. */
  lemma RewritesOneRow(c: Config, rows: Rows, e: Event, id: Id, b: Box)
    requires id in rows && Born(c, rows, e).None?
    requires RowNext(c, rows, e, id) == Some(b)
    requires forall i :: i in rows && i != id ==> RowNext(c, rows, e, i) == Some(rows[i])
    ensures RowsNext(c, rows, e) == rows[id := b]
  {
  }

  lemma AddsOneRow(c: Config, rows: Rows, e: Event, id: Id, b: Box)
    requires Born(c, rows, e) == Some((id, b))
    requires forall i :: i in rows ==> RowNext(c, rows, e, i) == Some(rows[i])
    ensures RowsNext(c, rows, e) == rows[id := b]
  {
  }

  lemma ChangesNoRow(c: Config, rows: Rows, e: Event)
    requires Born(c, rows, e).None?
    requires forall i :: i in rows ==> RowNext(c, rows, e, i) == Some(rows[i])
    ensures RowsNext(c, rows, e) == rows
  {
  }

  class Engine {
    const cfg: Config
    const store: Store

    constructor (cfg: Config, store: Store)
      ensures this.cfg == cfg && this.store == store
    {
      this.cfg, this.store := cfg, store;
    }

    /** The owner's box of that name; unique, so the store's order does not matter. */
    method ByOwnerName(owner: string, name: string) returns (r: Option<Id>)
      requires cfg.tenant != "" && Unique(store.rows)
      ensures r == Lookup(store.rows, cfg.tenant, owner, name)
    {
      var ids := store.List(cfg.tenant);
      var k := 0;
      while k < |ids|
        invariant 0 <= k <= |ids|
        invariant forall i :: 0 <= i < k ==> !Named(store.rows[ids[i]], cfg.tenant, owner, name)
      {
        var b := store.rows[ids[k]];
        if b.spec.owner == owner && b.spec.name == name {
          return Some(ids[k]);
        }
        k := k + 1;
      }
      return None;
    }

    /** Reattach the owner's box of that name, or create it. */
    method Attach(owner: string, username: string, newId: Id, now: int) returns (r: AttachResult)
      requires cfg.tenant != "" && Unique(store.rows)
      modifies store
      ensures r == AttachOf(cfg, old(store.rows), owner, username, newId, now)
      ensures r.Created? ==>
                && r.id == newId && r.id !in old(store.rows) && r.row.attached
                && r.row.spec.ephemeral == !cfg.persistent(owner) && r.row.autoSuspend == cfg.persistent(owner)
                && store.rows == old(store.rows)[newId := r.row]
      ensures r.Reused? ==>
                && r.id in old(store.rows)
                && store.rows == old(store.rows)[r.id := old(store.rows)[r.id].(attached := true)]
      ensures r.Refused? ==> store.rows == old(store.rows)
      ensures store.rows == RowsNext(cfg, old(store.rows), Event(now, Lifecycle.Attach(owner, username, newId)))
    {
      ghost var e := Event(now, Lifecycle.Attach(owner, username, newId));
      var parsed := ParseSpec(username, cfg.durations);
      hide ParseSpec, Build, RowsNext;
      r := Refused;
      if parsed.Ok? && parsed.value.special == "" {
        var found := ByOwnerName(owner, parsed.value.name);
        match found {
          case Some(id) =>
            r := Reused(id);
            RewritesOneRow(cfg, store.rows, e, id, store.rows[id].(attached := true));
            store.Update(id, store.rows[id].(attached := true));
            return;
          case None =>
            var built := Build(cfg, owner, parsed.value, now);
            if built.Ok? {
              BuiltName(cfg, owner, parsed.value, now);
              var b := built.value.(attached := true);
              var ok := store.Create(newId, b);
              if ok {
                r := Created(newId, b);
                AddsOneRow(cfg, old(store.rows), e, newId, b);
                return;
              }
            }
        }
      }
      ChangesNoRow(cfg, old(store.rows), e);
    }

    /** The session-end hook handed out by Attach. */
    method Release(id: Id, now: int)
      modifies store
      ensures store.rows == RowsNext(cfg, old(store.rows), Event(now, Lifecycle.Release(id)))
    {
      var got := store.Get(id);
      if got.None? {
        return;
      }
      store.Update(id, got.value.(attached := false, lastActive := Some(now)));
    }

    method Destroy(id: Id) returns (found: bool)
      modifies store
      ensures found == (id in old(store.rows))
      ensures store.rows == RowsNext(cfg, old(store.rows), Event(0, DestroyBox(id)))
    {
      var got := store.Get(id);
      found := got.Some?;
      if found {
        store.Update(id, got.value.(phase := Destroying));
      }
    }

    /** boxSink.SetAgentConnected */
    method SetAgentConnected(id: Id, connected: bool)
      modifies store
      ensures store.rows == RowsNext(cfg, old(store.rows), Event(0, Agent(id, connected)))
    {
      var got := store.Get(id);
      if got.Some? {
        store.Update(id, got.value.(agentConnected := connected));
      }
    }

    /** The metadata write seam: resolve the caller by source address, apply, persist. */
    method Mutate(ip: string, cmd: Command, now: int) returns (r: Option<Id>)
      modifies store
      ensures r.None? ==> store.rows == old(store.rows)
      ensures r.None? ==> forall id :: id in store.rows ==> !Reaches(store.rows[id], ip)
      ensures r.Some? ==> r.value in old(store.rows) && Reaches(old(store.rows)[r.value], ip)
                          && store.rows == RowsNext(cfg, old(store.rows), Event(now, Meta(r.value, ip, cmd)))
      ensures r.Some? ==>
                var b := old(store.rows)[r.value];
                && ip != "" && b.ip == ip
                && store.rows == old(store.rows)[r.value :=
                     match cmd
                     case KeepAlive(d) => b.(keepAliveUntil := Some(now + d))
                     case AutoSuspend(on) => b.(autoSuspend := on)
                     case Idle(t) => b.(idleOverride := t)
                     case Heartbeat(load) =>
                       if b.attached || load >= cfg.idle.loadThreshold then b.(load := load, lastActive := Some(now))
                       else b.(load := load)]
    {
      var ids := set id | id in store.rows && Reaches(store.rows[id], ip);
      if ids == {} {
        assert forall id :: id in store.rows && Reaches(store.rows[id], ip) ==> id in ids;
        return None;
      }
      var id :| id in ids;
      AppliedIs(cfg, store.rows[id], cmd, now);
      MetaStep(cfg, store.rows, id, ip, cmd, now);
      hide Applied, RowsNext;
      store.Update(id, Applied(cfg, store.rows[id], cmd, now));
      return Some(id);
    }
  }

  lemma BuiltName(c: Config, owner: string, spec: Spec, now: int)
    requires Build(c, owner, spec, now).Ok?
    ensures var b := Build(c, owner, spec, now).value;
            && Named(b, c.tenant, owner, spec.name)
            && b.spec.ephemeral == !c.persistent(owner) && b.autoSuspend == c.persistent(owner)
  {
  }

  lemma AppliedIs(c: Config, b: Box, cmd: Command, now: int)
    ensures Applied(c, b, cmd, now).spec == b.spec
    ensures Applied(c, b, cmd, now) ==
              match cmd
              case KeepAlive(d) => b.(keepAliveUntil := Some(now + d))
              case AutoSuspend(on) => b.(autoSuspend := on)
              case Idle(t) => b.(idleOverride := t)
              case Heartbeat(load) =>
                if b.attached || load >= c.idle.loadThreshold then b.(load := load, lastActive := Some(now))
                else b.(load := load)
  {
  }

  lemma MetaStep(c: Config, rows: Rows, id: Id, ip: string, cmd: Command, now: int)
    requires id in rows && Reaches(rows[id], ip)
    ensures RowsNext(c, rows, Event(now, Meta(id, ip, cmd))) == rows[id := Applied(c, rows[id], cmd, now)]
  {
    hide Applied;
    RewritesOneRow(c, rows, Event(now, Meta(id, ip, cmd)), id, Applied(c, rows[id], cmd, now));
  }
}
