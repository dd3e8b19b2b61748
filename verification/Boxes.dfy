/** A box row and the pure decisions made on it (internal/core/box: box.go,
    lifetime.go, idle.go). Times and durations are integers; None is Go's zero time. */
module Boxes {
  import opened Common
  import opened Phases

  /** What a row is created with and keeps for life. */
  datatype BoxSpec = BoxSpec(tenant: string, owner: string, name: string, image: string, backend: string,
                             ephemeral: bool, grace: int, maxTTL: int, createdAt: int)

  datatype Box = Box(
    spec: BoxSpec, phase: Phase, instanceRef: string, ip: string,
    agentConnected: bool, attached: bool, deadline: Option<int>,
    autoSuspend: bool, keepAliveUntil: Option<int>, idleOverride: int,
    load: real, lastActive: Option<int>)

  datatype IdleConfig = IdleConfig(timeout: int, loadThreshold: real)

  /** box.New: a Pending row with nothing observed yet. */
  function NewBox(spec: BoxSpec): Box {
    Box(spec, Pending, "", "", false, false, None, false, None, 0, 0.0, None)
  }

  // ---- lifetime.go ----

  datatype ReapAction = Reap | SetDeadline(at: int) | ClearDeadline | NoAction

  predicate PastMaxTTL(b: Box, now: int) {
    b.spec.maxTTL > 0 && now - b.spec.createdAt >= b.spec.maxTTL
  }

  function EvalLifetime(b: Box, now: int): ReapAction {
    if !b.spec.ephemeral then NoAction
    else if PastMaxTTL(b, now) then Reap
    else if b.attached then (if b.deadline.Some? then ClearDeadline else NoAction)
    else if b.spec.grace <= 0 then Reap
    else if b.deadline.None? then SetDeadline(now + b.spec.grace)
    else if now >= b.deadline.value then Reap
    else NoAction
  }

  // ---- idle.go ----

  predicate Busy(b: Box, load: real, cfg: IdleConfig) {
    b.attached || load >= cfg.loadThreshold
  }

  function RecordHeartbeat(b: Box, load: real, now: int, cfg: IdleConfig): Box {
    var b' := b.(load := load);
    if Busy(b, load, cfg) then b'.(lastActive := Some(now)) else b'
  }

  function EffectiveIdle(b: Box, def: IdleConfig): IdleConfig {
    if b.idleOverride > 0 then def.(timeout := b.idleOverride) else def
  }

  predicate IsIdle(b: Box, now: int, cfg: IdleConfig) {
    && !b.attached && b.load < cfg.loadThreshold && b.lastActive.Some?
    && now - b.lastActive.value >= cfg.timeout
  }
}
