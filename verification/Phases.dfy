/** The box phase machine (internal/core/box/phase.go). */
module Phases {

  datatype Phase = Pending | Provisioning | Running | Suspended | Stopped | Failed | Destroying

  /** The legal phase changes; staying put is always legal. */
  predicate CanTransition(from: Phase, to: Phase) {
    from == to ||
    match from
    case Pending => to.Provisioning? || to.Failed? || to.Destroying?
    case Provisioning => to.Running? || to.Failed? || to.Destroying?
    case Running => to.Provisioning? || to.Suspended? || to.Stopped? || to.Failed? || to.Destroying?
    case Suspended => to.Running? || to.Provisioning? || to.Failed? || to.Destroying?
    case Stopped => to.Provisioning? || to.Destroying?
    case Failed => to.Provisioning? || to.Destroying?
    case Destroying => false
  }

  /** The table in full: these changes and no others. */
  lemma TableIs(from: Phase, to: Phase)
    ensures CanTransition(from, to) <==>
              || from == to
              || (from == Pending && (to == Provisioning || to == Failed || to == Destroying))
              || (from == Provisioning && (to == Running || to == Failed || to == Destroying))
              || (from == Running && to != Pending)
              || (from == Suspended && (to == Running || to == Provisioning || to == Failed || to == Destroying))
              || (from == Stopped && (to == Provisioning || to == Destroying))
              || (from == Failed && (to == Provisioning || to == Destroying))
  {
  }

  /** Phases in which the box's teardown hook may already have run. */
  predicate Ending(p: Phase) {
    p.Stopped? || p.Failed? || p.Destroying?
  }
}
