/** What silence means for a raised approval (`timeout-policy.ts`), over an arbitrary action-class registry. */
module TimeoutPolicy {
  import opened Base

  datatype Reversibility = Irreversible | ReversibleWithEffort | Reversible

  datatype ActionClass = ActionClass(reversibility: Reversibility, spendsMoney: bool)

  /** `getActionClass`: the classes registered at one moment. It may be edited between any two reads. */
  type Registry = map<string, ActionClass>

  datatype Policy = AutoApprove | Deny | ParkAndEscalate

  /** Four hours, in milliseconds. */
  const TIMEOUT_WINDOW := 4 * 60 * 60 * 1000

  function ResolveTimeoutPolicy(registry: Registry, actionClass: string): Policy
  {
    if actionClass !in registry then ParkAndEscalate
    else
      var registered := registry[actionClass];
      if registered.reversibility.Irreversible? then ParkAndEscalate
      else if registered.spendsMoney then Deny
      else if registered.reversibility.ReversibleWithEffort? then Deny
      else AutoApprove
  }

  function TimeoutAtFor(policy: Policy, now: int): Option<int>
  {
    if policy.ParkAndEscalate? then None else Some(now + TIMEOUT_WINDOW)
  }

  /** How far a class is from running unasked: what it can undo, and what it costs. */
  function Risk(c: ActionClass): (risk: nat)
  {
    (match c.reversibility case Irreversible => 2 case ReversibleWithEffort => 1 case Reversible => 0)
    + if c.spendsMoney then 1 else 0
  }

  function Lenience(p: Policy): nat
  {
    match p case AutoApprove => 2 case Deny => 1 case ParkAndEscalate => 0
  }

  /**
   * Silence approves only a known class with no risk at all; a timer is set exactly when silence decides
   * something; and making a class riskier, or unregistering it, never makes silence more lenient.
   */
  lemma SilenceIsCautious(registry: Registry, registry': Registry, actionClass: string, now: int)
    ensures var p := ResolveTimeoutPolicy(registry, actionClass);
            && (p.AutoApprove? <==> actionClass in registry && Risk(registry[actionClass]) == 0)
            && (TimeoutAtFor(p, now).None? <==> actionClass !in registry || registry[actionClass].reversibility.Irreversible?)
    ensures (actionClass in registry' ==>
               && actionClass in registry
               && (registry[actionClass].spendsMoney ==> registry'[actionClass].spendsMoney)
               && Risk(registry[actionClass].(spendsMoney := false)) <= Risk(registry'[actionClass].(spendsMoney := false)))
            ==> Lenience(ResolveTimeoutPolicy(registry', actionClass)) <= Lenience(ResolveTimeoutPolicy(registry, actionClass))
  {
  }
}
