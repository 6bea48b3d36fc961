/** The idle decision of `checkIdleState` in main.js: system idle seconds
    are compared with a threshold taken from the configuration. */
module IdleMonitor {
  import opened Wrappers
  import opened ConfigStore

  /** JavaScript's `minutes || fallback` on a number: an absent value and
      zero are both falsy and select the fallback. */
  function OrFalsy(minutes: Option<nat>, fallback: nat): (m: nat)
    ensures minutes.Some? && minutes.value != 0 ==> m == minutes.value
    ensures minutes.None? || minutes.value == 0 ==> m == fallback
  {
    match minutes
    case Some(m) => if m != 0 then m else fallback
    case None => fallback
  }

  /** The idle threshold in seconds. */
  function IdleThreshold(minutes: Option<nat>): (t: nat)
    ensures minutes.Some? && minutes.value != 0 ==> t == minutes.value * 60
    ensures minutes.None? || minutes.value == 0 ==> t == 120
    ensures t >= 60
  {
    OrFalsy(minutes, 2) * 60
  }

  /** Whether a tick that measured `idleTime` seconds counts as idle. */
  predicate IsIdle(idleTime: nat, config: Config)
    ensures config.idleMinutes.Some? && config.idleMinutes.value != 0 ==>
      (IsIdle(idleTime, config) <==> idleTime >= config.idleMinutes.value * 60)
    ensures config.idleMinutes.None? || config.idleMinutes.value == 0 ==>
      (IsIdle(idleTime, config) <==> idleTime >= 120)
  {
    idleTime >= IdleThreshold(config.idleMinutes)
  }

  /** The comparison is inclusive: one second short of the threshold is
      not idle, the threshold itself is. A freshly active user (idle time
      0) is never idle, whatever the configuration. */
  lemma IdleBoundary(config: Config)
    ensures var t := IdleThreshold(config.idleMinutes);
      !IsIdle(t - 1, config) && IsIdle(t, config) && !IsIdle(0, config)
  {
  }

  /** Idleness is monotone in the measured idle time. */
  lemma IdleMonotone(config: Config, t: nat, t': nat)
    requires IsIdle(t, config) && t <= t'
    ensures IsIdle(t', config)
  {
  }
}
