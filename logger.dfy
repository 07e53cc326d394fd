/** `Logger` (utils/logger.py): five named severity levels, a current
  * threshold and a per-level switch. A message is printed when its level
  * is known, ranks at or above the current level, and is switched on. */
module Logging {

  /** The levels and their ranks, fixed at construction. */
  const Levels: map<string, nat> :=
    map["DEBUG" := 0, "INFO" := 1, "WARNING" := 2, "ERROR" := 3, "CRITICAL" := 4]

  /** What a setter does: it applies, or it raises
    * `ValueError("Invalid log level '<name>'")` and changes nothing. */
  datatype Outcome = Done | ValueError(message: string)

  function InvalidLevel(level: string): string {
    "Invalid log level '" + level + "'"
  }

  /** What one call to `log` does: print the level and message (after a
    * timestamp, not modelled), print nothing, or raise KeyError with the
    * missing key. */
  datatype Emitted = Printed(level: string, message: string) | Silent | KeyError(key: string)

  /** The decision `log(level, message)` takes under threshold `current`
    * and switches `enabled`. An unknown level is ignored; a current level
    * that `set_level` never validated (only the constructor lets one in)
    * raises KeyError on the lookup of the threshold; a rank below the
    * threshold short-circuits before the switch is read. */
  function Decide(current: string, enabled: map<string, bool>, level: string, message: string): (e: Emitted)
    requires forall l :: l in Levels ==> l in enabled
    ensures e.Printed? <==>
              level in Levels && current in Levels && Levels[level] >= Levels[current] && enabled[level]
    ensures e.Printed? ==> e == Printed(level, message)
    ensures e.KeyError? <==> level in Levels && current !in Levels
    ensures e.KeyError? ==> e.key == current
  {
    if level !in Levels then Silent
    else if current !in Levels then KeyError(current)
    else if Levels[level] >= Levels[current] && enabled[level] then Printed(level, message)
    else Silent
  }

  class Logger {
    var currentLevel: string
    var enabledLevels: map<string, bool>

    /** Every level has a switch, and nothing else does. */
    predicate Valid()
      reads this
    {
      enabledLevels.Keys == Levels.Keys
    }

    /** `Logger(log_level)`: the level is stored unchecked and every level
      * starts switched on. */
    constructor (logLevel: string := "INFO")
      ensures Valid() && currentLevel == logLevel
      ensures forall l :: l in Levels ==> enabledLevels[l]
    {
      currentLevel := logLevel;
      enabledLevels := map l | l in Levels :: true;
    }

    method SetLevel(level: string) returns (r: Outcome)
      modifies this
      ensures r == (if level in Levels then Done else ValueError(InvalidLevel(level)))
      ensures currentLevel == (if level in Levels then level else old(currentLevel))
      ensures enabledLevels == old(enabledLevels)
    {
      if level in Levels {
        currentLevel := level;
        r := Done;
      } else {
        r := ValueError(InvalidLevel(level));
      }
    }

    method EnableLevel(level: string) returns (r: Outcome)
      requires Valid()
      modifies this
      ensures Valid()
      ensures r == (if level in Levels then Done else ValueError(InvalidLevel(level)))
      ensures enabledLevels == if level in Levels then old(enabledLevels)[level := true] else old(enabledLevels)
      ensures currentLevel == old(currentLevel)
    {
      if level in Levels {
        enabledLevels := enabledLevels[level := true];
        r := Done;
      } else {
        r := ValueError(InvalidLevel(level));
      }
    }

    method DisableLevel(level: string) returns (r: Outcome)
      requires Valid()
      modifies this
      ensures Valid()
      ensures r == (if level in Levels then Done else ValueError(InvalidLevel(level)))
      ensures enabledLevels == if level in Levels then old(enabledLevels)[level := false] else old(enabledLevels)
      ensures currentLevel == old(currentLevel)
    {
      if level in Levels {
        enabledLevels := enabledLevels[level := false];
        r := Done;
      } else {
        r := ValueError(InvalidLevel(level));
      }
    }

    /** `log(level, message)`: it changes nothing. */
    method Log(level: string, message: string) returns (e: Emitted)
      requires Valid()
      ensures e == Decide(currentLevel, enabledLevels, level, message)
    {
      if level in Levels {
        if currentLevel !in Levels {
          return KeyError(currentLevel);
        }
        if Levels[level] >= Levels[currentLevel] && enabledLevels[level] {
          return Printed(level, message);
        }
      }
      return Silent;
    }

    method Debug(message: string) returns (e: Emitted)
      requires Valid()
      ensures e == Decide(currentLevel, enabledLevels, "DEBUG", message)
    {
      e := Log("DEBUG", message);
    }

    method Info(message: string) returns (e: Emitted)
      requires Valid()
      ensures e == Decide(currentLevel, enabledLevels, "INFO", message)
    {
      e := Log("INFO", message);
    }

    method Warning(message: string) returns (e: Emitted)
      requires Valid()
      ensures e == Decide(currentLevel, enabledLevels, "WARNING", message)
    {
      e := Log("WARNING", message);
    }

    method Error(message: string) returns (e: Emitted)
      requires Valid()
      ensures e == Decide(currentLevel, enabledLevels, "ERROR", message)
    {
      e := Log("ERROR", message);
    }

    method Critical(message: string) returns (e: Emitted)
      requires Valid()
      ensures e == Decide(currentLevel, enabledLevels, "CRITICAL", message)
    {
      e := Log("CRITICAL", message);
    }
  }

  /** The ranks order the five levels strictly, DEBUG lowest. */
  lemma LevelOrder()
    ensures Levels.Keys == {"DEBUG", "INFO", "WARNING", "ERROR", "CRITICAL"}
    ensures Levels["DEBUG"] < Levels["INFO"] < Levels["WARNING"] < Levels["ERROR"] < Levels["CRITICAL"]
  {
  }

  /** Raising the threshold never lets more through: whatever is printed
    * at a higher current level is printed at a lower one too. */
  lemma ThresholdMonotone(lo: string, hi: string, enabled: map<string, bool>, level: string, message: string)
    requires forall l :: l in Levels ==> l in enabled
    requires lo in Levels && hi in Levels && Levels[lo] <= Levels[hi]
    ensures Decide(hi, enabled, level, message).Printed? ==> Decide(lo, enabled, level, message).Printed?
  {
  }

  /** Among switched-on levels, what is printed is closed upwards: a level
    * ranking at least as high as a printed one is printed too. */
  lemma PrintedUpwardClosed(current: string, enabled: map<string, bool>, a: string, b: string, message: string)
    requires forall l :: l in Levels ==> l in enabled
    requires a in Levels && b in Levels && Levels[a] <= Levels[b] && enabled[b]
    ensures Decide(current, enabled, a, message).Printed? ==> Decide(current, enabled, b, message).Printed?
  {
  }

  /** A switched-off level is silent whatever the threshold. */
  lemma DisabledIsSilent(current: string, enabled: map<string, bool>, level: string, message: string)
    requires forall l :: l in Levels ==> l in enabled
    requires level in Levels && !enabled[level]
    ensures !Decide(current, enabled, level, message).Printed?
  {
  }

  /** With every level on and the threshold at WARNING, WARNING, ERROR and
    * CRITICAL are printed and DEBUG and INFO are not. */
  lemma WarningThreshold(message: string)
    ensures var on := map l | l in Levels :: true;
      forall l :: l in Levels ==>
        (Decide("WARNING", on, l, message).Printed? <==> l in {"WARNING", "ERROR", "CRITICAL"})
  {
  }
}
