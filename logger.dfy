/** The log levels of `pkg/graphserver` (logger.go). */
module Logger {

  /** `type Level int` (a 64-bit signed integer). */
  newtype Level = x: int | -0x8000_0000_0000_0000 <= x < 0x8000_0000_0000_0000 {

    /** The level's name: the three named levels have their own, every other value is
        "unknown". */
    function String(): (name: string)
      ensures name == "error" <==> this == LevelError
      ensures name == "info" <==> this == LevelInfo
      ensures name == "warn" <==> this == LevelWarn
      ensures name == "unknown" <==> this != LevelError && this != LevelInfo && this != LevelWarn
    {
      if this == LevelError then "error"
      else if this == LevelInfo then "info"
      else if this == LevelWarn then "warn"
      else "unknown"
    }
  }

  const LevelInfo: Level := 0
  const LevelWarn: Level := 4
  const LevelError: Level := 8

  /** String is total with exactly four possible results. */
  lemma StringHasFourValues(l: Level)
    ensures l.String() in {"error", "info", "warn", "unknown"}
  {
  }

  /** The named levels are ordered by severity, so the worst of two levels is the larger. */
  lemma SeverityOrder()
    ensures LevelInfo < LevelWarn < LevelError
  {
  }

  /** Distinct levels with names have distinct names: a name identifies its level. */
  lemma NamesIdentifyLevels(a: Level, b: Level)
    requires a.String() != "unknown" && a.String() == b.String()
    ensures a == b
  {
  }
}
