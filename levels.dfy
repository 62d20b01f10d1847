/** The seven severity levels of the logger, their ranks and names (src/main.ts:4, 68, 153-161). */
module Levels {
  import opened Wrappers

  datatype Level = Crit | Severe | Error | Warn | Info | Verbose | Debug

  /**
   * The rank winston is given for each level; lower is more severe. It is the level's position
   * in the table, and the LOG_LEVELS entry at that position is the level's name.
   */
  function Rank(l: Level): (r: nat)
    ensures r < |Ordered| && Ordered[r] == l && LevelNames[r] == Name(l)
  {
    match l
    case Crit => 0
    case Severe => 1
    case Error => 2
    case Warn => 3
    case Info => 4
    case Verbose => 5
    case Debug => 6
  }

  /** The level's name, as it is written into a line and accepted from LOG_LEVEL. */
  function Name(l: Level): string
  {
    match l
    case Crit => "crit"
    case Severe => "severe"
    case Error => "error"
    case Warn => "warn"
    case Info => "info"
    case Verbose => "verbose"
    case Debug => "debug"
  }

  /** The levels from most to least severe. */
  const Ordered: seq<Level> := [Crit, Severe, Error, Warn, Info, Verbose, Debug]

  /** The LOG_LEVELS list of valid names. */
  const LevelNames: seq<string> := ["crit", "severe", "error", "warn", "info", "verbose", "debug"]

  /** The level a valid name denotes. */
  function Parse(s: string): (r: Option<Level>)
    ensures r.Some? <==> s in LevelNames
    ensures r.Some? ==> Name(r.value) == s
  {
    if s == "crit" then Some(Crit)
    else if s == "severe" then Some(Severe)
    else if s == "error" then Some(Error)
    else if s == "warn" then Some(Warn)
    else if s == "info" then Some(Info)
    else if s == "verbose" then Some(Verbose)
    else if s == "debug" then Some(Debug)
    else None
  }

  lemma ParseName(l: Level)
    ensures Parse(Name(l)) == Some(l)
  {
  }

  /** Ranks strictly increase along the table, so they are distinct. */
  lemma RanksIncrease(i: nat, j: nat)
    requires i < j < |Ordered|
    ensures Rank(Ordered[i]) < Rank(Ordered[j])
  {
  }

  lemma RankInjective(a: Level, b: Level)
    ensures Rank(a) == Rank(b) ==> a == b
  {
  }

  /**
   * A sink whose threshold is `threshold` takes a record at level `l`: exactly the levels listed
   * up to and including the threshold.
   */
  predicate Accepts(threshold: Level, l: Level)
    ensures Accepts(threshold, l) <==> l in Ordered[..Rank(threshold) + 1]
  {
    Rank(l) <= Rank(threshold)
  }

  /** Acceptance orders the levels totally. */
  lemma AcceptsIsTotalOrder(a: Level, b: Level, c: Level)
    ensures Accepts(a, a)
    ensures Accepts(a, b) && Accepts(b, a) ==> a == b
    ensures Accepts(a, b) && Accepts(b, c) ==> Accepts(a, c)
    ensures Accepts(a, b) || Accepts(b, a)
  {
  }
}
