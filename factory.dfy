/**
 * CreateLogger (src/main.ts:70-168): the effective level, the transports and the logger
 * that routes each record to the transports whose threshold it meets. The environment
 * (NODE_ENV, LOG_LEVEL) and the clock are parameters.
 */
module Factory {
  import opened Wrappers
  import opened Strings
  import opened Levels
  import opened Metadata
  import opened Lines

  /** The two environment variables the logger reads. */
  datatype Environment = Environment(nodeEnv: Option<string>, logLevel: Option<string>)

  /** IN_TESTING: NODE_ENV is exactly "test". */
  predicate InTesting(env: Environment)
  {
    env.nodeEnv == Some("test")
  }

  /** The message of the error thrown for an invalid LOG_LEVEL: it names the value and every valid level. */
  function InvalidLevelMessage(value: string): (r: string)
    ensures Contains(r, value)
    ensures forall l: Level :: Contains(r, Name(l))
  {
    MessageNames(value);
    "Invalid process.env.LOG_LEVEL " + value + ExpectedClause()
  }

  /** The tail of that message, listing the valid names. */
  function ExpectedClause(): string
  {
    ", expected any of " + Join(LevelNames, ", ")
  }

  lemma MessageNames(value: string)
    ensures Contains("Invalid process.env.LOG_LEVEL " + value + ExpectedClause(), value)
    ensures forall l: Level :: Contains("Invalid process.env.LOG_LEVEL " + value + ExpectedClause(), Name(l))
  {
    ContainsInfix("Invalid process.env.LOG_LEVEL ", value, ExpectedClause());
    forall l: Level
      ensures Contains("Invalid process.env.LOG_LEVEL " + value + ExpectedClause(), Name(l))
    {
      ClauseNamesLevel(l);
      ContainsExtendLeft("Invalid process.env.LOG_LEVEL " + value, ExpectedClause(), Name(l));
    }
  }

  lemma ClauseNamesLevel(l: Level)
    ensures Contains(ExpectedClause(), Name(l))
  {
    assert LevelNames[Rank(l)] == Name(l);
    JoinContainsParts(LevelNames, ", ", Rank(l));
    ContainsExtendLeft(", expected any of ", Join(LevelNames, ", "), Name(l));
  }

  /**
   * The level resolution of CreateLogger as written: an override wins unchecked; otherwise a
   * non-empty LOG_LEVEL is checked and rejected when invalid, but a valid one is never assigned.
   */
  function ResolveLevel(overrideLevel: Option<Level>, envLevel: Option<string>): (r: Result<Level, string>)
    ensures overrideLevel.Some? ==> r == Success(overrideLevel.value)
    ensures r.Failure? <==>
      overrideLevel.None? && envLevel.Some? && envLevel.value != "" && envLevel.value !in LevelNames
    ensures r.Failure? ==> r.error == InvalidLevelMessage(envLevel.value)
    ensures overrideLevel.None? && r.Success? ==> r.value == Info
  {
    if overrideLevel.Some? then Success(overrideLevel.value)
    else if envLevel.Some? && envLevel.value != "" && Parse(envLevel.value).None? then
      Failure(InvalidLevelMessage(envLevel.value))
    else Success(Info)
  }

  /** As written, a valid LOG_LEVEL such as "debug" leaves the level at info. */
  lemma EnvLevelNeverApplied()
    ensures ResolveLevel(None, Some("debug")) == Success(Info)
    ensures ResolveLevelIntended(None, Some("debug")) == Success(Debug)
  {
  }

  /** The resolution the error message and the variable's name call for: a valid LOG_LEVEL is used. */
  function ResolveLevelIntended(overrideLevel: Option<Level>, envLevel: Option<string>): (r: Result<Level, string>)
    ensures overrideLevel.None? && envLevel.Some? && Parse(envLevel.value).Some? ==>
      r == Success(Parse(envLevel.value).value)
  {
    if overrideLevel.Some? then Success(overrideLevel.value)
    else if envLevel.Some? && envLevel.value != "" then
      match Parse(envLevel.value)
      case Some(l) => Success(l)
      case None => Failure(InvalidLevelMessage(envLevel.value))
    else Success(Info)
  }

  /** The corrected resolution differs from the written one exactly on a valid LOG_LEVEL without override. */
  lemma IntendedDiffersOnlyOnValidEnvLevel(overrideLevel: Option<Level>, envLevel: Option<string>)
    ensures ResolveLevelIntended(overrideLevel, envLevel) != ResolveLevel(overrideLevel, envLevel) <==>
      overrideLevel.None? && envLevel.Some? && Parse(envLevel.value).Some? && Parse(envLevel.value).value != Info
  {
  }

  /** Where a record goes. */
  datatype Destination = File(filename: string) | Console

  /** A transport's own level, or none, in which case it uses the logger's. */
  datatype Threshold = Fixed(level: Level) | Inherit

  /** A transport: destination, level and format route. */
  datatype Sink = Sink(dest: Destination, threshold: Threshold, route: Route)

  function ErrorFileName(projectName: string, testing: bool): string
  {
    if testing then "logs/" + projectName + "-tests-error.log" else "logs/mei-error.log"
  }

  function GeneralFileName(projectName: string, testing: bool): string
  {
    if testing then "logs/" + projectName + "-tests.log" else "logs/mei.log"
  }

  /**
   * The transports CreateLogger builds when none are given: error file, general file, console.
   * Files render with the full route and the console with the console route; only the error
   * file has a level of its own, `error`; there is exactly one console.
   */
  function PolicySinks(projectName: string, testing: bool): (r: seq<Sink>)
    ensures |r| == 3
    ensures forall s | s in r :: s.dest.File? <==> s.route == FullRoute
    ensures forall i | 0 <= i < 3 :: r[i].threshold.Fixed? <==> i == 0
    ensures r[0].threshold == Fixed(Error)
    ensures forall i | 0 <= i < 3 :: r[i].dest == Console <==> i == 2
  {
    [ Sink(File(ErrorFileName(projectName, testing)), Fixed(Error), FullRoute),
      Sink(File(GeneralFileName(projectName, testing)), Inherit, FullRoute),
      Sink(Console, Inherit, ConsoleRoute) ]
  }

  /** Transport selection: given transports are used as they are (an empty array included). */
  function SelectSinks(projectName: string, testing: bool, overrideSinks: Option<seq<Sink>>): (r: seq<Sink>)
    ensures overrideSinks.Some? ==> r == overrideSinks.value
    ensures overrideSinks.None? ==> r == PolicySinks(projectName, testing)
  {
    match overrideSinks
    case Some(sinks) => sinks
    case None => PolicySinks(projectName, testing)
  }

  /** The two files always have different names. */
  lemma FileNamesDistinct(projectName: string, testing: bool)
    ensures ErrorFileName(projectName, testing) != GeneralFileName(projectName, testing)
  {
    if !testing {
      assert |ErrorFileName(projectName, testing)| != |GeneralFileName(projectName, testing)|;
    } else {
      assert |ErrorFileName(projectName, testing)| == |projectName| + 21;
      assert |GeneralFileName(projectName, testing)| == |projectName| + 15;
    }
  }

  /** Outside tests the file names do not depend on the project name. */
  lemma ProductionIgnoresProjectName(p1: string, p2: string)
    ensures PolicySinks(p1, false) == PolicySinks(p2, false)
  {
  }

  /** Under test the file names identify the project. */
  lemma TestNamesIdentifyProject(p1: string, p2: string)
    ensures ErrorFileName(p1, true) == ErrorFileName(p2, true) ==> p1 == p2
    ensures GeneralFileName(p1, true) == GeneralFileName(p2, true) ==> p1 == p2
  {
    var e1, e2 := ErrorFileName(p1, true), ErrorFileName(p2, true);
    if e1 == e2 {
      assert |p1| == |p2|;
      assert e1[5..5 + |p1|] == p1;
      assert e2[5..5 + |p2|] == p2;
    }
    var g1, g2 := GeneralFileName(p1, true), GeneralFileName(p2, true);
    if g1 == g2 {
      assert |p1| == |p2|;
      assert g1[5..5 + |p1|] == p1;
      assert g2[5..5 + |p2|] == p2;
    }
  }

  /** A configured logger: its project name (the default context), level and transports. */
  datatype Logger = Logger(projectName: string, level: Level, sinks: seq<Sink>)

  /** CreateLogger: resolve the level (which may throw), then select the transports. */
  function CreateLogger(projectName: string, overrideLevel: Option<Level>, overrideSinks: Option<seq<Sink>>,
                        env: Environment): (r: Result<Logger, string>)
    ensures r.Failure? <==> ResolveLevel(overrideLevel, env.logLevel).Failure?
    ensures r.Failure? ==> r == Failure(InvalidLevelMessage(env.logLevel.value))
    ensures r.Success? ==> r.value.projectName == projectName
    ensures r.Success? ==> ResolveLevel(overrideLevel, env.logLevel) == Success(r.value.level)
    ensures r.Success? ==> r.value.sinks == SelectSinks(projectName, InTesting(env), overrideSinks)
  {
    match ResolveLevel(overrideLevel, env.logLevel)
    case Failure(e) => Failure(e)
    case Success(level) => Success(Logger(projectName, level, SelectSinks(projectName, InTesting(env), overrideSinks)))
  }

  /** An invalid LOG_LEVEL without an override makes construction fail, naming the value and the options. */
  lemma InvalidEnvLevelFails(projectName: string, overrideSinks: Option<seq<Sink>>, env: Environment)
    requires env.logLevel.Some? && env.logLevel.value != "" && env.logLevel.value !in LevelNames
    ensures var r := CreateLogger(projectName, None, overrideSinks, env);
      r.Failure? && Contains(r.error, env.logLevel.value) &&
      Contains(r.error, Join(LevelNames, ", ")) && forall l: Level :: Contains(r.error, Name(l))
  {
    var v := env.logLevel.value;
    ContainsSuffixPart(", expected any of ", Join(LevelNames, ", "));
    ContainsExtendLeft("Invalid process.env.LOG_LEVEL " + v, ExpectedClause(), Join(LevelNames, ", "));
  }

  /** The level a transport filters by: its own, or the logger's. */
  function EffectiveThreshold(sink: Sink, loggerLevel: Level): Level
  {
    match sink.threshold
    case Fixed(l) => l
    case Inherit => loggerLevel
  }

  predicate SinkAccepts(sink: Sink, loggerLevel: Level, l: Level)
  {
    Accepts(EffectiveThreshold(sink, loggerLevel), l)
  }

  /**
   * With the built-in transports the error file takes exactly the records at `error` or more
   * severe, whatever the logger's level, and the general file and the console take exactly
   * those at the logger's level or more severe.
   */
  lemma PolicyAcceptance(projectName: string, testing: bool, loggerLevel: Level, l: Level)
    ensures var s := PolicySinks(projectName, testing);
      (SinkAccepts(s[0], loggerLevel, l) <==> Rank(l) <= 2) &&
      (SinkAccepts(s[1], loggerLevel, l) <==> Rank(l) <= Rank(loggerLevel)) &&
      (SinkAccepts(s[2], loggerLevel, l) <==> Rank(l) <= Rank(loggerLevel))
  {
  }

  /** What one transport does with one record: the line it writes, or None if the format threw. */
  datatype Delivery = Delivery(dest: Destination, line: Option<string>)

  /**
   * One log call: every transport whose threshold the record meets renders it with its route.
   * Each transport runs its own format, timestamp stage included, so transport `i` stamps the
   * record with `stamps[i]`. Nothing is delivered exactly when no transport takes the record.
   */
  function Emit(sinks: seq<Sink>, logger: Logger, rec: Record, stamps: seq<string>, ser: Fields -> string): (r: seq<Delivery>)
    requires |stamps| == |sinks|
    ensures r == [] <==> forall i | 0 <= i < |sinks| :: !SinkAccepts(sinks[i], logger.level, rec.level)
  {
    if |sinks| == 0 then []
    else
      var s := sinks[0];
      var here := if SinkAccepts(s, logger.level, rec.level)
        then [Delivery(s.dest, Render(s.route, logger.projectName, rec, stamps[0], ser))]
        else [];
      var rest := Emit(sinks[1..], logger, rec, stamps[1..], ser);
      assert forall i | 1 <= i < |sinks| :: sinks[i] == sinks[1..][i - 1];
      here + rest
  }

  /** A delivery is made exactly for each transport that accepts the record, with that transport's line. */
  lemma {:induction false} EmitDelivers(sinks: seq<Sink>, logger: Logger, rec: Record, stamps: seq<string>,
                                        ser: Fields -> string, d: Delivery)
    requires |stamps| == |sinks|
    ensures d in Emit(sinks, logger, rec, stamps, ser) <==>
      exists i | 0 <= i < |sinks| :: SinkAccepts(sinks[i], logger.level, rec.level) &&
        d == Delivery(sinks[i].dest, Render(sinks[i].route, logger.projectName, rec, stamps[i], ser))
  {
    if |sinks| > 0 {
      var p := logger.projectName;
      EmitDelivers(sinks[1..], logger, rec, stamps[1..], ser, d);
      if d in Emit(sinks, logger, rec, stamps, ser) && d !in Emit(sinks[1..], logger, rec, stamps[1..], ser) {
        assert SinkAccepts(sinks[0], logger.level, rec.level) &&
          d == Delivery(sinks[0].dest, Render(sinks[0].route, p, rec, stamps[0], ser));
      }
      if d in Emit(sinks[1..], logger, rec, stamps[1..], ser) {
        var j :| 0 <= j < |sinks| - 1 && SinkAccepts(sinks[1..][j], logger.level, rec.level) &&
          d == Delivery(sinks[1..][j].dest, Render(sinks[1..][j].route, p, rec, stamps[1..][j], ser));
        assert sinks[j + 1] == sinks[1..][j] && stamps[j + 1] == stamps[1..][j];
      }
      if exists i | 0 <= i < |sinks| :: SinkAccepts(sinks[i], logger.level, rec.level) &&
           d == Delivery(sinks[i].dest, Render(sinks[i].route, p, rec, stamps[i], ser)) {
        var i :| 0 <= i < |sinks| && SinkAccepts(sinks[i], logger.level, rec.level) &&
          d == Delivery(sinks[i].dest, Render(sinks[i].route, p, rec, stamps[i], ser));
        if i > 0 {
          assert sinks[1..][i - 1] == sinks[i] && stamps[1..][i - 1] == stamps[i];
        }
      }
    }
  }

  /** Every call of a run carries one timestamp per transport. */
  predicate Stamped(logger: Logger, calls: seq<(Record, seq<string>)>)
  {
    forall i | 0 <= i < |calls| :: |calls[i].1| == |logger.sinks|
  }

  /** A sequence of log calls, each with the timestamps its transports stamped it with. */
  function Run(logger: Logger, calls: seq<(Record, seq<string>)>, ser: Fields -> string): seq<Delivery>
    requires Stamped(logger, calls)
  {
    if |calls| == 0 then []
    else Emit(logger.sinks, logger, calls[0].0, calls[0].1, ser) + Run(logger, calls[1..], ser)
  }

  lemma RunTwo(logger: Logger, c1: (Record, seq<string>), c2: (Record, seq<string>), ser: Fields -> string)
    requires |c1.1| == |logger.sinks| && |c2.1| == |logger.sinks|
    ensures Stamped(logger, [c1, c2])
    ensures Run(logger, [c1, c2], ser) ==
      Emit(logger.sinks, logger, c1.0, c1.1, ser) + Emit(logger.sinks, logger, c2.0, c2.1, ser)
  {
    assert [c1, c2][1..] == [c2];
    assert [c2][1..] == [];
    assert Run(logger, [c2], ser) == Emit(logger.sinks, logger, c2.0, c2.1, ser) + [];
  }

  /** The line one delivery leaves at `dest`: its line if it went there and was rendered. */
  function Picked(d: Delivery, dest: Destination): seq<string>
  {
    if d.dest == dest && d.line.Some? then [d.line.value] else []
  }

  /** The lines that end up at one destination, in order. */
  function WrittenTo(ds: seq<Delivery>, dest: Destination): seq<string>
  {
    if |ds| == 0 then [] else Picked(ds[0], dest) + WrittenTo(ds[1..], dest)
  }

  /** What reaches a destination from two runs is what reaches it from each, in order. */
  lemma {:induction false} WrittenToConcat(a: seq<Delivery>, b: seq<Delivery>, dest: Destination)
    ensures WrittenTo(a + b, dest) == WrittenTo(a, dest) + WrittenTo(b, dest)
  {
    if |a| == 0 {
      assert a + b == b;
    } else {
      var rest := a[1..] + b;
      assert (a + b)[0] == a[0] && (a + b)[1..] == rest;
      assert WrittenTo(a + b, dest) == Picked(a[0], dest) + WrittenTo(rest, dest);
      WrittenToConcat(a[1..], b, dest);
      var p, x, y := Picked(a[0], dest), WrittenTo(a[1..], dest), WrittenTo(b, dest);
      assert p + (x + y) == (p + x) + y;
    }
  }

  /**
   * With the built-in transports, one call writes its file line once to the error file when the
   * record is at `error` or more severe, and once to the general file when the logger's level
   * takes it; otherwise nothing reaches that file. Each file's line carries its own transport's
   * timestamp.
   */
  lemma PolicyFiles(logger: Logger, testing: bool, rec: Record, stamps: seq<string>, ser: Fields -> string)
    requires logger.sinks == PolicySinks(logger.projectName, testing) && |stamps| == 3
    ensures var p := logger.projectName;
      var ds := Emit(logger.sinks, logger, rec, stamps, ser);
      WrittenTo(ds, File(ErrorFileName(p, testing))) ==
        (if Accepts(Error, rec.level) then [FileLine(p, rec, stamps[0], ser)] else []) &&
      WrittenTo(ds, File(GeneralFileName(p, testing))) ==
        (if Accepts(logger.level, rec.level) then [FileLine(p, rec, stamps[1], ser)] else [])
  {
    PolicyErrorFile(logger, testing, rec, stamps, ser);
    PolicyGeneralFile(logger, testing, rec, stamps, ser);
  }

  lemma PolicyErrorFile(logger: Logger, testing: bool, rec: Record, stamps: seq<string>, ser: Fields -> string)
    requires logger.sinks == PolicySinks(logger.projectName, testing) && |stamps| == 3
    ensures var p := logger.projectName;
      WrittenTo(Emit(logger.sinks, logger, rec, stamps, ser), File(ErrorFileName(p, testing))) ==
        (if Accepts(Error, rec.level) then [FileLine(p, rec, stamps[0], ser)] else [])
  {
    var p := logger.projectName;
    var e, g := File(ErrorFileName(p, testing)), File(GeneralFileName(p, testing));
    FileNamesDistinct(p, testing);
    var d0 := if Accepts(Error, rec.level) then [Delivery(e, Some(FileLine(p, rec, stamps[0], ser)))] else [];
    var d1 := if Accepts(logger.level, rec.level) then [Delivery(g, Some(FileLine(p, rec, stamps[1], ser)))] else [];
    var d2 := if Accepts(logger.level, rec.level) then [Delivery(Console, ConsoleLine(p, rec, stamps[2], ser))] else [];
    PolicyEmit(logger, testing, rec, stamps, ser);
    ThreeParts(d0, d1, d2, e);
    assert |d1| == 1 ==> Picked(d1[0], e) == [];
    assert |d2| == 1 ==> Picked(d2[0], e) == [];
  }

  lemma PolicyGeneralFile(logger: Logger, testing: bool, rec: Record, stamps: seq<string>, ser: Fields -> string)
    requires logger.sinks == PolicySinks(logger.projectName, testing) && |stamps| == 3
    ensures var p := logger.projectName;
      WrittenTo(Emit(logger.sinks, logger, rec, stamps, ser), File(GeneralFileName(p, testing))) ==
        (if Accepts(logger.level, rec.level) then [FileLine(p, rec, stamps[1], ser)] else [])
  {
    var p := logger.projectName;
    var e, g := File(ErrorFileName(p, testing)), File(GeneralFileName(p, testing));
    FileNamesDistinct(p, testing);
    var d0 := if Accepts(Error, rec.level) then [Delivery(e, Some(FileLine(p, rec, stamps[0], ser)))] else [];
    var d1 := if Accepts(logger.level, rec.level) then [Delivery(g, Some(FileLine(p, rec, stamps[1], ser)))] else [];
    var d2 := if Accepts(logger.level, rec.level) then [Delivery(Console, ConsoleLine(p, rec, stamps[2], ser))] else [];
    PolicyEmit(logger, testing, rec, stamps, ser);
    ThreeParts(d0, d1, d2, g);
    assert |d0| == 1 ==> Picked(d0[0], g) == [];
    assert |d2| == 1 ==> Picked(d2[0], g) == [];
  }

  /** The deliveries of one call over the built-in transports, transport by transport. */
  lemma PolicyEmit(logger: Logger, testing: bool, rec: Record, stamps: seq<string>, ser: Fields -> string)
    requires logger.sinks == PolicySinks(logger.projectName, testing) && |stamps| == 3
    ensures var p := logger.projectName;
      Emit(logger.sinks, logger, rec, stamps, ser) ==
        (if Accepts(Error, rec.level)
         then [Delivery(File(ErrorFileName(p, testing)), Some(FileLine(p, rec, stamps[0], ser)))] else []) +
        ((if Accepts(logger.level, rec.level)
          then [Delivery(File(GeneralFileName(p, testing)), Some(FileLine(p, rec, stamps[1], ser)))] else []) +
         (if Accepts(logger.level, rec.level)
          then [Delivery(Console, ConsoleLine(p, rec, stamps[2], ser))] else []))
  {
    var sinks := logger.sinks;
    assert sinks[1..][1..] == sinks[2..] && sinks[2..][1..] == sinks[3..];
    assert stamps[1..][1..] == stamps[2..] && stamps[2..][1..] == stamps[3..];
    assert Emit(sinks[3..], logger, rec, stamps[3..], ser) == [];
    var d2 := Emit(sinks[2..], logger, rec, stamps[2..], ser);
    assert d2 == d2 + [];
  }

  /** WrittenTo over three pieces, each holding at most one delivery. */
  lemma ThreeParts(d0: seq<Delivery>, d1: seq<Delivery>, d2: seq<Delivery>, dest: Destination)
    requires |d0| <= 1 && |d1| <= 1 && |d2| <= 1
    ensures WrittenTo(d0 + (d1 + d2), dest) ==
      (if |d0| == 1 then Picked(d0[0], dest) else []) +
      (if |d1| == 1 then Picked(d1[0], dest) else []) +
      (if |d2| == 1 then Picked(d2[0], dest) else [])
  {
    WrittenToConcat(d0, d1 + d2, dest);
    WrittenToConcat(d1, d2, dest);
    SingleWritten(d0, dest);
    SingleWritten(d1, dest);
    SingleWritten(d2, dest);
  }

  lemma SingleWritten(d: seq<Delivery>, dest: Destination)
    requires |d| <= 1
    ensures WrittenTo(d, dest) == if |d| == 1 then Picked(d[0], dest) else []
  {
    if |d| == 1 {
      assert d[1..] == [];
      assert Picked(d[0], dest) + [] == Picked(d[0], dest);
    }
  }

  lemma TestFileNames()
    ensures ErrorFileName("project-name", true) == "logs/project-name-tests-error.log"
    ensures GeneralFileName("project-name", true) == "logs/project-name-tests.log"
  {
    TestErrorFileName();
  }

  lemma TestErrorFileName()
    ensures ErrorFileName("project-name", true) == "logs/project-name-tests-error.log"
  {
  }

  /**
   * A logger at `error` over the built-in transports: an info call reaches no file, an error call
   * reaches both, each file getting the line its own transport stamped.
   */
  lemma InfoThenErrorRun(logger: Logger, info: Record, err: Record, ts1: seq<string>, ts2: seq<string>,
                         ser: Fields -> string)
    requires logger.sinks == PolicySinks(logger.projectName, true) && logger.level == Error
    requires info.level == Info && err.level == Error && |ts1| == 3 && |ts2| == 3
    ensures Stamped(logger, [(info, ts1), (err, ts2)])
    ensures var ds := Run(logger, [(info, ts1), (err, ts2)], ser);
      WrittenTo(ds, File(ErrorFileName(logger.projectName, true))) == [FileLine(logger.projectName, err, ts2[0], ser)] &&
      WrittenTo(ds, File(GeneralFileName(logger.projectName, true))) == [FileLine(logger.projectName, err, ts2[1], ser)]
  {
    var p := logger.projectName;
    var d1 := Emit(logger.sinks, logger, info, ts1, ser);
    var d2 := Emit(logger.sinks, logger, err, ts2, ser);
    RunTwo(logger, (info, ts1), (err, ts2), ser);
    PolicyFiles(logger, true, info, ts1, ser);
    PolicyFiles(logger, true, err, ts2, ser);
    WrittenToConcat(d1, d2, File(ErrorFileName(p, true)));
    WrittenToConcat(d1, d2, File(GeneralFileName(p, true)));
  }

  /** A logger at `info` over the built-in transports: one info call reaches the general file only. */
  lemma SingleInfoRun(logger: Logger, rec: Record, ts: seq<string>, ser: Fields -> string)
    requires logger.sinks == PolicySinks(logger.projectName, true) && logger.level == Info && rec.level == Info
    requires |ts| == 3
    ensures Stamped(logger, [(rec, ts)])
    ensures var ds := Run(logger, [(rec, ts)], ser);
      WrittenTo(ds, File(GeneralFileName(logger.projectName, true))) == [FileLine(logger.projectName, rec, ts[1], ser)] &&
      WrittenTo(ds, File(ErrorFileName(logger.projectName, true))) == []
  {
    var d0 := Emit(logger.sinks, logger, rec, ts, ser);
    assert [(rec, ts)][1..] == [];
    assert Run(logger, [(rec, ts)], ser) == d0 + [];
    assert d0 + [] == d0;
    PolicyFiles(logger, true, rec, ts, ser);
  }

  /**
   * The tests' second and third cases: with override level `error`, an info call reaches neither
   * file and an error call reaches both, each line ending in `[project-name] error: ...`.
   */
  lemma OverrideErrorScenario(env: Environment, ts1: seq<string>, ts2: seq<string>, ser: Fields -> string)
    requires InTesting(env) && |ts1| == 3 && |ts2| == 3
    ensures CreateLogger("project-name", Some(Error), None, env).Success?
    ensures var logger := CreateLogger("project-name", Some(Error), None, env).value;
      var err := Record(Error, "This message should appear!", None, []);
      var calls := [(Record(Info, "This message should not appear.", None, []), ts1), (err, ts2)];
      Stamped(logger, calls) &&
      WrittenTo(Run(logger, calls, ser), File("logs/project-name-tests-error.log")) == [FileLine("project-name", err, ts2[0], ser)] &&
      WrittenTo(Run(logger, calls, ser), File("logs/project-name-tests.log")) == [FileLine("project-name", err, ts2[1], ser)] &&
      EndsWith(FileLine("project-name", err, ts2[0], ser), "[project-name] error: This message should appear!") &&
      EndsWith(FileLine("project-name", err, ts2[1], ser), "[project-name] error: This message should appear!")
  {
    var logger := Logger("project-name", Error, PolicySinks("project-name", true));
    assert CreateLogger("project-name", Some(Error), None, env) == Success(logger);
    InfoThenErrorRun(logger, Record(Info, "This message should not appear.", None, []),
                     Record(Error, "This message should appear!", None, []), ts1, ts2, ser);
    TestFileNames();
    AppearLine(ts2[0], ser);
    AppearLine(ts2[1], ser);
  }

  /**
   * The tests' file checks: a default logger logs "Hello world!" at info, then the logger of the
   * override case makes its two calls; the general file ends up with two lines and the error
   * file with one. The error line in the two files is the same record's line, each file's
   * transport stamping it itself. A valid LOG_LEVEL does not change this (it is never applied).
   */
  lemma FilesystemScenario(env: Environment, ts0: seq<string>, ts1: seq<string>, ts2: seq<string>, ser: Fields -> string)
    requires InTesting(env) && |ts0| == 3 && |ts1| == 3 && |ts2| == 3
    requires env.logLevel.None? || env.logLevel.value == "" || env.logLevel.value in LevelNames
    ensures CreateLogger("project-name", None, None, env).Success?
    ensures CreateLogger("project-name", Some(Error), None, env).Success?
    ensures var first := CreateLogger("project-name", None, None, env).value;
      var second := CreateLogger("project-name", Some(Error), None, env).value;
      var err := Record(Error, "This message should appear!", None, []);
      var calls := [(Record(Info, "This message should not appear.", None, []), ts1), (err, ts2)];
      Stamped(first, [(Record(Info, "Hello world!", None, []), ts0)]) && Stamped(second, calls) &&
      var ds := Run(first, [(Record(Info, "Hello world!", None, []), ts0)], ser) + Run(second, calls, ser);
      var general := WrittenTo(ds, File("logs/project-name-tests.log"));
      var errors := WrittenTo(ds, File("logs/project-name-tests-error.log"));
      |general| == 2 && |errors| == 1 &&
      EndsWith(general[0], "[project-name] info: Hello world!") &&
      EndsWith(general[1], "[project-name] error: This message should appear!") &&
      general[1] == FileLine("project-name", err, ts2[1], ser) &&
      errors[0] == FileLine("project-name", err, ts2[0], ser) &&
      general[1][|ts2[1]|..] == errors[0][|ts2[0]|..]
  {
    var first := Logger("project-name", Info, PolicySinks("project-name", true));
    var second := Logger("project-name", Error, PolicySinks("project-name", true));
    assert CreateLogger("project-name", None, None, env) == Success(first);
    assert CreateLogger("project-name", Some(Error), None, env) == Success(second);
    var hello := Record(Info, "Hello world!", None, []);
    var err := Record(Error, "This message should appear!", None, []);
    TwoLoggersRun(first, second, hello, Record(Info, "This message should not appear.", None, []), err, ts0, ts1, ts2, ser);
    TestFileNames();
    HelloWorldLine(ts0[1], ser);
    AppearLine(ts2[1], ser);
    FileLineAfterStamp("project-name", err, ts2[1], ts2[0], ser);
  }

  /**
   * An info logger logs one info record, then an error logger of the same project logs an info
   * and an error record: the general file gets the first and the last record, the error file the last.
   */
  lemma TwoLoggersRun(first: Logger, second: Logger, hello: Record, info: Record, err: Record,
                      ts0: seq<string>, ts1: seq<string>, ts2: seq<string>, ser: Fields -> string)
    requires first.sinks == PolicySinks(first.projectName, true) && first.level == Info
    requires second == Logger(first.projectName, Error, first.sinks)
    requires hello.level == Info && info.level == Info && err.level == Error
    requires |ts0| == 3 && |ts1| == 3 && |ts2| == 3
    ensures Stamped(first, [(hello, ts0)]) && Stamped(second, [(info, ts1), (err, ts2)])
    ensures var p := first.projectName;
      var ds := Run(first, [(hello, ts0)], ser) + Run(second, [(info, ts1), (err, ts2)], ser);
      WrittenTo(ds, File(GeneralFileName(p, true))) == [FileLine(p, hello, ts0[1], ser), FileLine(p, err, ts2[1], ser)] &&
      WrittenTo(ds, File(ErrorFileName(p, true))) == [FileLine(p, err, ts2[0], ser)]
  {
    var p := first.projectName;
    SingleInfoRun(first, hello, ts0, ser);
    InfoThenErrorRun(second, info, err, ts1, ts2, ser);
    var d0, d1 := Run(first, [(hello, ts0)], ser), Run(second, [(info, ts1), (err, ts2)], ser);
    WrittenToConcat(d0, d1, File(ErrorFileName(p, true)));
    WrittenToConcat(d0, d1, File(GeneralFileName(p, true)));
  }
}
