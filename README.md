# Mei logger: a verified model

Mei is a thin layer over winston that builds a leveled logger for a named project. This
project models the logic of `src/main.ts` that does not belong to winston:

- the seven severity levels (`crit` = 0 … `debug` = 6) and the rule that a transport takes a
  record iff the record's rank is at most the rank of the transport's level (`Levels`);
- the two metadata renderers `formatExcessProperties` and `formatExcessPropertiesNoStack`,
  written as methods with the source's loops, counters and in-place update, each proved
  against a specification function (`Metadata`);
- the two `printf` line builders of the file route and the console route, including how the
  console route takes `hideFromConsole` out of the metadata and uses it as the omit list
  (`Lines`);
- the level resolution, the transport selection and the routing of one log call to the
  transports that accept it, as done inside `CreateLogger` (`Factory`), with the tests'
  scenarios proved as lemmas.

`JSON.stringify` is a parameter `ser` of type `Fields -> string`; a lemma that needs the
serialised text to identify the object asks for `Injective(ser)`. Timestamps are input
strings, one per transport for each call, since every transport stamps the record in its own
format. `NODE_ENV` and `LOG_LEVEL` are fields of an `Environment` parameter. A metadata object is
a sequence of (key, value) entries in enumeration order. An `Error` value is the tagged variant
`ErrorInfo(message, stack)`.

Level resolution follows the code as written: a valid `LOG_LEVEL` is validated but never
assigned, so without an override the level is always `info` (see Findings). `CreateLogger` and
the scenarios use this written behaviour, since that is what the tests run against. The
production file names `logs/mei-error.log` and `logs/mei.log` do not depend on the project name,
while the test names do. The model keeps this asymmetry and proves both halves of it.

## Model

| member | source | states |
|---|---|---|
| Levels.Parse | src/main.ts:68-80 | a name is accepted iff it is one of the seven LOG_LEVELS entries, and the level it yields has exactly that name |
| Levels.ParseName | src/main.ts:68 | every level's name parses back to that level |
| Levels.Rank | src/main.ts:153-161 | each level's rank is its position in the table, and its name is the LOG_LEVELS entry at that position |
| Levels.RanksIncrease | src/main.ts:153-161 | ranks strictly increase from crit to debug |
| Levels.RankInjective | src/main.ts:153-161 | no two levels share a rank |
| Levels.AcceptsIsTotalOrder | src/main.ts:152-165 | the accept relation is reflexive, antisymmetric, transitive and total |
| Levels.Accepts | src/main.ts:152-165 | a threshold accepts exactly the levels listed in the table up to and including itself |
| Metadata.RenderFull | src/main.ts:8-24 | the loop overwrites each error in place and counts every key; the result is the suffix of the normalised object, and it is "" iff the metadata is empty |
| Metadata.RenderConsole | src/main.ts:26-50 | the loop skips omitted keys, copies the rest with errors reduced to {message}, and counts them; the result is "" iff every key is omitted or there is none |
| Metadata.FullFieldsShape | src/main.ts:9-17 | same length and same keys in the same order; each error becomes {message, stack} with its own message and stack; every other value is unchanged |
| Metadata.FullFieldsKeys | src/main.ts:9-17 | the file route serialises exactly the metadata's keys, each entry with its normalised value |
| Metadata.SuffixInjective | src/main.ts:19-23 | with an injective serialiser, equal suffixes come from equal objects, so the suffix shows which object was serialised |
| Metadata.ConsoleFieldsEmpty | src/main.ts:45-49 | the console object is empty iff every key is in omitKeys or the metadata is empty |
| Metadata.ConsoleFieldsOrigin | src/main.ts:30-43 | the console entries are, in increasing order of position, exactly the entries whose key is not omitted, each with its value reduced by ConsoleValue |
| Metadata.ConsoleFieldsKeys | src/main.ts:31-33 | a key reaches the console object iff it is in the metadata and not omitted |
| Metadata.ConsoleFieldsEntry | src/main.ts:35-41 | every kept entry reaches the console object with its value reduced by ConsoleValue |
| Metadata.ConsoleFieldsHaveNoErrors | src/main.ts:37-38 | no top-level value in the console object is an unreduced error, so no top-level error's stack reaches the console |
| Lines.Lookup | src/main.ts:97 | the value found is the key's entry, and nothing is found iff the key is absent |
| Lines.WithoutEntries | src/main.ts:97 | the rest object keeps exactly the entries whose key is not the destructured one |
| Lines.WithoutKeys | src/main.ts:97 | the rest object has exactly the keys of the record other than the destructured one |
| Lines.ConsoleThrows | src/main.ts:96-101 | the console line fails iff hideFromConsole is present, is neither an array nor a string, and some other field is there to test against it |
| Lines.ContextText | src/main.ts:90-92 | the bracketed label is the project name when no context is given, the context when it is a string, and a join of an array context that shows every label |
| Lines.FileLine | src/main.ts:89-93 | the file line starts with "timestamp [context] level: message" and runs past it exactly when the record has extra fields |
| Lines.ConsoleLine | src/main.ts:95-101 | the console line exists iff its metadata renders; it starts with the same head as the file line and runs past it exactly when some field is left to show |
| Lines.FileLineAfterStamp | src/main.ts:62-66 | two stampings of the same record give file lines that agree after the timestamp |
| Lines.NoFieldsNoSuffix | src/main.ts:89-101 | without extra fields both routes give the same line, and it ends exactly with "[context] level: message" |
| Lines.ChainLabelsShown | src/main.ts:91-92 | every label of an array context appears in the line |
| Lines.HiddenFieldsOnlyInFile | src/main.ts:89-101 | a field named in hideFromConsole, and hideFromConsole itself, are serialised on the file route and not on the console route |
| Lines.ConsoleMeta | src/main.ts:95-101 | the console object, when rendering does not throw, has only keys of the record and never hideFromConsole, whatever its value |
| Lines.ErrorStackOnlyInFile | src/main.ts:8-50 | a visible error field reaches the file serialiser as {message, stack} and the console serialiser as {message} |
| Lines.HelloWorldLine | src/main.test.ts:41-45 | a default-context info line for "Hello world!" ends with "[project-name] info: Hello world!" |
| Lines.AppearLine | src/main.test.ts:46 | the error line of the override test ends with "[project-name] error: This message should appear!" |
| Factory.ResolveLevel | src/main.ts:75-87 | an override is returned unchecked; construction fails iff there is no override and LOG_LEVEL is a non-empty string outside the seven names, with the message built from that value; otherwise the level is info |
| Factory.EnvLevelNeverApplied | src/main.ts:79-87 | as written, LOG_LEVEL=debug without an override gives info, where the corrected resolution gives debug |
| Factory.ResolveLevelIntended | src/main.ts:79-86 | corrected resolution: without an override, a valid LOG_LEVEL is the level |
| Factory.IntendedDiffersOnlyOnValidEnvLevel | src/main.ts:75-87 | the corrected and written resolutions differ exactly when there is no override and LOG_LEVEL names a level other than info |
| Factory.ClauseNamesLevel | src/main.ts:84 | the "expected any of" part of the message names every level |
| Factory.InvalidLevelMessage | src/main.ts:81-85 | the error message contains the offending value and every level name |
| Factory.InvalidEnvLevelFails | src/main.ts:79-86 | an invalid LOG_LEVEL without override makes construction fail with a message containing the value, the LOG_LEVELS list joined with ", ", and every level name |
| Factory.SelectSinks | src/main.ts:120-150 | given transports are used unchanged, an empty array included; otherwise the built-in three |
| Factory.PolicySinks | src/main.ts:122-150 | three transports; file transports use the full route and the console the console route; only the first (error) file has its own level, error; the third is the one console |
| Factory.FileNamesDistinct | src/main.ts:123-145 | the error file and the general file never share a name |
| Factory.ProductionIgnoresProjectName | src/main.ts:138-150 | outside tests the transports are the same for every project name |
| Factory.TestNamesIdentifyProject | src/main.ts:122-136 | under test, different project names give different file names |
| Factory.CreateLogger | src/main.ts:70-168 | construction fails iff level resolution fails; otherwise the logger has the project name, the resolved level and the selected transports |
| Factory.PolicyAcceptance | src/main.ts:124-165 | the error file accepts exactly the records at error or above whatever the logger's level; the general file and the console accept exactly those at the logger's level or above |
| Factory.Emit | src/main.ts:103-116 | one call delivers nothing iff no transport accepts the record |
| Factory.EmitDelivers | src/main.ts:103-165 | one call delivers to exactly the transports that accept the record, each with the line of its own route stamped with its own timestamp |
| Factory.PolicyFiles | src/main.ts:122-165 | with the built-in transports a call writes its file line once to the error file iff the record is at error or above, and once to the general file iff the logger's level accepts it, each with its own transport's timestamp |
| Factory.PolicyEmit | src/main.ts:122-165 | one call over the built-in transports delivers, in transport order, the file line to the error file iff the record is at error or above, then the file line to the general file and the console line to the console iff the logger's level accepts it; transport i uses timestamp i |
| Factory.InfoThenErrorRun | src/main.ts:122-165 | a test logger at error that logs an info record and then an error record writes only the error record's line, once to each file, stamped by that file's transport |
| Factory.SingleInfoRun | src/main.ts:122-165 | a test logger at info that logs one info record writes its line to the general file and nothing to the error file |
| Factory.TwoLoggersRun | src/main.ts:122-165 | an info logger's info call followed by an error logger's info and error calls leave the general file with the first and last records' lines and the error file with the last one's |
| Factory.OverrideErrorScenario | src/main.test.ts:22-64 | with override error, an info call reaches neither file and an error call reaches both, each line ending in "[project-name] error: This message should appear!" |
| Factory.FilesystemScenario | src/main.test.ts:13-66 | after the tests' calls the general file holds two lines (the hello line, then the error line) and the error file holds one, the error record's line, which agrees with the general file's after the timestamp |

## Left out

- Colouring (`winston.addColors`, `format.colorize`): ANSI styling with no effect on content.
- Timestamp generation (`YYYY-MM-DD HH:mm:ss`, local clock): each transport runs the timestamp stage of its own format, so one call carries one input string per transport (`stamps[i]` for transport i) and lines of one call may differ in their stamps.
- The text `JSON.stringify` produces, including escaping: the serialiser is the parameter `ser`.
- winston's pipeline: `createLogger`, `format.combine`, `format.errors` and the transport write mechanics. Only the accept rule and the transport descriptors are modelled.
- Writing files and the console: asynchronous, buffered I/O. `WrittenTo` is the order in which lines are handed to each destination.
- Reading `process.env`: `NODE_ENV` and `LOG_LEVEL` are parameters. `IN_TESTING` is read once when the module loads, not at each `CreateLogger` call.
- Errors nested inside an object or an array: passed to `ser` unchanged, message and stack included, where `JSON.stringify` writes them as `{}` because those properties are not enumerable. Only top-level errors are rewritten, as the source does.
- Metadata values: numbers are integers, not doubles; `null`, `undefined`, functions and class instances other than errors are not modelled; an error is always `Error` with a string stack.
- Property enumeration order: integer-like keys, which JavaScript enumerates first, inherited enumerable properties and a `__proto__` key are not modelled. Entries are taken in the given order.
- Context values other than a string or an array of strings: not modelled.
- winston merging a metadata `message` into the message, and metadata keys named `level`, `message` or `timestamp`: not modelled. `Record.fields` holds every other field.
- An override level from untyped JavaScript callers, which could pass any string: the override is one of the seven levels, as the TypeScript signature says.
- Caller-supplied transports: modelled as descriptors (destination, level, route), not winston objects with their own formats.
- The per-level methods `logger.crit` … `logger.debug`: one log call is `Emit` with the record's level.

## Findings

| source | as written | input that shows it | evidently intended | confidence | as-written member | corrected member |
|---|---|---|---|---|---|---|
| src/main.ts:79-87 | a non-empty `LOG_LEVEL` is checked against the seven names but never assigned to `logLevel`, which stays `"info"` | no override and `LOG_LEVEL=debug`: the logger's level is info | a valid `LOG_LEVEL` becomes the level (the variable's name and the validation call for it) | high; not executed | Factory.EnvLevelNeverApplied | Factory.ResolveLevelIntended |
