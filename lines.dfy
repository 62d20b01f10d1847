/**
 * The two printf line builders of CreateLogger (src/main.ts:89-101): the file route renders
 * every extra field, the console route first takes `hideFromConsole` out of them and uses it
 * as the list of keys to omit.
 */
module Lines {
  import opened Wrappers
  import opened Strings
  import opened Levels
  import opened Metadata

  /** The reserved metadata key naming fields to keep off the console. */
  const HideKey := "hideFromConsole"

  /** `meta.context`: one label or a chain of labels. */
  datatype Context = Label(name: string) | Chain(labels: seq<string>)

  /**
   * One log call as the printf stage sees it: level, message, the optional context, and every
   * other field in enumeration order (the timestamp is passed separately).
   */
  datatype Record = Record(level: Level, message: string, context: Option<Context>, fields: Fields)

  /**
   * The bracketed label: the project name by default, the label given, or a chain joined with
   * " | ", which shows every label of the chain.
   */
  function ContextText(projectName: string, context: Option<Context>): (r: string)
    ensures context.None? ==> r == projectName
    ensures context.Some? && context.value.Label? ==> r == context.value.name
    ensures context.Some? && context.value.Chain? ==>
      forall i | 0 <= i < |context.value.labels| :: Contains(r, context.value.labels[i])
  {
    match context
    case None => projectName
    case Some(Label(name)) => name
    case Some(Chain(labels)) => JoinShowsAll(labels, " | "); Join(labels, " | ")
  }

  /** Everything of a line up to the end of the message; both routes share it. */
  function Head(projectName: string, rec: Record, timestamp: string): string
  {
    timestamp + " " + Tagged(projectName, rec)
  }

  /** The part of the head after the timestamp: `[context] level: message`. */
  function Tagged(projectName: string, rec: Record): string
  {
    "[" + ContextText(projectName, rec.context) + "] " + Name(rec.level) + ": " + rec.message
  }

  /** The value of the first entry under `k`, None when the object has no such key. */
  function Lookup(m: Fields, k: string): (r: Option<Value>)
    ensures r.Some? ==> (k, r.value) in m
    ensures r.None? <==> !HasKey(m, k)
  {
    if |m| == 0 then None
    else if m[0].0 == k then Some(m[0].1)
    else
      var r := Lookup(m[1..], k);
      assert forall i | 0 <= i < |m| - 1 :: m[1..][i] == m[i + 1];
      r
  }

  /** The object left by the rest pattern after destructuring `k` out of it. */
  function Without(m: Fields, k: string): Fields
  {
    if |m| == 0 then []
    else if m[0].0 == k then Without(m[1..], k)
    else [m[0]] + Without(m[1..], k)
  }

  lemma {:induction false} WithoutEntries(m: Fields, k: string, e: (string, Value))
    ensures e in Without(m, k) <==> e in m && e.0 != k
  {
    if |m| > 0 {
      WithoutEntries(m[1..], k, e);
    }
  }

  lemma WithoutKeys(m: Fields, k: string, x: string)
    ensures HasKey(Without(m, k), x) <==> HasKey(m, x) && x != k
  {
    var w := Without(m, k);
    if HasKey(w, x) {
      var i :| 0 <= i < |w| && w[i].0 == x;
      WithoutEntries(m, k, w[i]);
      var j :| 0 <= j < |m| && m[j] == w[i];
    }
    if HasKey(m, x) && x != k {
      var j :| 0 <= j < |m| && m[j].0 == x;
      WithoutEntries(m, k, m[j]);
      var i :| 0 <= i < |w| && w[i] == m[j];
    }
  }

  /**
   * How the console route reads `hideFromConsole`: absent means the default `[]`, an array
   * or a string is searched with its own `includes`; any other value has no `includes`.
   */
  function OmitOf(hidden: Option<Value>): Option<OmitKeys>
  {
    match hidden
    case None => Some(KeyList([]))
    case Some(List(items)) => Some(KeyList(items))
    case Some(Text(s)) => Some(KeyString(s))
    case Some(_) => None
  }

  /** The object the file route serialises. */
  function FileMeta(rec: Record): Fields
  {
    FullFields(rec.fields)
  }

  /**
   * The object the console route serialises; None when rendering throws a TypeError, which
   * happens when `hideFromConsole` has no `includes` and there is a key to test against it.
   * Every key it has is a key of the record other than `hideFromConsole`, whatever that holds.
   */
  function ConsoleMeta(rec: Record): (r: Option<Fields>)
    ensures r.Some? ==> forall k :: HasKey(r.value, k) ==> HasKey(rec.fields, k) && k != HideKey
  {
    var meta := Without(rec.fields, HideKey);
    match OmitOf(Lookup(rec.fields, HideKey))
    case Some(o) => ConsoleKeysFromRest(rec.fields, o); Some(ConsoleFields(meta, o))
    case None => (if |meta| == 0 then Some([]) else None)
  }

  lemma ConsoleKeysFromRest(fields: Fields, o: OmitKeys)
    ensures forall k :: HasKey(ConsoleFields(Without(fields, HideKey), o), k) ==> HasKey(fields, k) && k != HideKey
  {
    forall k | HasKey(ConsoleFields(Without(fields, HideKey), o), k)
      ensures HasKey(fields, k) && k != HideKey
    {
      ConsoleFieldsKeys(Without(fields, HideKey), o, k);
      WithoutKeys(fields, HideKey, k);
    }
  }

  /**
   * meiPrintf: the line written by the file sinks. It starts with the head, and goes on past it
   * exactly when the record has extra fields.
   */
  function FileLine(projectName: string, rec: Record, timestamp: string, ser: Fields -> string): (r: string)
    ensures Head(projectName, rec, timestamp) <= r
    ensures |r| == |Head(projectName, rec, timestamp)| <==> rec.fields == []
  {
    Head(projectName, rec, timestamp) + Suffix(FileMeta(rec), ser)
  }

  /**
   * meiConsolePrintf: the line written to the console, before colouring. When rendering does not
   * throw it starts with the same head as the file line, and goes on past it exactly when some
   * field is left to show.
   */
  function ConsoleLine(projectName: string, rec: Record, timestamp: string, ser: Fields -> string): (r: Option<string>)
    ensures r.Some? <==> ConsoleMeta(rec).Some?
    ensures r.Some? ==> Head(projectName, rec, timestamp) <= r.value
    ensures r.Some? ==> (|r.value| == |Head(projectName, rec, timestamp)| <==> ConsoleMeta(rec).value == [])
  {
    match ConsoleMeta(rec)
    case Some(m) => Some(Head(projectName, rec, timestamp) + Suffix(m, ser))
    case None => None
  }

  /** Each way of rendering a record. */
  datatype Route = FullRoute | ConsoleRoute

  function Render(route: Route, projectName: string, rec: Record, timestamp: string, ser: Fields -> string): Option<string>
  {
    match route
    case FullRoute => Some(FileLine(projectName, rec, timestamp, ser))
    case ConsoleRoute => ConsoleLine(projectName, rec, timestamp, ser)
  }

  /** The console route throws only for a `hideFromConsole` without `includes` and some other field. */
  lemma ConsoleThrows(projectName: string, rec: Record, timestamp: string, ser: Fields -> string)
    ensures ConsoleLine(projectName, rec, timestamp, ser).None? <==>
      HasKey(rec.fields, HideKey) && OmitOf(Lookup(rec.fields, HideKey)).None? &&
      exists e :: e in rec.fields && e.0 != HideKey
  {
    var meta := Without(rec.fields, HideKey);
    if |meta| > 0 {
      WithoutEntries(rec.fields, HideKey, meta[0]);
    }
    forall e | e in rec.fields && e.0 != HideKey
      ensures |meta| > 0
    {
      WithoutEntries(rec.fields, HideKey, e);
    }
  }

  /** Without extra fields both routes end the line exactly at the message, and agree. */
  lemma NoFieldsNoSuffix(projectName: string, rec: Record, timestamp: string, ser: Fields -> string)
    requires rec.fields == []
    ensures FileLine(projectName, rec, timestamp, ser) == Head(projectName, rec, timestamp)
    ensures ConsoleLine(projectName, rec, timestamp, ser) == Some(FileLine(projectName, rec, timestamp, ser))
    ensures EndsWith(FileLine(projectName, rec, timestamp, ser), Tagged(projectName, rec))
  {
    assert Head(projectName, rec, timestamp) + "" == Head(projectName, rec, timestamp);
    EndsWithAppend(timestamp + " ", Tagged(projectName, rec));
  }

  /**
   * A file line depends on the timestamp only through its prefix: two transports that stamp the
   * same record differently write the same text after the stamp.
   */
  lemma FileLineAfterStamp(projectName: string, rec: Record, t1: string, t2: string, ser: Fields -> string)
    ensures FileLine(projectName, rec, t1, ser)[|t1|..] == FileLine(projectName, rec, t2, ser)[|t2|..]
  {
    LineAfterStamp(t1, " ", Tagged(projectName, rec), Suffix(FileMeta(rec), ser));
    LineAfterStamp(t2, " ", Tagged(projectName, rec), Suffix(FileMeta(rec), ser));
  }

  lemma LineAfterStamp(t: string, a: string, b: string, c: string)
    ensures (t + a + b + c)[|t|..] == a + b + c
  {
    assert t + a + b + c == t + (a + b + c);
  }

  /** Every label of a context chain appears in the rendered line, on either route. */
  lemma ChainLabelsShown(projectName: string, rec: Record, timestamp: string, suffix: string, i: nat)
    requires rec.context.Some? && rec.context.value.Chain? && i < |rec.context.value.labels|
    ensures Contains(Head(projectName, rec, timestamp) + suffix, rec.context.value.labels[i])
  {
    var labels := rec.context.value.labels;
    var rest := "] " + Name(rec.level) + ": " + rec.message;
    JoinContainsParts(labels, " | ", i);
    ContainsExtend("[", Join(labels, " | "), rest, labels[i]);
    assert Tagged(projectName, rec) == "[" + Join(labels, " | ") + rest;
    ContainsExtend(timestamp + " ", Tagged(projectName, rec), suffix, labels[i]);
  }

  /**
   * A field named in a `hideFromConsole` array is serialised on the file route and not on the
   * console route, and `hideFromConsole` itself is serialised only on the file route.
   */
  lemma HiddenFieldsOnlyInFile(rec: Record, items: seq<Value>, k: string, v: Value)
    requires Lookup(rec.fields, HideKey) == Some(List(items))
    requires (k, v) in rec.fields && Text(k) in items
    ensures ConsoleMeta(rec).Some?
    ensures !HasKey(ConsoleMeta(rec).value, k) && !HasKey(ConsoleMeta(rec).value, HideKey)
    ensures (k, FullValue(v)) in FileMeta(rec)
    ensures (HideKey, List(items)) in FileMeta(rec)
  {
    var meta := Without(rec.fields, HideKey);
    ConsoleFieldsKeys(meta, KeyList(items), k);
    ConsoleFieldsKeys(meta, KeyList(items), HideKey);
    WithoutKeys(rec.fields, HideKey, HideKey);
    FullFieldsKeys(rec.fields, k, v);
    FullFieldsKeys(rec.fields, HideKey, List(items));
  }

  /**
   * An error field that is not hidden reaches the file serialiser as `{message, stack}` and the
   * console serialiser as `{message}`.
   */
  lemma ErrorStackOnlyInFile(rec: Record, k: string, message: string, stack: string)
    requires (k, ErrorInfo(message, stack)) in rec.fields && k != HideKey
    requires OmitOf(Lookup(rec.fields, HideKey)).Some? && !Omits(OmitOf(Lookup(rec.fields, HideKey)).value, k)
    ensures (k, Nested([("message", Text(message)), ("stack", Text(stack))])) in FileMeta(rec)
    ensures ConsoleMeta(rec).Some? && (k, Nested([("message", Text(message))])) in ConsoleMeta(rec).value
  {
    var o := OmitOf(Lookup(rec.fields, HideKey)).value;
    var meta := Without(rec.fields, HideKey);
    FullFieldsKeys(rec.fields, k, ErrorInfo(message, stack));
    WithoutEntries(rec.fields, HideKey, (k, ErrorInfo(message, stack)));
    ConsoleFieldsEntry(meta, o, k, ErrorInfo(message, stack));
  }

  /** The first test's expectation: `[project-name] info: Hello world!` at the end of the line. */
  lemma HelloWorldLine(timestamp: string, ser: Fields -> string)
    ensures EndsWith(FileLine("project-name", Record(Info, "Hello world!", None, []), timestamp, ser),
                     "[project-name] info: Hello world!")
  {
    NoFieldsNoSuffix("project-name", Record(Info, "Hello world!", None, []), timestamp, ser);
    HelloWorldText();
  }

  lemma HelloWorldText()
    ensures "[" + "project-name" + "] " + "info" + ": " + "Hello world!" == "[project-name] info: Hello world!"
  {
  }

  /** The override test's expectation: `[project-name] error: This message should appear!` at the end. */
  lemma AppearLine(timestamp: string, ser: Fields -> string)
    ensures EndsWith(FileLine("project-name", Record(Error, "This message should appear!", None, []), timestamp, ser),
                     "[project-name] error: This message should appear!")
  {
    NoFieldsNoSuffix("project-name", Record(Error, "This message should appear!", None, []), timestamp, ser);
    AppearLineText();
  }

  lemma AppearLineText()
    ensures "[" + "project-name" + "] " + "error" + ": " + "This message should appear!"
         == "[project-name] error: This message should appear!"
  {
    AppearLineHead();
  }

  lemma AppearLineHead()
    ensures "[" + "project-name" + "] " + "error" + ": " == "[project-name] error: "
  {
  }
}
