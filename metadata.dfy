/**
 * The extra fields of a log record and the two renderers that turn them into the suffix of a
 * line: formatExcessProperties (file route, src/main.ts:8-24) and formatExcessPropertiesNoStack
 * (console route, src/main.ts:26-50). JSON.stringify is a parameter `ser`.
 */
module Metadata {
  import opened Strings

  /** A metadata value; `instanceof Error` becomes the ErrorInfo variant. */
  datatype Value =
    | Text(s: string)
    | Num(n: int)
    | Bool(b: bool)
    | ErrorInfo(message: string, stack: string)
    | Nested(entries: seq<(string, Value)>)
    | List(items: seq<Value>)

  /** A JavaScript object: its entries in enumeration order. */
  type Fields = seq<(string, Value)>

  predicate HasKey(m: Fields, k: string)
  {
    exists i | 0 <= i < |m| :: m[i].0 == k
  }

  /** The value written in place of an error on the file route: `{message, stack}`. */
  function FullValue(v: Value): Value
  {
    if v.ErrorInfo? then Nested([("message", Text(v.message)), ("stack", Text(v.stack))]) else v
  }

  /** The value copied for an error on the console route: `{message}`. */
  function ConsoleValue(v: Value): Value
  {
    if v.ErrorInfo? then Nested([("message", Text(v.message))]) else v
  }

  /** The object formatExcessProperties hands to the serialiser. */
  function FullFields(meta: Fields): Fields
  {
    seq(|meta|, i requires 0 <= i < |meta| => (meta[i].0, FullValue(meta[i].1)))
  }

  /**
   * The `omitKeys` argument: an array tested with Array.prototype.includes (only string
   * elements can equal a key) or a string tested with String.prototype.includes.
   */
  datatype OmitKeys = KeyList(items: seq<Value>) | KeyString(s: string)

  predicate Omits(o: OmitKeys, key: string)
  {
    match o
    case KeyList(items) => Text(key) in items
    case KeyString(s) => Contains(s, key)
  }

  /** The object formatExcessPropertiesNoStack fills and hands to the serialiser. */
  function ConsoleFields(meta: Fields, o: OmitKeys): Fields
    decreases |meta|
  {
    if |meta| == 0 then []
    else
      var rest := ConsoleFields(meta[..|meta| - 1], o);
      var (k, v) := meta[|meta| - 1];
      if Omits(o, k) then rest else rest + [(k, ConsoleValue(v))]
  }

  /** The text after the message: nothing for an empty object, else a space and the serialised object. */
  function Suffix(m: Fields, ser: Fields -> string): string
  {
    if |m| == 0 then "" else " " + ser(m)
  }

  ghost predicate Injective(ser: Fields -> string)
  {
    forall a, b :: ser(a) == ser(b) ==> a == b
  }

  /** With an injective serialiser the suffix determines the object that was serialised. */
  lemma SuffixInjective(ser: Fields -> string, a: Fields, b: Fields)
    requires Injective(ser)
    ensures Suffix(a, ser) == Suffix(b, ser) ==> a == b
  {
    if Suffix(a, ser) == Suffix(b, ser) {
      if |a| == 0 || |b| == 0 {
        assert |Suffix(a, ser)| == 0 && |Suffix(b, ser)| == 0;
      } else {
        assert ser(a) == Suffix(a, ser)[1..];
        assert ser(b) == Suffix(b, ser)[1..];
      }
    }
  }

  /** formatExcessProperties: overwrite every error in place, count the keys, serialise. */
  method RenderFull(meta: Fields, ser: Fields -> string) returns (suffix: string)
    ensures suffix == Suffix(FullFields(meta), ser)
    ensures suffix == "" <==> |meta| == 0
  {
    var m := meta;
    var count := 0;
    for i := 0 to |meta|
      invariant |m| == |meta|
      invariant count == i
      invariant forall j | 0 <= j < i :: m[j] == (meta[j].0, FullValue(meta[j].1))
      invariant forall j | i <= j < |meta| :: m[j] == meta[j]
    {
      var (key, val) := m[i];
      if val.ErrorInfo? {
        m := m[i := (key, Nested([("message", Text(val.message)), ("stack", Text(val.stack))]))];
      }
      count := count + 1;
    }
    assert m == FullFields(meta);
    if count == 0 {
      return "";
    }
    return " " + ser(m);
  }

  /** formatExcessPropertiesNoStack: skip omitted keys, strip stacks, count what is kept, serialise. */
  method RenderConsole(meta: Fields, omitKeys: OmitKeys, ser: Fields -> string) returns (suffix: string)
    ensures suffix == Suffix(ConsoleFields(meta, omitKeys), ser)
    ensures suffix == "" <==> forall j | 0 <= j < |meta| :: Omits(omitKeys, meta[j].0)
  {
    var count := 0;
    var realMeta: Fields := [];
    for i := 0 to |meta|
      invariant realMeta == ConsoleFields(meta[..i], omitKeys)
      invariant count == |realMeta|
    {
      assert meta[..i + 1][..i] == meta[..i];
      var (key, val) := meta[i];
      if Omits(omitKeys, key) {
        continue;
      }
      if val.ErrorInfo? {
        realMeta := realMeta + [(key, Nested([("message", Text(val.message))]))];
      } else {
        realMeta := realMeta + [(key, val)];
      }
      count := count + 1;
    }
    assert meta[..|meta|] == meta;
    ConsoleFieldsEmpty(meta, omitKeys);
    if count == 0 {
      return "";
    }
    return " " + ser(realMeta);
  }

  /** The file route keeps every key, in order, and replaces only errors, by `{message, stack}`. */
  lemma FullFieldsShape(meta: Fields)
    ensures |FullFields(meta)| == |meta|
    ensures forall i | 0 <= i < |meta| :: FullFields(meta)[i].0 == meta[i].0
    ensures forall i | 0 <= i < |meta| && meta[i].1.ErrorInfo? ::
      FullFields(meta)[i].1 == Nested([("message", Text(meta[i].1.message)), ("stack", Text(meta[i].1.stack))])
    ensures forall i | 0 <= i < |meta| && !meta[i].1.ErrorInfo? :: FullFields(meta)[i].1 == meta[i].1
  {
  }

  /** The file route serialises an entry for every key of the record's metadata and no other. */
  lemma FullFieldsKeys(meta: Fields, k: string, v: Value)
    ensures HasKey(FullFields(meta), k) <==> HasKey(meta, k)
    ensures (k, v) in meta ==> (k, FullValue(v)) in FullFields(meta)
  {
    var r := FullFields(meta);
    if HasKey(meta, k) {
      var i :| 0 <= i < |meta| && meta[i].0 == k;
      assert r[i].0 == k;
    }
    if HasKey(r, k) {
      var i :| 0 <= i < |r| && r[i].0 == k;
      assert meta[i].0 == k;
    }
    if (k, v) in meta {
      var i :| 0 <= i < |meta| && meta[i] == (k, v);
      assert r[i] == (k, FullValue(v));
    }
  }

  /** The console suffix is empty exactly when every key is omitted (or there is none). */
  lemma {:induction false} ConsoleFieldsEmpty(meta: Fields, o: OmitKeys)
    ensures |ConsoleFields(meta, o)| == 0 <==> forall j | 0 <= j < |meta| :: Omits(o, meta[j].0)
    decreases |meta|
  {
    if |meta| > 0 {
      var init := meta[..|meta| - 1];
      ConsoleFieldsEmpty(init, o);
      assert forall j | 0 <= j < |init| :: init[j] == meta[j];
    }
  }

  /**
   * Where each console entry comes from: `idx` lists, in increasing order, exactly the
   * positions of the keys that are not omitted, and entry i is the key at idx[i] with its
   * value reduced by ConsoleValue. So the kept entries keep their relative order.
   */
  lemma {:induction false} ConsoleFieldsOrigin(meta: Fields, o: OmitKeys) returns (idx: seq<nat>)
    ensures |idx| == |ConsoleFields(meta, o)|
    ensures forall i, j | 0 <= i < j < |idx| :: idx[i] < idx[j]
    ensures forall i | 0 <= i < |idx| ::
      idx[i] < |meta| && ConsoleFields(meta, o)[i] == (meta[idx[i]].0, ConsoleValue(meta[idx[i]].1))
    ensures forall j | 0 <= j < |meta| :: j in idx <==> !Omits(o, meta[j].0)
    decreases |meta|
  {
    if |meta| == 0 {
      idx := [];
    } else {
      var n := |meta| - 1;
      var init := meta[..n];
      var prev := ConsoleFieldsOrigin(init, o);
      assert forall j | 0 <= j < n :: init[j] == meta[j];
      if Omits(o, meta[n].0) {
        idx := prev;
      } else {
        idx := prev + [n];
      }
    }
  }

  /** The console route never serialises an omitted key and keeps every other key. */
  lemma ConsoleFieldsKeys(meta: Fields, o: OmitKeys, k: string)
    ensures HasKey(ConsoleFields(meta, o), k) <==> HasKey(meta, k) && !Omits(o, k)
  {
    var r := ConsoleFields(meta, o);
    var idx := ConsoleFieldsOrigin(meta, o);
    if HasKey(r, k) {
      var i :| 0 <= i < |r| && r[i].0 == k;
      assert meta[idx[i]].0 == k;
    }
    if HasKey(meta, k) && !Omits(o, k) {
      var j :| 0 <= j < |meta| && meta[j].0 == k;
      assert j in idx;
      var i :| 0 <= i < |idx| && idx[i] == j;
      assert r[i].0 == k;
    }
  }

  /** A kept entry reaches the console serialiser with its value reduced by ConsoleValue. */
  lemma ConsoleFieldsEntry(meta: Fields, o: OmitKeys, k: string, v: Value)
    requires (k, v) in meta && !Omits(o, k)
    ensures (k, ConsoleValue(v)) in ConsoleFields(meta, o)
  {
    var idx := ConsoleFieldsOrigin(meta, o);
    var j :| 0 <= j < |meta| && meta[j] == (k, v);
    assert j in idx;
    var i :| 0 <= i < |idx| && idx[i] == j;
    assert ConsoleFields(meta, o)[i] == (k, ConsoleValue(v));
  }

  /** No stack trace reaches the console serialiser: no value it gets is an unreduced error. */
  lemma ConsoleFieldsHaveNoErrors(meta: Fields, o: OmitKeys)
    ensures forall i | 0 <= i < |ConsoleFields(meta, o)| :: !ConsoleFields(meta, o)[i].1.ErrorInfo?
  {
    var idx := ConsoleFieldsOrigin(meta, o);
  }
}
