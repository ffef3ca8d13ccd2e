/**
 * BSONizer: the two-way converter between script values (`Dyn`) and the
 * driver's BSON values (`Wire`).
 *
 * ToWire is convertJStoBSON. It is not a pure function in the source: a
 * Timestamp whose time is 0 reads the wall clock and advances the
 * process-wide timestamp state, and it may throw. Here it threads a `State`
 * (the timestamp fields and how many clock readings were taken) and returns
 * a `Result`. ToDyn is convertBSONtoJS, which has neither effect.
 */
module Bsonizer {
  import opened Wrappers
  import opened JavaLang
  import opened UuidLayout
  import opened BsonValues
  import opened TimestampGen

  /**
   * The calls into the script runtime, libraries and clock the converter
   * makes, given as functions.
   */
  datatype Host = Host(
    // DateUtils.parseDate(s, "yyyy-MM-dd'T'HH:mm:ss'Z'", "yyyy-MM-dd'T'HH:mm:ss.SSS'Z'"):
    // epoch milliseconds, or None for its ParseException
    parseDate: string -> Option<int>,
    // DateFormatUtils.formatUTC(date, pattern)
    formatUtc: (int, string) -> string,
    // Bytes.regexFlags(String): the Pattern flag bits, or None for an unknown flag character
    regexFlagBits: string -> Option<int>,
    // Bytes.regexFlags(int): the flag characters for Pattern flag bits
    regexFlagChars: int -> string,
    // Object.toString() of a value that is not a string
    toJavaString: Dyn -> string,
    // Context.decompileFunction(f, 2)
    decompile: Dyn -> string,
    // ScriptableObject.getClassPrototype(f, name)
    classPrototype: string -> Proto,
    // new Date().getTime() at the k-th reading of the clock
    clockMillis: nat -> int)

  /** What convertJStoBSON can throw. */
  datatype Error =
    | UnsupportedClass(message: string)  // MongoScopeException for an unknown scriptable class
    | NullPointer                        // "$date" whose value is null: value.toString()
    | BufferUnderflow                    // UUID BinData with fewer than 16 bytes
    | BadRegexFlags(flags: string)       // Bytes.regexFlags on an unknown flag character

  /** The converter's process-wide state and the number of clock readings taken. */
  datatype State = State(gen: Gen, clockReads: nat)

  /** A conversion's outcome and the state after it. */
  datatype Conv<T> = Conv(result: Result<T, Error>, state: State)

  const UNSUPPORTED_PREFIX: string := "bsonizer couldnt convert js class: "
  const DATE_KEY: string := "$date"

  // ------------------------------------------------------------ helpers

  /** ConsString.toString(): the pieces flattened. */
  function Flatten(pieces: seq<string>): string
  {
    if pieces == [] then "" else pieces[0] + Flatten(pieces[1..])
  }

  /** toString() as the "$date" branch calls it on a non-null value. */
  function JavaToString(h: Host, v: Dyn): string
  {
    match v
    case DString(s) => s
    case DConsString(ps) => Flatten(ps)
    case _ => h.toJavaString(v)
  }

  /** extractJSProperty: NOT_FOUND reads as null, a Java wrapper is unwrapped. */
  function ExtractProperty(slot: Slot): Dyn
  {
    match slot
    case Missing => DNull
    case Plain(v) => v
    case Wrapped(inner) => inner
  }

  /**
   * An array element as the converter's for-each loop receives it from
   * NativeArray's List view: a hole and undefined both read as null, and a
   * Java wrapper is unwrapped.
   */
  function ArrayEntry(slot: Slot): (v: Dyn)
    ensures DynSize(v) <= SlotSize(slot)
  {
    match slot
    case Missing => DNull
    case Plain(v) => if v.DUndefined? then DNull else v
    case Wrapped(inner) => inner
  }

  /** String.lastIndexOf(char), or -1. */
  function LastIndexOf(s: string, c: char): (i: int)
    ensures -1 <= i < |s|
    ensures i >= 0 ==> s[i] == c
    ensures forall j :: i < j < |s| ==> s[j] != c
  {
    if s == [] then -1
    else if s[|s| - 1] == c then |s| - 1
    else LastIndexOf(s[..|s| - 1], c)
  }

  /** The flag substring the converter takes from a regexp's "/source/flags" form. */
  function RegexOptions(source: string, flags: string): string
  {
    var full := "/" + source + "/" + flags;
    full[LastIndexOf(full, '/') + 1..]
  }

  /** The flags are read back exactly whenever they hold no '/' (JavaScript flags are letters). */
  lemma RegexOptionsAreFlags(source: string, flags: string)
    requires '/' !in flags
    ensures RegexOptions(source, flags) == flags
  {
    var full := "/" + source + "/" + flags;
    var sep := |source| + 1;
    assert full[sep] == '/';
    assert forall j :: sep < j < |full| ==> full[j] == flags[j - sep - 1];
    assert LastIndexOf(full, '/') == sep;
    assert full[sep + 1..] == flags;
  }

  predicate IsExtendedType(v: Dyn)
  {
    v.DObjectId? || v.DBinData? || v.DMinKey? || v.DMaxKey? || v.DNumberInt? || v.DNumberLong?
    || v.DDBRef? || v.DTimestamp? || v.DOtherMongo?
  }

  // ------------------------------------------------------ termination measure

  function DynSize(v: Dyn): (n: nat)
    ensures n >= 1
  {
    match v
    case DArray(es) => 1 + ListSize(es)
    case DObject(ps) => 1 + PropsSize(ps)
    case DDBRef(_, id) => 1 + DynSize(id)
    case _ => 1
  }

  function ListSize(es: seq<Slot>): nat
  {
    if es == [] then 0 else SlotSize(es[0]) + ListSize(es[1..])
  }

  function SlotSize(s: Slot): (n: nat)
    ensures n >= 1
  {
    match s
    case Missing => 1
    case Plain(v) => DynSize(v)
    case Wrapped(v) => DynSize(v)
  }

  function PropsSize(ps: seq<Prop>): nat
  {
    if ps == [] then 0 else SlotSize(ps[0].val) + PropsSize(ps[1..])
  }

  // ------------------------------------------------------------ script to BSON

  /** convertJStoBSON(value, isJsObj, dateFormat), from state st. */
  function ToWire(h: Host, dateFormat: Option<string>, v: Dyn, st: State): (c: Conv<Wire>)
    decreases DynSize(v), 1
  {
    match v
    case DArray(es) =>
      var c := ListToWire(h, dateFormat, es, st);
      Conv(if c.result.Ok? then Ok(WList(c.result.value)) else Err(c.result.error), c.state)
    case DRegExp(source, flags) =>
      var options := RegexOptions(source, flags);
      var bits := h.regexFlagBits(options);
      if bits.None? then Conv(Err(BadRegexFlags(options)), st)
      else Conv(Ok(WRegex(source, bits.value)), st)
    case DObject(ps) =>
      PropsToWire(h, dateFormat, ps, [], None, st)
    case DFunction(name, _) =>
      var proto := h.classPrototype(name);
      if proto == MinKeyProto then MongoToWire(h, dateFormat, DMinKey, st)
      else if proto == MaxKeyProto then MongoToWire(h, dateFormat, DMaxKey, st)
      else Conv(Ok(WCode(h.decompile(v))), st)
    case DScriptable(className, millis) =>
      if className == "Date" then
        if dateFormat.Some? && |dateFormat.value| > 0
        then Conv(Ok(WString(h.formatUtc(millis, dateFormat.value))), st)
        else Conv(Ok(WDate(millis)), st)
      else Conv(Err(UnsupportedClass(UNSUPPORTED_PREFIX + className)), st)
    case DConsString(pieces) => Conv(Ok(WString(Flatten(pieces))), st)
    case DUndefined => Conv(Ok(WUndefined), st)
    case DInt(n) => Conv(Ok(WDouble(n as real)), st)
    case DLong(n) => Conv(Ok(WDouble(n as real)), st)
    case DNull => Conv(Ok(WNull), st)
    case DBool(b) => Conv(Ok(WBool(b)), st)
    case DDouble(x) => Conv(Ok(WDouble(x)), st)
    case DString(s) => Conv(Ok(WString(s)), st)
    case _ => MongoToWire(h, dateFormat, v, st)
  }

  /** The array loop: each element, as the List view reads it, converted in order, the state passed along. */
  function ListToWire(h: Host, dateFormat: Option<string>, es: seq<Slot>, st: State): (c: Conv<seq<Wire>>)
    ensures c.result.Ok? ==> |c.result.value| == |es|
    decreases ListSize(es), 2
  {
    if es == [] then Conv(Ok([]), st)
    else
      var first := ToWire(h, dateFormat, ArrayEntry(es[0]), st);
      if first.result.Err? then Conv(Err(first.result.error), first.state)
      else
        var rest := ListToWire(h, dateFormat, es[1..], first.state);
        if rest.result.Err? then rest
        else Conv(Ok([first.result.value] + rest.result.value), rest.state)
  }

  /**
   * The object loop over the remaining properties: `doc` is the document
   * built so far and `date` the last "$date" value that parsed, which then
   * replaces the whole result.
   */
  function PropsToWire(h: Host, dateFormat: Option<string>, ps: seq<Prop>, doc: seq<Entry>,
                       date: Option<int>, st: State): (c: Conv<Wire>)
    decreases PropsSize(ps), 2
  {
    if ps == [] then
      Conv(Ok(if date.Some? then WDate(date.value) else WDoc(doc)), st)
    else
      var value := ExtractProperty(ps[0].val);
      assert DynSize(value) <= SlotSize(ps[0].val) <= PropsSize(ps);
      var name := ps[0].key;
      var parsed := if ps[0].key == DATE_KEY && value != DNull
                    then h.parseDate(JavaToString(h, value)) else None;
      if ps[0].key == DATE_KEY && value == DNull then Conv(Err(NullPointer), st)
      else if parsed.Some? then PropsToWire(h, dateFormat, ps[1..], doc, parsed, st)
      else
        var c := ToWire(h, dateFormat, value, st);
        if c.result.Err? then c
        else PropsToWire(h, dateFormat, ps[1..], Put(doc, name, c.result.value), date, c.state)
  }

  /** convertScriptableMongoToBSON, for the shell's extended types. */
  function MongoToWire(h: Host, dateFormat: Option<string>, v: Dyn, st: State): (c: Conv<Wire>)
    requires IsExtendedType(v)
    decreases DynSize(v), 0
  {
    match v
    case DObjectId(oid) => Conv(Ok(WObjectId(oid)), st)
    case DBinData(subtype, data) =>
      var t := ToByte(subtype);
      if t == UUID_SUBTYPE then
        var u := UuidFromBytes(data);
        if u.None? then Conv(Err(BufferUnderflow), st) else Conv(Ok(WUuid(u.value)), st)
      else Conv(Ok(WBinary(t, data)), st)
    case DMinKey => Conv(Ok(WMinKey), st)
    case DMaxKey => Conv(Ok(WMaxKey), st)
    case DNumberInt(n) => Conv(Ok(WInt(n)), st)
    case DNumberLong(n) => Conv(Ok(WLong(n)), st)
    case DDBRef(ns, id) =>
      var c := ToWire(h, dateFormat, id, st);
      Conv(if c.result.Ok? then Ok(WDBRef(ns, c.result.value)) else Err(c.result.error), c.state)
    case DTimestamp(t, i) =>
      var (gen, stamp) := Resolve(st.gen, t, i, h.clockMillis(st.clockReads));
      var readings := if ToInt32(t) == 0 then st.clockReads + 1 else st.clockReads;
      Conv(Ok(WTimestamp(stamp.time, stamp.inc)), State(gen, readings))
    case DOtherMongo(_) => Conv(Ok(WNull), st)
  }

  // ------------------------------------------------------------ BSON to script

  /** convertBSONtoJS. */
  function ToDyn(h: Host, w: Wire): Dyn
  {
    match w
    case WList(ws) => DArray(seq(|ws|, i requires 0 <= i < |ws| => Plain(ToDyn(h, ws[i]))))
    case WDoc(es) =>
      var vals := seq(|es|, i requires 0 <= i < |es| => ToDyn(h, es[i].val));
      DObject(AssignAll([], Keys(es), vals))
    case WSymbol(s) => DString(s)
    case WDate(millis) => DScriptable("Date", millis)
    case WRegex(source, bits) => DRegExp(source, h.regexFlagChars(bits))
    case WObjectId(oid) => DObjectId(oid)
    case WMinKey => DMinKey
    case WMaxKey => DMaxKey
    case WDBRef(ns, id) => DDBRef(ns, ToDyn(h, id))
    case WTimestamp(time, inc) => DTimestamp(time, inc)
    case WLong(n) => DNumberLong(n)
    case WInt(n) => DDouble(n as real)
    case WCode(code) => DString(code)
    case WBytes(data) => DBinData(0, data)
    case WBinary(subtype, data) => DBinData(subtype, data)
    case WUuid(u) => DBinData(UUID_SUBTYPE, UuidToBytes(u))
    case WNull => DNull
    case WUndefined => DUndefined
    case WBool(b) => DBool(b)
    case WDouble(x) => DDouble(x)
    case WString(s) => DString(s)
  }

  /** The document loop: each key assigned its converted value, in document order. */
  function AssignAll(props: seq<Prop>, keys: seq<string>, vals: seq<Dyn>): seq<Prop>
    requires |keys| == |vals|
    decreases |keys|
  {
    if keys == [] then props
    else AssignAll(Put(props, keys[0], Plain(vals[0])), keys[1..], vals[1..])
  }
}
