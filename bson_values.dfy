/**
 * The two value universes the converter moves between.
 *
 * `Dyn` is a Java object as the script runtime hands it to the converter:
 * Rhino's native arrays, objects, regular expressions, functions and other
 * scriptable objects, the shell's extended types (ObjectId, BinData, NumberInt,
 * ...), and the plain Java values the runtime uses for primitives.
 *
 * `Wire` is a Java object as the database driver consumes and produces it:
 * java.util.List, BasicDBObject (an insertion-ordered map), org.bson.types.*,
 * java.util.Date, java.util.UUID, java.util.regex.Pattern and plain values.
 */
module BsonValues {
  import opened Wrappers
  import opened UuidLayout

  /**
   * What a property or array-element lookup can give: Scriptable.NOT_FOUND, a script value,
   * or a Java object wrapped for script use (a Wrapper to be unwrapped).
   */
  datatype Slot = Missing | Plain(value: Dyn) | Wrapped(inner: Dyn)

  /** A key and the value stored under it, in an insertion-ordered map. */
  datatype Binding<V> = Binding(key: string, val: V)

  /**
   * A property of a native object under its id's string form (an integer
   * index appears as its decimal digits, which is what key.toString() gives).
   */
  type Prop = Binding<Slot>

  /** The twelve bytes of an org.bson.types.ObjectId. */
  type ObjectIdBytes = s: seq<byte> | |s| == 12 witness [0, 0, 0, 0, 0, 0, 0, 0, 0, 0, 0, 0]

  /** The class prototype a function's name resolves to in its scope. */
  datatype Proto = MinKeyProto | MaxKeyProto | OtherProto

  datatype Dyn =
    | DNull                                   // Java null
    | DUndefined                              // Undefined.instance
    | DBool(b: bool)                          // java.lang.Boolean
    | DDouble(x: real)                        // java.lang.Double
    | DString(s: string)                      // java.lang.String
    | DConsString(pieces: seq<string>)        // Rhino's concatenation rope
    | DInt(n: int)                            // java.lang.Integer
    | DLong(n: int)                           // java.lang.Long
    | DArray(elems: seq<Slot>)                // NativeArray: its raw elements, a hole being Missing
    | DRegExp(source: string, flags: string)  // NativeRegExp, shown as "/source/flags"
    | DObject(props: seq<Prop>)               // NativeObject, keys in keySet() order
    | DFunction(name: string, body: string)   // BaseFunction
    // any other ScriptableObject: its class name and, when that is "Date",
    // the time value Context.jsToJava(obj, Date.class) gives
    | DScriptable(className: string, millis: int)
    // the shell's extended types (ScriptableMongoObject subclasses)
    | DObjectId(oid: ObjectIdBytes)
    | DBinData(subtype: int, data: seq<byte>)
    | DMinKey
    | DMaxKey
    | DNumberInt(n: int)
    | DNumberLong(n: int)
    | DDBRef(ns: string, id: Dyn)
    | DTimestamp(t: int, i: int)
    | DOtherMongo(className: string)          // e.g. DBPointer, Mongo: no conversion branch

  /** One key/value pair of a BasicDBObject. */
  type Entry = Binding<Wire>

  datatype Wire =
    | WNull
    | WUndefined
    | WBool(b: bool)
    | WDouble(x: real)
    | WString(s: string)
    | WInt(n: int)                            // java.lang.Integer
    | WLong(n: int)                           // java.lang.Long
    | WList(elems: seq<Wire>)                 // java.util.List
    | WDoc(entries: seq<Entry>)               // BasicDBObject / BSONObject
    | WRegex(source: string, flags: int)      // java.util.regex.Pattern
    | WObjectId(oid: ObjectIdBytes)
    | WBinary(subtype: int, data: seq<byte>)  // org.bson.types.Binary
    | WBytes(data: seq<byte>)                 // raw byte[]
    | WUuid(uuid: Uuid)                       // java.util.UUID
    | WMinKey
    | WMaxKey
    | WDBRef(ns: string, id: Wire)            // com.mongodb.DBRef
    | WTimestamp(time: int, inc: int)         // BSONTimestamp
    | WDate(millis: int)                      // java.util.Date
    | WCode(code: string)
    | WSymbol(symbol: string)

  // ------------------------------------------------ insertion-ordered maps

  /** The keys of a BasicDBObject or of a native object's properties, in order. */
  function Keys<V>(doc: seq<Binding<V>>): (ks: seq<string>)
    ensures |ks| == |doc|
    ensures forall i :: 0 <= i < |doc| ==> ks[i] == doc[i].key
  {
    if doc == [] then [] else [doc[0].key] + Keys(doc[1..])
  }

  predicate DistinctKeys<V>(doc: seq<Binding<V>>)
  {
    forall i, j :: 0 <= i < j < |doc| ==> doc[i].key != doc[j].key
  }

  /** Map.get: the value under the first entry with key k. */
  function Get<V>(doc: seq<Binding<V>>, k: string): (r: Option<V>)
    ensures r.None? <==> k !in Keys(doc)
  {
    if doc == [] then None else if doc[0].key == k then Some(doc[0].val) else Get(doc[1..], k)
  }

  /** Map.get returns the value of the first entry holding the key. */
  lemma {:induction false} GetFirst<V>(doc: seq<Binding<V>>, k: string, i: nat)
    requires i < |doc| && doc[i].key == k
    requires forall j :: 0 <= j < i ==> doc[j].key != k
    ensures Get(doc, k) == Some(doc[i].val)
    decreases i
  {
    if i > 0 {
      assert forall j :: 0 <= j < i - 1 ==> doc[1..][j] == doc[j + 1];
      GetFirst(doc[1..], k, i - 1);
    }
  }

  /** With distinct keys, each entry's key reads back that entry's value. */
  lemma GetDistinct<V>(doc: seq<Binding<V>>, i: nat)
    requires DistinctKeys(doc) && i < |doc|
    ensures Get(doc, doc[i].key) == Some(doc[i].val)
  {
    GetFirst(doc, doc[i].key, i);
  }

  /** The key of any entry is present. */
  lemma KeyPresent<V>(doc: seq<Binding<V>>, i: nat)
    requires i < |doc|
    ensures Get(doc, doc[i].key).Some?
  {
    assert doc[i].key == Keys(doc)[i];
  }

  /**
   * LinkedHashMap.put, and ScriptableObject.put of a property: an existing
   * key keeps its position and takes the new value; a new key goes at the end.
   */
  function Put<V>(doc: seq<Binding<V>>, k: string, v: V): (r: seq<Binding<V>>)
    ensures Keys(r) == if k in Keys(doc) then Keys(doc) else Keys(doc) + [k]
    ensures k !in Keys(doc) ==> r == doc + [Binding(k, v)]
  {
    if doc == [] then [Binding(k, v)]
    else if doc[0].key == k then [Binding(k, v)] + doc[1..]
    else
      var rest := Put(doc[1..], k, v);
      KeysCons(doc[0], doc[1..]);
      KeysCons(doc[0], rest);
      assert doc == [doc[0]] + doc[1..];
      assert k in Keys(doc) <==> k in Keys(doc[1..]);
      AppendAssoc([doc[0].key], Keys(doc[1..]), [k]);
      [doc[0]] + rest
  }

  lemma AppendAssoc<T>(a: seq<T>, b: seq<T>, c: seq<T>)
    ensures (a + b) + c == a + (b + c)
  {
  }

  lemma KeysSnoc<V>(doc: seq<Binding<V>>, e: Binding<V>)
    ensures Keys(doc + [e]) == Keys(doc) + [e.key]
  {
  }

  lemma KeysCons<V>(e: Binding<V>, doc: seq<Binding<V>>)
    ensures Keys([e] + doc) == [e.key] + Keys(doc)
  {
    assert ([e] + doc)[1..] == doc;
  }

  /** After put(k, v), get(k) is v and every other key reads as before. */
  lemma {:induction false} GetPut<V>(doc: seq<Binding<V>>, k: string, v: V, k': string)
    ensures Get(Put(doc, k, v), k) == Some(v)
    ensures k' != k ==> Get(Put(doc, k, v), k') == Get(doc, k')
  {
    if doc != [] && doc[0].key != k {
      GetPut(doc[1..], k, v, k');
    }
  }
}
