# horn-of-mongo core, modelled in Dafny

horn-of-mongo runs the MongoDB JavaScript shell on the JVM: scripts run in
Rhino, and the shell's native hooks are Java objects that call the MongoDB
Java driver. This project models the parts of that bridge that make their
own decisions:

- **BSONizer**, the converter between script values and driver values.
  - `convertJStoBSON`: arrays, objects (with the `{"$date": ...}`
    shorthand), regular expressions, functions, other scriptable objects,
    the shell's extended types (ObjectId, BinData with the UUID subtype,
    MinKey, MaxKey, NumberInt, NumberLong, DBRef, Timestamp) and
    primitives.
  - `convertBSONtoJS`, the way back.
  - `convertTimestampToBSONTimestamp`, which gives a Timestamp of time 0 the
    current second and an ordinal kept in two static fields.
- **Mongo**, the shell's connection object.
  - The constructor turns its host argument into server addresses and a
    `host` property.
  - `find` splits the namespace, routes `$cmd` to the command path and
    unwraps a `{query: ..., <modifiers>}` envelope into a filter and cursor
    specials.
  - `insert` redirects `system.indexes`, wraps a single object in a list,
    and sets and restores the collection's options.
  - `remove` and `update` pass their arguments to the driver. `update`
    first turns a null `upsert` or `multi` into false.
  - `insert`, `remove` and `update` record the last database called.
- **InternalCursor**, the cursor handed back to scripts. It either wraps a
  driver cursor or yields one synthetic `{ok: true}` result.
- **DBPointer**, a mutable holder of a namespace and an ObjectId.

Files and modules:

| file | module | contents |
|---|---|---|
| `wrappers.dfy` | `Wrappers` | `Option`, `Result` |
| `java_lang.dfy` | `JavaLang` | Java integer casts, division, `Integer.valueOf`, `String.valueOf(int)`, `indexOf`, `split`, joining |
| `uuid_layout.dfy` | `UuidLayout` | the 16-byte little-endian layout of a UUID in BinData subtype 4 |
| `bson_values.dfy` | `BsonValues` | `Dyn` (script-side values), `Wire` (driver-side values), documents as insertion-ordered maps |
| `timestamp_gen.dfy` | `TimestampGen` | the timestamp generator, as a function and as a class with the two static fields |
| `bsonizer.dfy` | `Bsonizer` | `ToWire` (convertJStoBSON) and `ToDyn` (convertBSONtoJS) |
| `bsonizer_properties.dfy` | `BsonizerProperties` | what the converter promises, including decode-then-encode round trips |
| `mongo_hosts.dfy` | `MongoHosts` | host-argument parsing and the `host` property |
| `mongo_adaptor.dfy` | `MongoAdaptor` | `find`, `insert`, `remove`, `update`: specification functions and the `Mongo` class |
| `mongo_adaptor_properties.dfy` | `MongoAdaptorProperties` | routing, envelope, options and last-called-database properties |
| `internal_cursor.dfy` | `InternalCursors` | the `InternalCursor` class and its one-shot behaviour |
| `dbpointer.dfy` | `DBPointers` | the `DBPointer` class |

How the outside world enters the model:

- **Converter oracles.** The converter calls libraries it does not own.
  Each of these is a field of the `Bsonizer.Host` datatype, passed as a
  parameter:
  - Apache `DateUtils.parseDate` and `DateFormatUtils.formatUTC`;
  - the driver's `Bytes.regexFlags`, in both directions;
  - `Object.toString` of unknown Java objects;
  - Rhino's function decompiler and class-prototype lookup;
  - the wall clock.
- **Converter state.** The timestamp generator's two static fields and the
  number of clock readings so far are threaded through every conversion
  as `Bsonizer.State`. On the connection side this state lives in one
  `MongoAdaptor.Scope` object, next to the scope's last-called database.
  Every `Mongo` object references that object and its methods update it,
  so all connection objects share one generator and one last-called
  database.
- **The driver.** It is a log. Every call `Mongo` makes on it is appended to
  `Session.calls`. What the driver answers is a parameter:
  - a command's result, a missing command, or a fault;
  - whether a write throws a `MongoException`.
- **A driver cursor** is the sequence of results it still has to deliver.

The model follows the code where the code's behaviour is surprising:

- An `insert` whose driver call throws does not restore the collection's
  options.
- `remove` ignores `justOne`.
- `{"$date": null}` and a `"$date"` key with no value throw a
  NullPointerException.
- `objsLeftInBatch()` throws when no driver cursor is set.
- In `find`, a query that does not convert to a document throws on
  `bsonQuery.get("query")`.

## Model

Source paths are relative to the repository root.

| member | source | states |
|---|---|---|
| JavaLang.ToInt32 | src/main/java/com/github/nlloyd/hornofmongo/util/BSONizer.java:351 | `(int)` of a long: the result is a 32-bit int congruent to the input modulo 2^32, and the input itself when it already fits |
| JavaLang.ToByte | src/main/java/com/github/nlloyd/hornofmongo/util/BSONizer.java:309 | `Integer.byteValue()`: a value in [-128, 128) congruent modulo 256, the input itself when it fits |
| JavaLang.JavaDiv | src/main/java/com/github/nlloyd/hornofmongo/util/BSONizer.java:353 | Java's `/` on longs truncates toward zero, for negative dividends too |
| JavaLang.IndexOf | src/main/java/com/github/nlloyd/hornofmongo/adaptor/Mongo.java:109 | `indexOf(c)` is -1 exactly when c does not occur, and otherwise the position of its first occurrence |
| JavaLang.IntToString | src/main/java/com/github/nlloyd/hornofmongo/adaptor/Mongo.java:124-125 | a port appended to a StringBuilder is a non-empty decimal, with a leading '-' exactly for negatives |
| JavaLang.ParseInt | src/main/java/com/github/nlloyd/hornofmongo/adaptor/Mongo.java:111-112 | `Integer.valueOf` succeeds only on a non-empty text and only with a 32-bit value |
| JavaLang.ParseIntToString | src/main/java/com/github/nlloyd/hornofmongo/adaptor/Mongo.java:111-112 | `Integer.valueOf` reads back every 32-bit int written in decimal |
| JavaLang.SplitJoin | src/main/java/com/github/nlloyd/hornofmongo/adaptor/Mongo.java:106 | `split` on a separator gives back the non-empty separator-free parts that were joined with it |
| JavaLang.Split | src/main/java/com/github/nlloyd/hornofmongo/adaptor/Mongo.java:106 | no contract of its own: `String.split` with limit 0, the whole text when the separator is absent and trailing empty parts dropped otherwise; its promises are in `SplitJoin`, `PiecesOfJoin` and `MongoHosts.HostStringRoundTrip` |
| UuidLayout.UuidFromBytes | src/main/java/com/github/nlloyd/hornofmongo/util/BSONizer.java:311-317 | a payload of fewer than 16 bytes underflows, and any longer payload yields a UUID |
| UuidLayout.UuidFromBytesWords | src/main/java/com/github/nlloyd/hornofmongo/util/BSONizer.java:311-317 | the two halves are bytes 0-7 and 8-15 read little-endian, and later bytes are ignored |
| UuidLayout.UuidToBytes | src/main/java/com/github/nlloyd/hornofmongo/util/BSONizer.java:262-268 | a UUID is written as exactly 16 bytes |
| UuidLayout.BytesToUuidToBytes | src/main/java/com/github/nlloyd/hornofmongo/util/BSONizer.java:259-268 | 16 bytes read as a UUID and written back are the same bytes |
| UuidLayout.UuidToBytesToUuid | src/main/java/com/github/nlloyd/hornofmongo/util/BSONizer.java:311-317 | a UUID written as bytes and read back is the same UUID |
| BsonValues.Get | src/main/java/com/github/nlloyd/hornofmongo/util/BSONizer.java:205 | a document lookup finds nothing exactly when the key is absent; the value it finds is in `GetFirst` |
| BsonValues.GetFirst | src/main/java/com/github/nlloyd/hornofmongo/util/BSONizer.java:205 | `get(key)` returns the value of the first entry holding the key |
| BsonValues.GetDistinct | src/main/java/com/github/nlloyd/hornofmongo/util/BSONizer.java:204-205 | in a document with distinct keys, `get` of entry i's key returns entry i's value, so the decoder reads each key's own value |
| BsonValues.Put | src/main/java/com/github/nlloyd/hornofmongo/util/BSONizer.java:120-125 | `put` keeps an existing key in place with the new value and appends a new key at the end; the same rule serves BasicDBObject entries and native-object properties |
| BsonValues.GetPut | src/main/java/com/github/nlloyd/hornofmongo/util/BSONizer.java:120-125 | after `put(k, v)`, `get(k)` is v and every other key reads as before |
| TimestampGen.Resolve | src/main/java/com/github/nlloyd/hornofmongo/util/BSONizer.java:348-366 | a non-zero time leaves the generator alone; a zero time returns the generator's new (second, ordinal) |
| TimestampGen.ResolveExplicit | src/main/java/com/github/nlloyd/hornofmongo/util/BSONizer.java:362-363 | an int time other than 0 is passed through with its increment, without reading the clock |
| TimestampGen.ResolveZero | src/main/java/com/github/nlloyd/hornofmongo/util/BSONizer.java:352-361 | time 0 takes the current second with ordinal 1 when the second changed, or the previous ordinal plus one; with the clock not going back the stamp comes after the last one |
| TimestampGen.ZeroRun | src/main/java/com/github/nlloyd/hornofmongo/util/BSONizer.java:352-361 | a run of zero-time requests gives one stamp per clock reading |
| TimestampGen.ZeroRunAfter | src/main/java/com/github/nlloyd/hornofmongo/util/BSONizer.java:352-361 | every stamp of a run comes after the last stamp issued before it |
| TimestampGen.ZeroRunIncreasing | src/main/java/com/github/nlloyd/hornofmongo/util/BSONizer.java:341-366 | with a clock that does not go back and no ordinal overflow, the stamps strictly increase in (time, inc) order |
| TimestampGen.ZeroRunDistinct | src/main/java/com/github/nlloyd/hornofmongo/util/BSONizer.java:341-366 | under the same conditions no two stamps of a run are equal |
| TimestampGen.ClockBackRepeats | src/main/java/com/github/nlloyd/hornofmongo/util/BSONizer.java:352-361 | without the forward clock the promise fails: clock seconds 5, 4, 5 issue the stamp (5, 1) twice |
| TimestampGen.OrdinalWraps | src/main/java/com/github/nlloyd/hornofmongo/util/BSONizer.java:352-361 | without NoWrap the promise fails: after ordinal INT_MAX in the same second comes (5, INT_MIN), which is not after the last stamp |
| TimestampGen.TimestampGenerator.constructor | src/main/java/com/github/nlloyd/hornofmongo/util/BSONizer.java:341-346 | the static fields start at 0 and 1 |
| TimestampGen.TimestampGenerator.ConvertTimestamp | src/main/java/com/github/nlloyd/hornofmongo/util/BSONizer.java:348-366 | the imperative method's new fields and result are those of the reference function |
| Bsonizer.LastIndexOf | src/main/java/com/github/nlloyd/hornofmongo/util/BSONizer.java:95-96 | `lastIndexOf("/")` is a position holding '/' with none after it, or -1 |
| Bsonizer.RegexOptionsAreFlags | src/main/java/com/github/nlloyd/hornofmongo/util/BSONizer.java:93-96 | the text after the last '/' of "/source/flags" is the flags, whatever the source holds |
| Bsonizer.ListToWire | src/main/java/com/github/nlloyd/hornofmongo/util/BSONizer.java:82-89 | a converted array has as many elements as the input; each element is read as NativeArray's List view hands it to the for-each loop |
| Bsonizer.ArrayEntry | src/main/java/com/github/nlloyd/hornofmongo/util/BSONizer.java:86 | an element as the for-each loop receives it: a hole or undefined reads as null and a wrapper is unwrapped; see `ArrayConversion` and `ArrayEntryVersusProperty` |
| Bsonizer.ToWire | src/main/java/com/github/nlloyd/hornofmongo/util/BSONizer.java:80-180 | no contract of its own: convertJStoBSON branch by branch, threading the converter state, with array elements read through the List view; its promises are in `BsonizerProperties.ToWireSucceeds`, `ToWireKeepsState`, `ArrayConversion`, `ObjectConversion`, `PropsOutcome`, the per-type encoding lemmas and `EncodeAfterDecode` |
| Bsonizer.PropsToWire | src/main/java/com/github/nlloyd/hornofmongo/util/BSONizer.java:101-127 | no contract of its own: the object loop, with the last parsed "$date" replacing the document; see `PropsOutcome`, `ObjectElementwise`, `ObjectConversion`, `ExtractedProps` and `PropsToWireSucceeds` |
| Bsonizer.MongoToWire | src/main/java/com/github/nlloyd/hornofmongo/util/BSONizer.java:302-336 | no contract of its own: convertScriptableMongoToBSON; see `ExtendedTypeEncoding`, `SentinelEncoding`, `BinDataEncoding`, `DBRefEncoding` and `TimestampEncoding` |
| Bsonizer.ExtractProperty | src/main/java/com/github/nlloyd/hornofmongo/util/BSONizer.java:284-299 | no contract of its own: NOT_FOUND reads as null and a Wrapper is unwrapped; see `ExtractedProps` and `NullDateThrows` |
| Bsonizer.ToDyn | src/main/java/com/github/nlloyd/hornofmongo/util/BSONizer.java:183-274 | no contract of its own: convertBSONtoJS; see `DocumentDecoding`, `ListDecoding`, `DecodingRules`, `TextDecodingRules` and the round trips `EncodeAfterDecode` |
| Bsonizer.AssignAll | src/main/java/com/github/nlloyd/hornofmongo/util/BSONizer.java:199-209 | no contract of its own: the document loop putting each decoded value; see `AssignAllFresh` and `DocumentDecoding` |
| BsonizerProperties.ArrayElementwise | src/main/java/com/github/nlloyd/hornofmongo/util/BSONizer.java:86-88 | element k of a converted list is element k, as the List view reads it, converted in the state the earlier elements left |
| BsonizerProperties.ArrayConversion | src/main/java/com/github/nlloyd/hornofmongo/util/BSONizer.java:82-89 | an array becomes a list of the same length whose element k is element k as the List view reads it, converted: a hole or undefined element becomes null, and a wrapped one converts as the object it wraps |
| BsonizerProperties.ArrayEntryVersusProperty | src/main/java/com/github/nlloyd/hornofmongo/util/BSONizer.java:284-299 | the List view reads an element as extractJSProperty reads a property, except that undefined comes out as null |
| BsonizerProperties.PropsOutcome | src/main/java/com/github/nlloyd/hornofmongo/util/BSONizer.java:101-127 | an object becomes the date of its last `"$date"` key that parses, or else a document whose keys are the object's keys merged in order; the values of the entries are in `ObjectElementwise` |
| BsonizerProperties.DateKeyReplacesObject | src/main/java/com/github/nlloyd/hornofmongo/util/BSONizer.java:103-121 | when a `"$date"` value parses, the whole object converts to that date, not to a document |
| BsonizerProperties.ObjectKeepsKeyOrder | src/main/java/com/github/nlloyd/hornofmongo/util/BSONizer.java:101-127 | an object with no parsable `"$date"` becomes a document with its keys in the object's order; the value under each key is in `ObjectConversion` |
| BsonizerProperties.FreshKeysIntro | src/main/java/com/github/nlloyd/hornofmongo/util/BSONizer.java:120-125 | keys that are distinct and absent from the document are each new when `put` reaches them, so every `put` appends |
| BsonizerProperties.ObjectShape | src/main/java/com/github/nlloyd/hornofmongo/util/BSONizer.java:101-127 | the object loop with no parsable `"$date"` over fresh keys keeps the document it started from and adds exactly one entry per property |
| BsonizerProperties.ObjectEntryAt | src/main/java/com/github/nlloyd/hornofmongo/util/BSONizer.java:104-125 | when the loop is ready (it succeeds, no `"$date"` parses and the keys are fresh), the entry k places after the starting document is property k's key with property k's value converted in the state the first k properties left |
| BsonizerProperties.ObjectElementwise | src/main/java/com/github/nlloyd/hornofmongo/util/BSONizer.java:101-127 | for distinct keys absent from the starting document and no parsable `"$date"`: the result is a document that keeps the starting entries and whose entry k places after them is property k's key with its extracted value converted, in the state the first k properties left |
| BsonizerProperties.ObjectConversion | src/main/java/com/github/nlloyd/hornofmongo/util/BSONizer.java:101-127 | convertJStoBSON on an object with distinct keys and no parsable `"$date"`: a document with one entry per property whose entry k is property k's key with its value converted |
| BsonizerProperties.DateShorthand | src/main/java/com/github/nlloyd/hornofmongo/util/BSONizer.java:111-121 | `{"$date": s}` is a date when s parses and `{"$date": s}` as a document when it does not |
| BsonizerProperties.NullDateThrows | src/main/java/com/github/nlloyd/hornofmongo/util/BSONizer.java:108-115 | a `"$date"` key whose value is null or not found throws on `value.toString()` |
| BsonizerProperties.ExtractedProps | src/main/java/com/github/nlloyd/hornofmongo/util/BSONizer.java:101-127 | the object loop sees each property only through extractJSProperty: a missing property converts as null and a wrapper as what it wraps, with the same outcome and state |
| BsonizerProperties.ToWireSucceeds | src/main/java/com/github/nlloyd/hornofmongo/util/BSONizer.java:80-180 | convertJStoBSON throws only for a non-Date scriptable, regex flags the driver rejects, UUID BinData under 16 bytes, or a null or missing "$date", whatever the state and format |
| BsonizerProperties.ListToWireSucceeds | src/main/java/com/github/nlloyd/hornofmongo/util/BSONizer.java:82-89 | the array loop succeeds when every element, as the List view reads it, converts |
| BsonizerProperties.PropsToWireSucceeds | src/main/java/com/github/nlloyd/hornofmongo/util/BSONizer.java:101-127 | the object loop succeeds when every property converts and no "$date" is null or missing |
| BsonizerProperties.LeafToWireSucceeds | src/main/java/com/github/nlloyd/hornofmongo/util/BSONizer.java:90-180 | each non-container branch fails only for its own cause |
| BsonizerProperties.ToWireKeepsState | src/main/java/com/github/nlloyd/hornofmongo/util/BSONizer.java:332-333 | only a Timestamp of time 0 touches the static timestamp fields and the clock: converting any value without one leaves the converter state unchanged, whether or not it throws |
| BsonizerProperties.ListToWireKeepsState | src/main/java/com/github/nlloyd/hornofmongo/util/BSONizer.java:82-89 | the array loop keeps the state when no element holds a zero-time Timestamp |
| BsonizerProperties.PropsToWireKeepsState | src/main/java/com/github/nlloyd/hornofmongo/util/BSONizer.java:101-127 | the object loop keeps the state when no property holds a zero-time Timestamp |
| BsonizerProperties.ScalarEncoding | src/main/java/com/github/nlloyd/hornofmongo/util/BSONizer.java:163-174 | Integer and Long become Double and a ConsString its flattened text, with the state untouched |
| BsonizerProperties.PrimitiveEncoding | src/main/java/com/github/nlloyd/hornofmongo/util/BSONizer.java:165-177 | undefined, null, booleans, doubles and strings pass through unchanged, with the state untouched, and decode back to themselves |
| BsonizerProperties.ScriptableEncoding | src/main/java/com/github/nlloyd/hornofmongo/util/BSONizer.java:148-162 | a Date becomes a date, or its UTC text under a non-empty format; any other class is refused with the class name |
| BsonizerProperties.RegExpEncoding | src/main/java/com/github/nlloyd/hornofmongo/util/BSONizer.java:90-99 | a regular expression becomes a pattern with its source and flag bits, or fails on flags the driver rejects |
| BsonizerProperties.ExtendedTypeEncoding | src/main/java/com/github/nlloyd/hornofmongo/util/BSONizer.java:305-327 | ObjectId, NumberInt and NumberLong map to the id, Integer and Long they hold |
| BsonizerProperties.SentinelEncoding | src/main/java/com/github/nlloyd/hornofmongo/util/BSONizer.java:302-335 | MinKey and MaxKey map to the driver's sentinels; an extended type with no branch becomes null |
| BsonizerProperties.FunctionEncoding | src/main/java/com/github/nlloyd/hornofmongo/util/BSONizer.java:131-147 | a function naming MinKey or MaxKey becomes that key; any other function becomes Code of its decompiled text |
| BsonizerProperties.DBRefEncoding | src/main/java/com/github/nlloyd/hornofmongo/util/BSONizer.java:328-331 | a DBRef keeps its namespace and converts its id, failing when the id fails |
| BsonizerProperties.BinDataEncoding | src/main/java/com/github/nlloyd/hornofmongo/util/BSONizer.java:307-319 | subtype 4 (after the byte cast) with 16 bytes or more becomes a UUID, with fewer underflows; other subtypes become Binary with the cast subtype |
| BsonizerProperties.UuidSubtypeEncoding | src/main/java/com/github/nlloyd/hornofmongo/util/BSONizer.java:311-317 | BinData of subtype 4 with at least 16 bytes becomes the UUID its first 16 bytes hold |
| BsonizerProperties.UuidPayloadRoundTrip | src/main/java/com/github/nlloyd/hornofmongo/util/BSONizer.java:259-268 | 16 bytes of subtype 4 converted to a UUID and back give the same bytes |
| BsonizerProperties.TimestampEncoding | src/main/java/com/github/nlloyd/hornofmongo/util/BSONizer.java:332-333 | a non-zero time passes through unchanged; time 0 reads the next clock value and takes the generator's stamp |
| BsonizerProperties.AssignAllFresh | src/main/java/com/github/nlloyd/hornofmongo/util/BSONizer.java:199-209 | putting properties whose keys are all new appends them, in order, after the existing ones |
| BsonizerProperties.DocumentDecoding | src/main/java/com/github/nlloyd/hornofmongo/util/BSONizer.java:199-209 | a document with distinct keys becomes an object with the same keys in the same order, each value decoded |
| BsonizerProperties.DecodingRules | src/main/java/com/github/nlloyd/hornofmongo/util/BSONizer.java:237-247 | Integer becomes Double, Long becomes NumberLong, and a timestamp keeps its fields |
| BsonizerProperties.TextDecodingRules | src/main/java/com/github/nlloyd/hornofmongo/util/BSONizer.java:210-253 | Code and Symbol become their strings, and byte[] becomes BinData of subtype 0 |
| BsonizerProperties.ListDecoding | src/main/java/com/github/nlloyd/hornofmongo/util/BSONizer.java:186-198 | a list becomes an array of the same length whose element k is element k decoded and stored as a plain value |
| BsonizerProperties.EncodeAfterDecode | src/main/java/com/github/nlloyd/hornofmongo/util/BSONizer.java:76-274 | a canonical driver value decoded and encoded again (no date format) is the same value, with the converter state unchanged; canonical excludes the lossy shapes, undefined inside a list among them |
| BsonizerProperties.DocRoundTrip | src/main/java/com/github/nlloyd/hornofmongo/util/BSONizer.java:101-127 | a document with distinct keys, no `"$date"` key and canonical values (so no list holding undefined) decodes and encodes back to itself |
| BsonizerProperties.LeafEncodeAfterDecode | src/main/java/com/github/nlloyd/hornofmongo/util/BSONizer.java:210-271 | the same round trip for every non-container value |
| BsonizerProperties.UuidEncodeAfterDecode | src/main/java/com/github/nlloyd/hornofmongo/util/BSONizer.java:259-268 | a UUID survives decoding to BinData and encoding back |
| BsonizerProperties.TimestampEncodeAfterDecode | src/main/java/com/github/nlloyd/hornofmongo/util/BSONizer.java:237-241 | a BSONTimestamp with a non-zero int time survives decoding and encoding |
| BsonizerProperties.BinaryEncodeAfterDecode | src/main/java/com/github/nlloyd/hornofmongo/util/BSONizer.java:254-258 | a Binary with a byte-range subtype other than 4 survives decoding and encoding |
| BsonizerProperties.PlainEncodeAfterDecode | src/main/java/com/github/nlloyd/hornofmongo/util/BSONizer.java:165-177 | null, undefined and booleans survive decoding and encoding |
| BsonizerProperties.ValueEncodeAfterDecode | src/main/java/com/github/nlloyd/hornofmongo/util/BSONizer.java:212-270 | doubles, strings and dates survive decoding and encoding when no date format is given |
| BsonizerProperties.MongoEncodeAfterDecode | src/main/java/com/github/nlloyd/hornofmongo/util/BSONizer.java:221-245 | ObjectId and Long survive decoding and encoding |
| BsonizerProperties.SentinelEncodeAfterDecode | src/main/java/com/github/nlloyd/hornofmongo/util/BSONizer.java:226-231 | MinKey and MaxKey survive decoding and encoding |
| BsonizerProperties.ListEncodeAfterDecode | src/main/java/com/github/nlloyd/hornofmongo/util/BSONizer.java:186-198 | a list of canonical values none of which is undefined survives decoding and encoding element by element |
| BsonizerProperties.DocEncodeAfterDecode | src/main/java/com/github/nlloyd/hornofmongo/util/BSONizer.java:199-209 | a document with distinct keys, no `"$date"` key and canonical values (no list inside holding undefined) survives decoding and encoding, keys in order |
| BsonizerProperties.EncodeAfterDecodeLossy | src/main/java/com/github/nlloyd/hornofmongo/util/BSONizer.java:246-249 | what the round trip loses: Integer comes back as Double, and Code and Symbol come back as String |
| BsonizerProperties.ArrayUndefinedLossy | src/main/java/com/github/nlloyd/hornofmongo/util/BSONizer.java:82-89 | undefined inside a list is lost: the array view reads it as null, so `[undefined]` comes back as `[null]` |
| BsonizerProperties.BinaryEncodeAfterDecodeLossy | src/main/java/com/github/nlloyd/hornofmongo/util/BSONizer.java:250-261 | byte[] comes back as Binary of subtype 0, and a Binary of subtype 4 with at least 16 bytes as a UUID |
| MongoHosts.ParseEntry | src/main/java/com/github/nlloyd/hornofmongo/adaptor/Mongo.java:108-116 | an entry without ':' is a host on the default port; an entry with one gets a 32-bit port or fails |
| MongoHosts.ParseEntries | src/main/java/com/github/nlloyd/hornofmongo/adaptor/Mongo.java:106-116 | a successful parse yields one address per entry |
| MongoHosts.ParseEntriesFailsOnPrefix | src/main/java/com/github/nlloyd/hornofmongo/adaptor/Mongo.java:108-116 | the first entry that fails decides the constructor's exception |
| MongoHosts.HostsOf | src/main/java/com/github/nlloyd/hornofmongo/adaptor/Mongo.java:89-117 | undefined means localhost on the default port; a driver Mongo's address list is taken as it is; a List (a script array included) is taken when all its elements are addresses and throws ClassCastException exactly when one is not |
| MongoHosts.CastAddresses | src/main/java/com/github/nlloyd/hornofmongo/adaptor/Mongo.java:98-100 | the unchecked List cast, as the rendering loop sees it: fails exactly when some element is not a ServerAddress, and otherwise gives the elements in order |
| MongoHosts.ParseHosts | src/main/java/com/github/nlloyd/hornofmongo/adaptor/Mongo.java:102-117 | the constructor's loop computes the reference parse of the host text |
| MongoHosts.Renders | src/main/java/com/github/nlloyd/hornofmongo/adaptor/Mongo.java:124-125 | each address is written as host ":" port |
| MongoHosts.BuildHostString | src/main/java/com/github/nlloyd/hornofmongo/adaptor/Mongo.java:119-126 | the StringBuilder loop computes the comma-separated `host` property |
| MongoHosts.HostStringRoundTrip | src/main/java/com/github/nlloyd/hornofmongo/adaptor/Mongo.java:102-129 | for well-formed addresses the `host` property, with or without "mongodb://", parses back to the same address list |
| MongoHosts.ParseHostText | src/main/java/com/github/nlloyd/hornofmongo/adaptor/Mongo.java:102-117 | no contract of its own: prefix stripped, split on ',', each entry parsed; see `ParseHosts`, `ParseEntriesFailsOnPrefix` and `HostStringRoundTrip` |
| MongoHosts.HostProperty | src/main/java/com/github/nlloyd/hornofmongo/adaptor/Mongo.java:119-129 | no contract of its own: "127.0.0.1" for undefined, else the rendered addresses; see `BuildHostString`, `HostStringRoundTrip` and `UndefinedHost` |
| MongoHosts.UndefinedHost | src/main/java/com/github/nlloyd/hornofmongo/adaptor/Mongo.java:89-91 | no host argument gives localhost:27017 and the `host` property "127.0.0.1" |
| MongoAdaptor.SplitNamespace | src/main/java/com/github/nlloyd/hornofmongo/adaptor/Mongo.java:209-210 | a namespace splits at its first '.' into a database without '.' and the rest, and fails exactly when there is no '.' |
| MongoAdaptor.CollectSpecials | src/main/java/com/github/nlloyd/hornofmongo/adaptor/Mongo.java:249-254 | the specials loop computes the reference envelope without "query" |
| MongoAdaptor.Scope.constructor | src/main/java/com/github/nlloyd/hornofmongo/adaptor/Mongo.java:371-375 | the shared scope starts with no last-called database and the given converter state |
| MongoAdaptor.Mongo.Init | src/main/java/com/github/nlloyd/hornofmongo/adaptor/Mongo.java:87-88 | a new connection object has the given hosts and `host` property, no calls and no options, and reads the shared scope's last-called database and converter state |
| MongoAdaptor.Mongo.Create | src/main/java/com/github/nlloyd/hornofmongo/adaptor/Mongo.java:87-130 | the constructor fails exactly when host parsing or the List cast fails; otherwise it holds the parsed hosts, the rendered `host` property and the shared scope |
| MongoAdaptor.Mongo.Find | src/main/java/com/github/nlloyd/hornofmongo/adaptor/Mongo.java:195-263 | find's new state and result are those of its specification |
| MongoAdaptor.Mongo.FindConverted | src/main/java/com/github/nlloyd/hornofmongo/adaptor/Mongo.java:203-262 | the part of find after conversion has the state and result of its specification |
| MongoAdaptor.Mongo.Insert | src/main/java/com/github/nlloyd/hornofmongo/adaptor/Mongo.java:266-302 | insert's new state and result are those of its specification |
| MongoAdaptor.Mongo.InsertConverted | src/main/java/com/github/nlloyd/hornofmongo/adaptor/Mongo.java:269-301 | the part of insert after conversion has the state and result of its specification |
| MongoAdaptor.Mongo.Remove | src/main/java/com/github/nlloyd/hornofmongo/adaptor/Mongo.java:304-322 | remove's new state and result are those of its specification |
| MongoAdaptor.Mongo.Update | src/main/java/com/github/nlloyd/hornofmongo/adaptor/Mongo.java:324-350 | update's new state and result are those of its specification |
| MongoAdaptor.Mongo.UpdateConverted | src/main/java/com/github/nlloyd/hornofmongo/adaptor/Mongo.java:329-349 | the part of update after conversion has the state and result of its specification |
| MongoAdaptor.FindSpec | src/main/java/com/github/nlloyd/hornofmongo/adaptor/Mongo.java:195-263 | no contract of its own: find on the session value, conversion first; see `QueryEnvelope`, `CommandRouting`, `CollectionRouting` and `CommandOutcomes` |
| MongoAdaptor.FindConvertedSpec | src/main/java/com/github/nlloyd/hornofmongo/adaptor/Mongo.java:203-262 | no contract of its own: find after conversion; see `QueryEnvelope`, `QueryNotDocument`, `CommandRouting` and `CollectionRouting` |
| MongoAdaptor.CommandSpec | src/main/java/com/github/nlloyd/hornofmongo/adaptor/Mongo.java:211-237 | no contract of its own: the "$cmd" branch; see `CommandCalls`, `CommandResultKind` and `CommandOutcomes` |
| MongoAdaptor.InsertSpec | src/main/java/com/github/nlloyd/hornofmongo/adaptor/Mongo.java:266-302 | no contract of its own: insert on the session value; see `ConversionFailureIssuesNothing` |
| MongoAdaptor.InsertConvertedSpec | src/main/java/com/github/nlloyd/hornofmongo/adaptor/Mongo.java:269-301 | no contract of its own: insert after conversion; see `InsertRouting`, `InsertOptions`, `InsertLastCalledDB` and `NoSeparatorIssuesNothing` |
| MongoAdaptor.RemoveSpec | src/main/java/com/github/nlloyd/hornofmongo/adaptor/Mongo.java:304-322 | no contract of its own: remove on the session value; see `RemoveIgnoresJustOne` and `ConversionFailureIssuesNothing` |
| MongoAdaptor.RemoveConvertedSpec | src/main/java/com/github/nlloyd/hornofmongo/adaptor/Mongo.java:309-321 | no contract of its own: remove after conversion; see `RemoveLastCalledDB` and `NoSeparatorIssuesNothing` |
| MongoAdaptor.UpdateSpec | src/main/java/com/github/nlloyd/hornofmongo/adaptor/Mongo.java:324-350 | no contract of its own: update on the session value; see `UpdateDefaults` |
| MongoAdaptor.UpdateConvertedSpec | src/main/java/com/github/nlloyd/hornofmongo/adaptor/Mongo.java:329-349 | no contract of its own: update after conversion; see `UpdateDefaults`, `UpdateLastCalledDB` and `NoSeparatorIssuesNothing` |
| MongoAdaptorProperties.SpecialsValue | src/main/java/com/github/nlloyd/hornofmongo/adaptor/Mongo.java:249-254 | after the loop has seen n envelope keys, a key reads as in the envelope if it is not "query" and was seen, and is absent otherwise |
| MongoAdaptorProperties.SpecialsValues | src/main/java/com/github/nlloyd/hornofmongo/adaptor/Mongo.java:249-254 | the specials never hold "query", and every other key holds the envelope's value under it |
| MongoAdaptorProperties.SpecialsKeyOrder | src/main/java/com/github/nlloyd/hornofmongo/adaptor/Mongo.java:250-252 | the specials' keys are the envelope's keys in order, "query" left out |
| MongoAdaptorProperties.QueryEnvelope | src/main/java/com/github/nlloyd/hornofmongo/adaptor/Mongo.java:238-259 | a collection query issues exactly one driver query: with a document under "query" that is the filter and the other keys are the specials, otherwise the query is the filter with no specials |
| MongoAdaptorProperties.QueryNotDocument | src/main/java/com/github/nlloyd/hornofmongo/adaptor/Mongo.java:243 | a collection query that is not a document throws before any driver call |
| MongoAdaptorProperties.CommandRouting | src/main/java/com/github/nlloyd/hornofmongo/adaptor/Mongo.java:211-237 | "$cmd" first runs the query as a command, never issues a collection query and never returns a query cursor |
| MongoAdaptorProperties.CommandCalls | src/main/java/com/github/nlloyd/hornofmongo/adaptor/Mongo.java:212-237 | the command branch on its own: the calls only grow, the first new call is the command on the query document, and none is a collection query |
| MongoAdaptorProperties.CommandSessionCalls | src/main/java/com/github/nlloyd/hornofmongo/adaptor/Mongo.java:212-237 | the command branch appends the command and then exactly its follow-up calls |
| MongoAdaptorProperties.CommandFollowUp | src/main/java/com/github/nlloyd/hornofmongo/adaptor/Mongo.java:224-236 | after the command comes a fault report, the fallback host command, or nothing, and never a collection query |
| MongoAdaptorProperties.CommandResultKind | src/main/java/com/github/nlloyd/hornofmongo/adaptor/Mongo.java:212-237 | the command branch never returns a query cursor |
| MongoAdaptorProperties.CollectionRouting | src/main/java/com/github/nlloyd/hornofmongo/adaptor/Mongo.java:238-260 | any other collection never runs a command and never returns a command cursor |
| MongoAdaptorProperties.CommandOutcomes | src/main/java/com/github/nlloyd/hornofmongo/adaptor/Mongo.java:212-237 | a result is returned in a one-shot cursor; a missing command gives a result with ok false and errmsg "no such cmd: " from the first host; a fault is reported and find returns null |
| MongoAdaptorProperties.InsertRouting | src/main/java/com/github/nlloyd/hornofmongo/adaptor/Mongo.java:284-295 | names ending in "system.indexes" insert [the document or null] into system.indexes; otherwise a list is inserted as it is and anything else as a one-element list |
| MongoAdaptorProperties.InsertOptions | src/main/java/com/github/nlloyd/hornofmongo/adaptor/Mongo.java:286-296 | the insert runs under the call's options, which are restored on success and left set on a fault; no other collection's options change |
| MongoAdaptorProperties.UpdateDefaults | src/main/java/com/github/nlloyd/hornofmongo/adaptor/Mongo.java:336-345 | a null upsert or multi is passed on as false; selector and object are the converted documents |
| MongoAdaptorProperties.RemoveIgnoresJustOne | src/main/java/com/github/nlloyd/hornofmongo/adaptor/Mongo.java:305-317 | remove does the same with justOne true or false |
| MongoAdaptorProperties.InsertLastCalledDB | src/main/java/com/github/nlloyd/hornofmongo/adaptor/Mongo.java:298 | insert records its database as last called exactly when it succeeds |
| MongoAdaptorProperties.RemoveLastCalledDB | src/main/java/com/github/nlloyd/hornofmongo/adaptor/Mongo.java:316-321 | remove records its database as last called exactly when it succeeds |
| MongoAdaptorProperties.UpdateLastCalledDB | src/main/java/com/github/nlloyd/hornofmongo/adaptor/Mongo.java:344-349 | update records its database as last called exactly when it succeeds |
| MongoAdaptorProperties.NoSeparatorIssuesNothing | src/main/java/com/github/nlloyd/hornofmongo/adaptor/Mongo.java:274-277 | a namespace without '.' makes insert, remove and update throw with the state unchanged |
| MongoAdaptorProperties.ConversionFailureIssuesNothing | src/main/java/com/github/nlloyd/hornofmongo/adaptor/Mongo.java:268 | a value the converter refuses makes insert and remove throw that error before any driver call |
| InternalCursors.FauxExhausted | src/main/java/org/github/nlloyd/hornofmongo/adaptor/InternalCursor.java:77-93 | once the fake result is returned, hasNext stays false and next returns null |
| InternalCursors.FauxOneShot | src/main/java/org/github/nlloyd/hornofmongo/adaptor/InternalCursor.java:74-98 | without a driver cursor hasNext is true exactly once, and the first next returns the fake result |
| InternalCursors.DriverDelegates | src/main/java/org/github/nlloyd/hornofmongo/adaptor/InternalCursor.java:79-95 | with a driver cursor, round i sees result i passed through the cursor's decoder (a parameter); past the end hasNext is false and next throws |
| InternalCursors.ObjsLeftMatchesHasNext | src/main/java/org/github/nlloyd/hornofmongo/adaptor/InternalCursor.java:108-111 | objsLeftInBatch is 1 exactly when the driver cursor has a next element, 0 otherwise, and throws without a driver cursor |
| InternalCursors.HasNextOf | src/main/java/org/github/nlloyd/hornofmongo/adaptor/InternalCursor.java:74-84 | no contract of its own: hasNext on the cursor state; see `FauxOneShot`, `FauxExhausted`, `DriverDelegates` and `InternalCursor.HasNext` |
| InternalCursors.NextOf | src/main/java/org/github/nlloyd/hornofmongo/adaptor/InternalCursor.java:86-98 | no contract of its own: next on the cursor state, decoding a driver result with the decoder it is given; see `FauxOneShot`, `FauxExhausted`, `DriverDelegates` and `InternalCursor.Next` |
| InternalCursors.ObjsLeftOf | src/main/java/org/github/nlloyd/hornofmongo/adaptor/InternalCursor.java:108-111 | no contract of its own: objsLeftInBatch on the cursor state; see `ObjsLeftMatchesHasNext` |
| InternalCursors.InternalCursor.constructor | src/main/java/org/github/nlloyd/hornofmongo/adaptor/InternalCursor.java:53-55 | the default cursor has no driver cursor, a null fake result, and nothing returned |
| InternalCursors.InternalCursor.WithFaux | src/main/java/org/github/nlloyd/hornofmongo/adaptor/InternalCursor.java:57-64 | with true the fake result is an object with ok = true; with false it is null |
| InternalCursors.InternalCursor.HasNext | src/main/java/org/github/nlloyd/hornofmongo/adaptor/InternalCursor.java:74-84 | hasNext answers the reference function and changes nothing |
| InternalCursors.InternalCursor.Next | src/main/java/org/github/nlloyd/hornofmongo/adaptor/InternalCursor.java:86-98 | next moves to the reference state, decoding with the decoder it is given, and never clears the returned flag |
| InternalCursors.InternalCursor.ObjsLeftInBatch | src/main/java/org/github/nlloyd/hornofmongo/adaptor/InternalCursor.java:108-111 | objsLeftInBatch answers the reference function |
| InternalCursors.InternalCursor.SetCursor | src/main/java/org/github/nlloyd/hornofmongo/adaptor/InternalCursor.java:113-115 | setCursor replaces the driver cursor and nothing else |
| DBPointers.DBPointer.constructor | src/main/java/org/github/nlloyd/hornofmongo/adaptor/DBPointer.java:42-44 | the default constructor leaves namespace and id unset |
| DBPointers.DBPointer.Of | src/main/java/org/github/nlloyd/hornofmongo/adaptor/DBPointer.java:46-53 | the two-argument constructor stores both arguments as given |
| DBPointers.DBPointer.GetNs | src/main/java/org/github/nlloyd/hornofmongo/adaptor/DBPointer.java:66-69 | getNs returns the stored namespace and changes nothing |
| DBPointers.DBPointer.GetId | src/main/java/org/github/nlloyd/hornofmongo/adaptor/DBPointer.java:82-85 | getId returns the stored id and changes nothing |
| DBPointers.DBPointer.SetNs | src/main/java/org/github/nlloyd/hornofmongo/adaptor/DBPointer.java:74-77 | setNs changes the namespace only; the id is unchanged |
| DBPointers.DBPointer.SetId | src/main/java/org/github/nlloyd/hornofmongo/adaptor/DBPointer.java:90-93 | setId changes the id only; the namespace is unchanged |

## Left out

- InternalCursors.NextOf: the cursor decodes driver results with the one-argument
  `convertBSONtoJS` of `org.github.nlloyd.hornofmongo.util.BSONizer`, which is
  not part of this model. It is the parameter `decode` of `NextOf`, `Trace`,
  `InternalCursor.Next` and `DriverDelegates`, and nothing is assumed about it.
- Rhino itself is out: object creation (`NewInstanceAction`), property
  setting, `Context.jsToJava`, decompiling and prototype lookup are
  oracles or plain constructors of `Dyn`. Script objects are values, so
  aliasing between them is not modelled. Of NativeArray's List view only
  what it hands out per element is modelled (`Bsonizer.ArrayEntry`).
- How the runtime builds the InternalCursor that `find` returns out of the
  arguments it passes (`new Object[] { jsCmdResult }`,
  `new Object[] { cursor }`) is not part of this model. `find` returns a
  `FindResult` saying which kind of cursor it hands over and with what, and
  `InternalCursor` is modelled on its own.
- The driver is out: its connection handling, wire protocol, read
  preference, encoder and decoder factories, and `getOptions()` on the
  client. `find`'s `options == 0` substitution on the command path has no
  effect, since those options are never passed on, so it is left out.
- `initMongoConnection`, `close`, `setParentScope`, `logout`,
  `getInnerMongo` and the no-argument `Mongo()` constructor are out: they
  only hand work to the driver.
- The driver-`Mongo` branch of the constructor is modelled only through its
  address list (`HostArg.AddressList`). Copying the inner client's options
  is left out.
- `MongoAdaptor.Scope`: one scope per JVM is modelled. The timestamp
  generator's fields are static in the source, so two `MongoScope`s share
  them while each keeps its own last-called database; a run with several
  scopes is not modelled.
- `ServerAddress` is taken at face value. Its host-name resolution and
  normalisation (and any `UnknownHostException`) are left out.
- `MongoAdaptor.OptionsOf`: a collection whose options were never set reads
  0. Options a collection inherits from its database or client are left out.
- A driver fault inside the `NoSuchElementException` handler (the fallback
  host command) is not modelled; that call is taken to succeed.
- `handleMongoException` is modelled as a logged `ReportFault` call. What
  the scope then does with the exception is left out.
- Floating point: `Double.valueOf` of an Integer or a Long is the exact real
  value. Rounding of longs beyond 2^53 is not modelled.
- `Pattern.compile` of an invalid regular-expression source is not
  modelled. Only the flag conversion can fail.
- `Integer.valueOf` accepts ASCII digits only. Other Unicode digits are not
  modelled.
- The `synchronized` on the timestamp method is concurrency. The model runs
  calls one after another.
- The `isJsObj` flag is threaded through the converter but never read, so
  it is dropped.
- MinKey and MaxKey are values only. Their ordering against other values
  is a server concern.
- `getClassName` methods are out.
