/**
 * The adaptor's Mongo object as far as its own decisions go: how find,
 * insert, remove and update split a namespace, route "$cmd" to the command
 * path, unwrap a {query: ..., <modifiers>} envelope, redirect inserts into
 * system.indexes, wrap a single object in a list, set and restore a
 * collection's options, and record the last database called.
 *
 * The driver is not modelled: every call the adaptor makes on it is appended
 * to `calls`, and what the driver answers (a command's result, whether a call
 * throws a MongoException) is given as a parameter.
 */
module MongoAdaptor {
  import opened Wrappers
  import opened BsonValues
  import opened Bsonizer
  import opened MongoHosts

  const COMMAND_COLLECTION: string := "$cmd"
  const QUERY_KEY: string := "query"
  const SYSTEM_INDEXES: string := "system.indexes"
  const NO_SUCH_CMD: string := "no such cmd: "

  // ------------------------------------------------------------ namespaces

  datatype Namespace = Namespace(db: string, collection: string)

  /**
   * ns.substring(0, ns.indexOf('.')) and ns.substring(ns.indexOf('.') + 1);
   * None for the StringIndexOutOfBoundsException thrown when there is no '.'.
   */
  function SplitNamespace(ns: string): (r: Option<Namespace>)
    ensures r.None? <==> '.' !in ns
    ensures r.Some? ==> r.value.db + "." + r.value.collection == ns && '.' !in r.value.db
  {
    var i := JavaLang.IndexOf(ns, '.');
    if i < 0 then None
    else
      assert ns == ns[..i] + "." + ns[i + 1..];
      Some(Namespace(ns[..i], ns[i + 1..]))
  }

  // ------------------------------------------------------------ driver

  /** A call made on the driver. */
  datatype DriverCall =
    | RunCommand(db: string, command: Option<seq<Entry>>)
    | RunHostCommand(db: string, hostCommand: string)
    | Query(db: string, collection: string, filter: seq<Entry>, fields: Option<seq<Entry>>,
            skip: int, batchSize: int, limit: int, options: int, specials: seq<Entry>)
    | Insert(db: string, collection: string, docs: seq<Wire>, options: int)
    | Remove(db: string, collection: string, pattern: Option<seq<Entry>>)
    | Update(db: string, collection: string, selector: Option<seq<Entry>>, obj: Option<seq<Entry>>,
             upsert: bool, multi: bool)
    | ReportFault(db: string)  // handleMongoException: the scope reports the driver's MongoException

  /** What db.command(...) does with the command document. */
  datatype CommandOutcome =
    | Answered(result: seq<Entry>)
    | NoSuchElement  // thrown for a bare db.runCommand()
    | Fault          // a MongoException

  /** Exceptions that leave find, insert, remove or update. */
  datatype Failure =
    | ConversionFailed(error: Error)  // thrown by convertJStoBSON
    | NoDatabaseSeparator             // ns without '.'
    | NullQuery                       // bsonQuery.get("query") on a query that is not a document
    | NoHosts                         // hosts.iterator().next() on an empty host list

  /** What find returns: an InternalCursor over one command result or over a driver cursor, or null. */
  datatype FindResult = CommandCursor(first: Dyn) | QueryCursor | NoCursor

  /**
   * Everything find, insert, remove and update change: the driver calls so
   * far and the options of each collection (db, name), which are the Mongo
   * object's, and the last-called database and the converter state, which
   * are its Scope's.
   */
  datatype Session = Session(calls: seq<DriverCall>, collectionOptions: map<(string, string), int>,
                             lastCalledDB: Option<string>, converter: State)

  /** DBCollection.getOptions(); a collection nobody set options on reads 0. */
  function OptionsOf(s: Session, db: string, collection: string): int
  {
    if (db, collection) in s.collectionOptions then s.collectionOptions[(db, collection)] else 0
  }

  /** `instanceof DBObject`: only a document is one; anything else leaves the variable null. */
  function AsDocument(w: Wire): Option<seq<Entry>>
  {
    if w.WDoc? then Some(w.entries) else None
  }

  /** `(b != null) ? b : false`. */
  function OrFalse(b: Option<bool>): bool
  {
    b.Some? && b.value
  }

  // ------------------------------------------------------------ find

  /** The cursor specials after the first n envelope keys: every key but "query", with its value. */
  function SpecialsUpTo(envelope: seq<Entry>, n: nat): seq<Entry>
    requires n <= |envelope|
  {
    if n == 0 then []
    else
      var acc := SpecialsUpTo(envelope, n - 1);
      var key := envelope[n - 1].key;
      if key == QUERY_KEY then acc
      else
        KeyPresent(envelope, n - 1);
        Put(acc, key, Get(envelope, key).value)
  }

  /** The envelope's filter and specials, when its "query" field is a document. */
  function Unwrap(q: seq<Entry>): (seq<Entry>, seq<Entry>)
  {
    var inner := Get(q, QUERY_KEY);
    if inner.Some? && inner.value.WDoc? then (inner.value.entries, SpecialsUpTo(q, |q|)) else (q, [])
  }

  /** The failed command's result: the fallback document with ok = false and errmsg set. */
  function NoSuchCommandResult(fallback: seq<Entry>): seq<Entry>
  {
    Put(Put(fallback, "ok", WBool(false)), "errmsg", WString(NO_SUCH_CMD))
  }

  /** find(ns, query, fields, limit, skip, batchSize, options) from session s. */
  function FindSpec(s: Session, h: Host, hosts: seq<ServerAddress>, ns: string, query: Dyn, fields: Dyn,
                    limit: int, skip: int, batchSize: int, options: int,
                    command: CommandOutcome, fallback: seq<Entry>): (Session, Result<FindResult, Failure>)
  {
    var q := ToWire(h, None, query, s.converter);
    if q.result.Err? then (s.(converter := q.state), Err(ConversionFailed(q.result.error)))
    else
      var f := ToWire(h, None, fields, q.state);
      if f.result.Err? then (s.(converter := f.state), Err(ConversionFailed(f.result.error)))
      else FindConvertedSpec(s.(converter := f.state), h, hosts, ns, q.result.value, f.result.value,
                             limit, skip, batchSize, options, command, fallback)
  }

  /** The rest of find once the query and the field selector are converted. */
  function FindConvertedSpec(s: Session, h: Host, hosts: seq<ServerAddress>, ns: string, rawQuery: Wire, rawFields: Wire,
                             limit: int, skip: int, batchSize: int, options: int,
                             command: CommandOutcome, fallback: seq<Entry>): (Session, Result<FindResult, Failure>)
  {
    var bsonQuery := AsDocument(rawQuery);
    var bsonFields := AsDocument(rawFields);
    var space := SplitNamespace(ns);
    if space.None? then (s, Err(NoDatabaseSeparator))
    else
      var db := space.value.db;
      if space.value.collection == COMMAND_COLLECTION then CommandSpec(s, h, hosts, db, bsonQuery, command, fallback)
      else if bsonQuery.None? then (s, Err(NullQuery))
      else
        var (filter, specials) := Unwrap(bsonQuery.value);
        var call := Query(db, space.value.collection, filter, bsonFields, skip, batchSize, limit, options, specials);
        (s.(calls := s.calls + [call]), Ok(QueryCursor))
  }

  /** The "$cmd" branch of find: db.command(query), then the outcome's cursor. */
  function CommandSpec(s: Session, h: Host, hosts: seq<ServerAddress>, db: string, bsonQuery: Option<seq<Entry>>,
                       command: CommandOutcome, fallback: seq<Entry>): (Session, Result<FindResult, Failure>)
  {
    var s2 := s.(calls := s.calls + [RunCommand(db, bsonQuery)]);
    match command
    case Answered(result) => (s2, Ok(CommandCursor(ToDyn(h, WDoc(result)))))
    case Fault => (s2.(calls := s2.calls + [ReportFault(db)]), Ok(NoCursor))
    case NoSuchElement =>
      if hosts == [] then (s2, Err(NoHosts))
      else
        var s3 := s2.(calls := s2.calls + [RunHostCommand(db, Render(hosts[0]))]);
        (s3, Ok(CommandCursor(ToDyn(h, WDoc(NoSuchCommandResult(fallback))))))
  }

  // ------------------------------------------------------------ insert, remove, update

  /** insert(ns, obj, options); `fault` says whether the driver's insert throws. */
  function InsertSpec(s: Session, h: Host, ns: string, obj: Dyn, options: int, fault: bool): (Session, Result<(), Failure>)
  {
    var c := ToWire(h, None, obj, s.converter);
    if c.result.Err? then (s.(converter := c.state), Err(ConversionFailed(c.result.error)))
    else InsertConvertedSpec(s.(converter := c.state), ns, c.result.value, options, fault)
  }

  /** The rest of insert once the object is converted. */
  function InsertConvertedSpec(s: Session, ns: string, rawObj: Wire, options: int, fault: bool): (Session, Result<(), Failure>)
  {
    var space := SplitNamespace(ns);
    if space.None? then (s, Err(NoDatabaseSeparator))
    else
      var db := space.value.db;
      var coll := space.value.collection;
      if JavaLang.EndsWith(coll, SYSTEM_INDEXES) then
        var bsonObj := if rawObj.WDoc? then rawObj else WNull;
        var s2 := s.(calls := s.calls + [Insert(db, SYSTEM_INDEXES, [bsonObj], OptionsOf(s, db, SYSTEM_INDEXES))]);
        if fault then (s2.(calls := s2.calls + [ReportFault(db)]), Ok(()))
        else (s2.(lastCalledDB := Some(db)), Ok(()))
      else
        var oldOptions := OptionsOf(s, db, coll);
        var docs := if rawObj.WList? then rawObj.elems else [rawObj];
        var s2 := s.(collectionOptions := s.collectionOptions[(db, coll) := options],
                     calls := s.calls + [Insert(db, coll, docs, options)]);
        if fault then (s2.(calls := s2.calls + [ReportFault(db)]), Ok(()))
        else (s2.(collectionOptions := s2.collectionOptions[(db, coll) := oldOptions], lastCalledDB := Some(db)), Ok(()))
  }

  /** remove(ns, pattern, justOne); justOne is not passed on. */
  function RemoveSpec(s: Session, h: Host, ns: string, pattern: Dyn, justOne: bool, fault: bool): (Session, Result<(), Failure>)
  {
    var c := ToWire(h, None, pattern, s.converter);
    if c.result.Err? then (s.(converter := c.state), Err(ConversionFailed(c.result.error)))
    else RemoveConvertedSpec(s.(converter := c.state), ns, c.result.value, fault)
  }

  function RemoveConvertedSpec(s: Session, ns: string, rawPattern: Wire, fault: bool): (Session, Result<(), Failure>)
  {
    var space := SplitNamespace(ns);
    if space.None? then (s, Err(NoDatabaseSeparator))
    else
      var db := space.value.db;
      var s2 := s.(calls := s.calls + [Remove(db, space.value.collection, AsDocument(rawPattern))]);
      if fault then (s2.(calls := s2.calls + [ReportFault(db)]), Ok(()))
      else (s2.(lastCalledDB := Some(db)), Ok(()))
  }

  /** update(ns, query, obj, upsert, multi); a null upsert or multi is false. */
  function UpdateSpec(s: Session, h: Host, ns: string, query: Dyn, obj: Dyn, upsert: Option<bool>, multi: Option<bool>,
                      fault: bool): (Session, Result<(), Failure>)
  {
    var q := ToWire(h, None, query, s.converter);
    if q.result.Err? then (s.(converter := q.state), Err(ConversionFailed(q.result.error)))
    else
      var o := ToWire(h, None, obj, q.state);
      if o.result.Err? then (s.(converter := o.state), Err(ConversionFailed(o.result.error)))
      else UpdateConvertedSpec(s.(converter := o.state), ns, q.result.value, o.result.value, upsert, multi, fault)
  }

  function UpdateConvertedSpec(s: Session, ns: string, rawQuery: Wire, rawObj: Wire, upsert: Option<bool>,
                               multi: Option<bool>, fault: bool): (Session, Result<(), Failure>)
  {
    var space := SplitNamespace(ns);
    if space.None? then (s, Err(NoDatabaseSeparator))
    else
      var db := space.value.db;
      var call := Update(db, space.value.collection, AsDocument(rawQuery), AsDocument(rawObj),
                         OrFalse(upsert), OrFalse(multi));
      var s2 := s.(calls := s.calls + [call]);
      if fault then (s2.(calls := s2.calls + [ReportFault(db)]), Ok(()))
      else (s2.(lastCalledDB := Some(db)), Ok(()))
  }

  /** The loop of find that adds every envelope key but "query" to the cursor as a special. */
  method CollectSpecials(envelope: seq<Entry>) returns (specials: seq<Entry>)
    ensures specials == SpecialsUpTo(envelope, |envelope|)
  {
    specials := [];
    for k := 0 to |envelope|
      invariant specials == SpecialsUpTo(envelope, k)
    {
      var key := envelope[k].key;
      if key != QUERY_KEY {
        KeyPresent(envelope, k);
        specials := Put(specials, key, Get(envelope, key).value);
      }
    }
  }

  // ------------------------------------------------------------ the Mongo object

  /**
   * The state every Mongo object shares rather than owns: the top-level
   * MongoScope's last-called database, and BSONizer's static timestamp
   * fields with the clock readings taken so far.
   */
  class Scope {
    var lastCalledDB: Option<string>
    var converter: State

    constructor (converter: State)
      ensures lastCalledDB == None && this.converter == converter
    {
      lastCalledDB := None;
      this.converter := converter;
    }
  }

  class Mongo {
    const hosts: seq<ServerAddress>
    /** The script-visible "host" property. */
    const host: string
    /** The top-level scope, which all Mongo objects of a shell share. */
    const scope: Scope
    var calls: seq<DriverCall>
    var collectionOptions: map<(string, string), int>

    function Current(): Session
      reads this, scope
    {
      Session(calls, collectionOptions, scope.lastCalledDB, scope.converter)
    }

    constructor Init(hosts: seq<ServerAddress>, host: string, scope: Scope)
      ensures this.hosts == hosts && this.host == host && this.scope == scope
      ensures Current() == Session([], map[], scope.lastCalledDB, scope.converter)
    {
      this.hosts := hosts;
      this.host := host;
      this.scope := scope;
      calls := [];
      collectionOptions := map[];
    }

    /** Mongo(Object host): the address list and the "host" property, or what parsing throws. */
    static method Create(arg: HostArg, scope: Scope) returns (r: Result<Mongo, HostError>)
      ensures r.Err? <==> HostsOf(arg).Err?
      ensures r.Err? ==> r.error == HostsOf(arg).error
      ensures r.Ok? ==> && fresh(r.value)
                        && r.value.hosts == HostsOf(arg).value
                        && r.value.host == HostProperty(arg, r.value.hosts)
                        && r.value.scope == scope
                        && r.value.Current() == Session([], map[], scope.lastCalledDB, scope.converter)
    {
      var hs: seq<ServerAddress>;
      match arg {
        case Undefined =>
          hs := [ServerAddress(DEFAULT_HOST, DEFAULT_PORT)];
        case AddressList(addresses) =>
          hs := addresses;
        case ObjectList(items) =>
          var addresses := CastAddresses(items);
          if addresses.None? {
            return Err(ClassCast);
          }
          hs := addresses.value;
        case HostText(text) =>
          var parsed := ParseHosts(text);
          if parsed.Err? {
            return Err(parsed.error);
          }
          hs := parsed.value;
      }
      var hostString: string;
      if !arg.Undefined? {
        hostString := BuildHostString(hs);
      } else {
        hostString := UNDEFINED_HOST_STRING;
      }
      var m := new Mongo.Init(hs, hostString, scope);
      return Ok(m);
    }

    method Find(h: Host, ns: string, query: Dyn, fields: Dyn, limit: int, skip: int, batchSize: int, options: int,
                command: CommandOutcome, fallback: seq<Entry>) returns (r: Result<FindResult, Failure>)
      modifies this, scope
      ensures Current() == FindSpec(old(Current()), h, hosts, ns, query, fields, limit, skip, batchSize, options,
                                         command, fallback).0
      ensures r == FindSpec(old(Current()), h, hosts, ns, query, fields, limit, skip, batchSize, options,
                                         command, fallback).1
    {
      var q := ToWire(h, None, query, scope.converter);
      scope.converter := q.state;
      if q.result.Err? {
        return Err(ConversionFailed(q.result.error));
      }
      var f := ToWire(h, None, fields, scope.converter);
      scope.converter := f.state;
      if f.result.Err? {
        return Err(ConversionFailed(f.result.error));
      }
      r := FindConverted(h, ns, q.result.value, f.result.value, limit, skip, batchSize, options, command, fallback);
    }

    method FindConverted(h: Host, ns: string, rawQuery: Wire, rawFields: Wire, limit: int, skip: int, batchSize: int,
                         options: int, command: CommandOutcome, fallback: seq<Entry>) returns (r: Result<FindResult, Failure>)
      modifies this, scope
      ensures Current() == FindConvertedSpec(old(Current()), h, hosts, ns, rawQuery, rawFields, limit, skip,
                                                  batchSize, options, command, fallback).0
      ensures r == FindConvertedSpec(old(Current()), h, hosts, ns, rawQuery, rawFields, limit, skip,
                                                  batchSize, options, command, fallback).1
    {
      var bsonQuery := AsDocument(rawQuery);
      var bsonFields := AsDocument(rawFields);
      var space := SplitNamespace(ns);
      if space.None? {
        return Err(NoDatabaseSeparator);
      }
      var db := space.value.db;
      var collectionName := space.value.collection;
      if collectionName == COMMAND_COLLECTION {
        calls := calls + [RunCommand(db, bsonQuery)];
        match command {
          case Answered(result) =>
            r := Ok(CommandCursor(ToDyn(h, WDoc(result))));
          case Fault =>
            calls := calls + [ReportFault(db)];
            r := Ok(NoCursor);
          case NoSuchElement =>
            if hosts == [] {
              return Err(NoHosts);
            }
            calls := calls + [RunHostCommand(db, Render(hosts[0]))];
            var failed := Put(fallback, "ok", WBool(false));
            failed := Put(failed, "errmsg", WString(NO_SUCH_CMD));
            r := Ok(CommandCursor(ToDyn(h, WDoc(failed))));
        }
      } else {
        if bsonQuery.None? {
          return Err(NullQuery);
        }
        var filter := bsonQuery.value;
        var specialFields: Option<seq<Entry>> := None;
        var inner := Get(filter, QUERY_KEY);
        if inner.Some? && inner.value.WDoc? {
          specialFields := Some(filter);
          filter := inner.value.entries;
        }
        var specials: seq<Entry> := [];
        if specialFields.Some? {
          specials := CollectSpecials(specialFields.value);
        }
        calls := calls + [Query(db, collectionName, filter, bsonFields, skip, batchSize, limit, options, specials)];
        r := Ok(QueryCursor);
      }
    }

    method Insert(h: Host, ns: string, obj: Dyn, options: int, fault: bool) returns (r: Result<(), Failure>)
      modifies this, scope
      ensures Current() == InsertSpec(old(Current()), h, ns, obj, options, fault).0
      ensures r == InsertSpec(old(Current()), h, ns, obj, options, fault).1
    {
      var c := ToWire(h, None, obj, scope.converter);
      scope.converter := c.state;
      if c.result.Err? {
        return Err(ConversionFailed(c.result.error));
      }
      r := InsertConverted(ns, c.result.value, options, fault);
    }

    method InsertConverted(ns: string, rawObj: Wire, options: int, fault: bool) returns (r: Result<(), Failure>)
      modifies this, scope
      ensures Current() == InsertConvertedSpec(old(Current()), ns, rawObj, options, fault).0
      ensures r == InsertConvertedSpec(old(Current()), ns, rawObj, options, fault).1
    {
      var bsonObj := if rawObj.WDoc? then rawObj else WNull;
      var space := SplitNamespace(ns);
      if space.None? {
        return Err(NoDatabaseSeparator);
      }
      var db := space.value.db;
      var collectionName := space.value.collection;
      if JavaLang.EndsWith(collectionName, SYSTEM_INDEXES) {
        calls := calls + [DriverCall.Insert(db, SYSTEM_INDEXES, [bsonObj], OptionsOf(Current(), db, SYSTEM_INDEXES))];
        if fault {
          calls := calls + [ReportFault(db)];
          return Ok(());
        }
      } else {
        var oldOptions := OptionsOf(Current(), db, collectionName);
        collectionOptions := collectionOptions[(db, collectionName) := options];
        var insertObj := if rawObj.WList? then rawObj.elems else [rawObj];
        calls := calls + [DriverCall.Insert(db, collectionName, insertObj, options)];
        if fault {
          calls := calls + [ReportFault(db)];
          return Ok(());
        }
        collectionOptions := collectionOptions[(db, collectionName) := oldOptions];
      }
      scope.lastCalledDB := Some(db);
      return Ok(());
    }

    method Remove(h: Host, ns: string, pattern: Dyn, justOne: bool, fault: bool) returns (r: Result<(), Failure>)
      modifies this, scope
      ensures Current() == RemoveSpec(old(Current()), h, ns, pattern, justOne, fault).0
      ensures r == RemoveSpec(old(Current()), h, ns, pattern, justOne, fault).1
    {
      var c := ToWire(h, None, pattern, scope.converter);
      scope.converter := c.state;
      if c.result.Err? {
        return Err(ConversionFailed(c.result.error));
      }
      var space := SplitNamespace(ns);
      if space.None? {
        return Err(NoDatabaseSeparator);
      }
      var db := space.value.db;
      calls := calls + [DriverCall.Remove(db, space.value.collection, AsDocument(c.result.value))];
      if fault {
        calls := calls + [ReportFault(db)];
        return Ok(());
      }
      scope.lastCalledDB := Some(db);
      return Ok(());
    }

    method Update(h: Host, ns: string, query: Dyn, obj: Dyn, upsert: Option<bool>, multi: Option<bool>, fault: bool)
      returns (r: Result<(), Failure>)
      modifies this, scope
      ensures Current() == UpdateSpec(old(Current()), h, ns, query, obj, upsert, multi, fault).0
      ensures r == UpdateSpec(old(Current()), h, ns, query, obj, upsert, multi, fault).1
    {
      ghost var s0 := Current();
      var q := ToWire(h, None, query, scope.converter);
      scope.converter := q.state;
      if q.result.Err? {
        return Err(ConversionFailed(q.result.error));
      }
      var o := ToWire(h, None, obj, scope.converter);
      scope.converter := o.state;
      if o.result.Err? {
        return Err(ConversionFailed(o.result.error));
      }
      assert Current() == s0.(converter := o.state);
      r := UpdateConverted(ns, q.result.value, o.result.value, upsert, multi, fault);
    }

    method UpdateConverted(ns: string, rawQuery: Wire, rawObj: Wire, upsert: Option<bool>, multi: Option<bool>,
                           fault: bool) returns (r: Result<(), Failure>)
      modifies this, scope
      ensures Current() == UpdateConvertedSpec(old(Current()), ns, rawQuery, rawObj, upsert, multi, fault).0
      ensures r == UpdateConvertedSpec(old(Current()), ns, rawQuery, rawObj, upsert, multi, fault).1
    {
      var upsertOp := OrFalse(upsert);
      var multiOp := OrFalse(multi);
      var space := SplitNamespace(ns);
      if space.None? {
        r := Err(NoDatabaseSeparator);
      } else {
        var db := space.value.db;
        calls := calls + [DriverCall.Update(db, space.value.collection, AsDocument(rawQuery), AsDocument(rawObj),
                                            upsertOp, multiOp)];
        if fault {
          calls := calls + [ReportFault(db)];
        } else {
          scope.lastCalledDB := Some(db);
        }
        r := Ok(());
      }
    }
  }
}
