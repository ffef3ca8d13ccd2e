/**
 * What the adaptor's find, insert, remove and update promise, stated over
 * the specification functions of module MongoAdaptor.
 */
module MongoAdaptorProperties {
  import opened Wrappers
  import opened JavaLang
  import opened BsonValues
  import opened Bsonizer
  import opened MongoHosts
  import opened MongoAdaptor

  // ------------------------------------------------------------ query envelope

  /** The keys of ks other than k, in order. */
  function Without(ks: seq<string>, k: string): seq<string>
  {
    if ks == [] then []
    else
      var init := Without(ks[..|ks| - 1], k);
      if ks[|ks| - 1] == k then init else init + [ks[|ks| - 1]]
  }

  /**
   * One key of the cursor specials: "query" is never there; any other key
   * seen so far reads as it does in the envelope, and a key not yet seen is
   * absent.
   */
  lemma {:induction false} SpecialsValue(envelope: seq<Entry>, n: nat, key: string)
    requires n <= |envelope|
    ensures Get(SpecialsUpTo(envelope, n), key) ==
      if key != QUERY_KEY && key in Keys(envelope[..n]) then Get(envelope, key) else None
  {
    if n > 0 {
      SpecialsValue(envelope, n - 1, key);
      var k := envelope[n - 1].key;
      KeysOfPrefix(envelope, n);
      if k != QUERY_KEY {
        KeyPresent(envelope, n - 1);
        GetPut(SpecialsUpTo(envelope, n - 1), k, Get(envelope, k).value, key);
      }
    }
  }

  /** The keys of the first n entries are those of the first n - 1 and then the n-th key. */
  lemma KeysOfPrefix(envelope: seq<Entry>, n: nat)
    requires 0 < n <= |envelope|
    ensures Keys(envelope[..n]) == Keys(envelope[..n - 1]) + [envelope[n - 1].key]
  {
    assert envelope[..n] == envelope[..n - 1] + [envelope[n - 1]];
    KeysSnoc(envelope[..n - 1], envelope[n - 1]);
  }

  /** The cursor specials never hold "query", and every other key reads as it does in the envelope. */
  lemma SpecialsValues(envelope: seq<Entry>)
    ensures QUERY_KEY !in Keys(SpecialsUpTo(envelope, |envelope|))
    ensures forall key :: key != QUERY_KEY ==> Get(SpecialsUpTo(envelope, |envelope|), key) == Get(envelope, key)
  {
    assert envelope[..|envelope|] == envelope;
    SpecialsValue(envelope, |envelope|, QUERY_KEY);
    forall key | key != QUERY_KEY
      ensures Get(SpecialsUpTo(envelope, |envelope|), key) == Get(envelope, key)
    {
      SpecialsValue(envelope, |envelope|, key);
    }
  }

  /** With distinct envelope keys, the specials keep the envelope's key order, "query" left out. */
  lemma {:induction false} SpecialsKeyOrder(envelope: seq<Entry>, n: nat)
    requires n <= |envelope|
    requires DistinctKeys(envelope)
    ensures Keys(SpecialsUpTo(envelope, n)) == Without(Keys(envelope[..n]), QUERY_KEY)
  {
    if n > 0 {
      SpecialsKeyOrder(envelope, n - 1);
      var k := envelope[n - 1].key;
      assert envelope[..n] == envelope[..n - 1] + [envelope[n - 1]];
      assert Keys(envelope[..n])[..n - 1] == Keys(envelope[..n - 1]);
      if k != QUERY_KEY {
        forall i | 0 <= i < n - 1
          ensures envelope[i].key != k
        {
          assert envelope[i].key != envelope[n - 1].key;
        }
        SpecialsValue(envelope, n - 1, k);
        assert k !in Keys(envelope[..n - 1]);
      }
    }
  }

  /**
   * A collection query whose converted query holds a document under "query"
   * uses that document as the filter and every other envelope key, with its
   * value, as a cursor special; any other document is the filter itself with
   * no specials. Either way find issues exactly one query and returns its
   * cursor.
   */
  lemma QueryEnvelope(s: Session, h: Host, hosts: seq<ServerAddress>, ns: string, query: seq<Entry>, rawFields: Wire,
                      limit: int, skip: int, batchSize: int, options: int, command: CommandOutcome, fallback: seq<Entry>)
    requires SplitNamespace(ns).Some? && SplitNamespace(ns).value.collection != COMMAND_COLLECTION
    ensures var res := FindConvertedSpec(s, h, hosts, ns, WDoc(query), rawFields, limit, skip, batchSize, options,
                                         command, fallback);
      var space := SplitNamespace(ns).value;
      var inner := Get(query, QUERY_KEY);
      && res.1 == Ok(QueryCursor)
      && |res.0.calls| == |s.calls| + 1 && res.0.calls[..|s.calls|] == s.calls
      && var c := res.0.calls[|s.calls|];
         && c.Query? && c.db == space.db && c.collection == space.collection && c.fields == AsDocument(rawFields)
         && c.skip == skip && c.batchSize == batchSize && c.limit == limit && c.options == options
         && (inner.Some? && inner.value.WDoc? ==>
               && c.filter == inner.value.entries
               && QUERY_KEY !in Keys(c.specials)
               && forall key :: key != QUERY_KEY ==> Get(c.specials, key) == Get(query, key))
         && (!(inner.Some? && inner.value.WDoc?) ==> c.filter == query && c.specials == [])
  {
    SpecialsValues(query);
    var res := FindConvertedSpec(s, h, hosts, ns, WDoc(query), rawFields, limit, skip, batchSize, options,
                                 command, fallback);
    assert res.0.calls[..|s.calls|] == s.calls;
  }

  /** A query that is not a document makes find throw on bsonQuery.get("query"), before any driver call. */
  lemma QueryNotDocument(s: Session, h: Host, hosts: seq<ServerAddress>, ns: string, rawQuery: Wire, rawFields: Wire,
                         limit: int, skip: int, batchSize: int, options: int, command: CommandOutcome, fallback: seq<Entry>)
    requires SplitNamespace(ns).Some? && SplitNamespace(ns).value.collection != COMMAND_COLLECTION
    requires !rawQuery.WDoc?
    ensures FindConvertedSpec(s, h, hosts, ns, rawQuery, rawFields, limit, skip, batchSize, options, command, fallback)
            == (s, Err(NullQuery))
  {
  }

  // ------------------------------------------------------------ routing

  /**
   * "$cmd" takes the command path: the command is run on the database first,
   * no collection query is issued and no query cursor is returned. Calls are
   * only ever appended.
   */
  lemma CommandRouting(s: Session, h: Host, hosts: seq<ServerAddress>, ns: string, rawQuery: Wire, rawFields: Wire,
                       limit: int, skip: int, batchSize: int, options: int, command: CommandOutcome, fallback: seq<Entry>)
    requires SplitNamespace(ns).Some? && SplitNamespace(ns).value.collection == COMMAND_COLLECTION
    ensures var res := FindConvertedSpec(s, h, hosts, ns, rawQuery, rawFields, limit, skip, batchSize, options,
                                         command, fallback);
      && |s.calls| < |res.0.calls| && res.0.calls[..|s.calls|] == s.calls
      && res.0.calls[|s.calls|] == RunCommand(SplitNamespace(ns).value.db, AsDocument(rawQuery))
      && (forall i :: |s.calls| <= i < |res.0.calls| ==> !res.0.calls[i].Query?)
      && res.1 != Ok(QueryCursor)
  {
    var res := FindConvertedSpec(s, h, hosts, ns, rawQuery, rawFields, limit, skip, batchSize, options,
                                 command, fallback);
    var db := SplitNamespace(ns).value.db;
    assert res == CommandSpec(s, h, hosts, db, AsDocument(rawQuery), command, fallback);
    CommandCalls(s, h, hosts, db, AsDocument(rawQuery), command, fallback);
    CommandResultKind(s, h, hosts, db, AsDocument(rawQuery), command, fallback);
  }

  /** The "$cmd" branch never returns a query cursor. */
  lemma CommandResultKind(s: Session, h: Host, hosts: seq<ServerAddress>, db: string, bsonQuery: Option<seq<Entry>>,
                          command: CommandOutcome, fallback: seq<Entry>)
    ensures CommandSpec(s, h, hosts, db, bsonQuery, command, fallback).1 != Ok(QueryCursor)
  {
  }

  /** The "$cmd" branch appends the command call first and never a query. */
  lemma CommandCalls(s: Session, h: Host, hosts: seq<ServerAddress>, db: string, bsonQuery: Option<seq<Entry>>,
                     command: CommandOutcome, fallback: seq<Entry>)
    ensures var calls := CommandSpec(s, h, hosts, db, bsonQuery, command, fallback).0.calls;
      && |s.calls| < |calls| && calls[..|s.calls|] == s.calls
      && calls[|s.calls|] == RunCommand(db, bsonQuery)
      && (forall i :: |s.calls| <= i < |calls| ==> !calls[i].Query?)
  {
    var added := [RunCommand(db, bsonQuery)] + CommandFollowUp(hosts, db, command);
    CommandSessionCalls(s, h, hosts, db, bsonQuery, command, fallback);
    Extends(s.calls, added);
    var calls := s.calls + added;
    forall i | |s.calls| <= i < |calls|
      ensures !calls[i].Query?
    {
      assert calls[i] == added[i - |s.calls|];
    }
  }

  /** The calls the "$cmd" branch makes after the command itself. */
  function CommandFollowUp(hosts: seq<ServerAddress>, db: string, command: CommandOutcome): (r: seq<DriverCall>)
    ensures forall i :: 0 <= i < |r| ==> !r[i].Query?
  {
    match command
    case Answered(_) => []
    case Fault => [ReportFault(db)]
    case NoSuchElement => if hosts == [] then [] else [RunHostCommand(db, Render(hosts[0]))]
  }

  /** The command branch appends the command and then its follow-up calls. */
  lemma CommandSessionCalls(s: Session, h: Host, hosts: seq<ServerAddress>, db: string,
                            bsonQuery: Option<seq<Entry>>, command: CommandOutcome, fallback: seq<Entry>)
    ensures CommandSpec(s, h, hosts, db, bsonQuery, command, fallback).0.calls
            == s.calls + ([RunCommand(db, bsonQuery)] + CommandFollowUp(hosts, db, command))
  {
    var run := RunCommand(db, bsonQuery);
    match command {
      case Answered(_) =>
        assert [run] + [] == [run];
      case Fault =>
        AppendAssoc(s.calls, [run], [ReportFault(db)]);
      case NoSuchElement =>
        if hosts == [] {
          assert [run] + [] == [run];
        } else {
          AppendAssoc(s.calls, [run], [RunHostCommand(db, Render(hosts[0]))]);
        }
    }
  }

  /** The calls a + b begin with a and continue with b. */
  lemma Extends<T>(a: seq<T>, b: seq<T>)
    ensures (a + b)[..|a|] == a && (a + b)[|a|..] == b
  {
  }

  /** Any collection name other than "$cmd" never runs a command and never yields a command cursor. */
  lemma CollectionRouting(s: Session, h: Host, hosts: seq<ServerAddress>, ns: string, rawQuery: Wire, rawFields: Wire,
                          limit: int, skip: int, batchSize: int, options: int, command: CommandOutcome, fallback: seq<Entry>)
    requires SplitNamespace(ns).Some? && SplitNamespace(ns).value.collection != COMMAND_COLLECTION
    ensures var res := FindConvertedSpec(s, h, hosts, ns, rawQuery, rawFields, limit, skip, batchSize, options,
                                         command, fallback);
      var added := res.0.calls[|s.calls|..];
      && |s.calls| <= |res.0.calls| && res.0.calls[..|s.calls|] == s.calls
      && (forall i :: 0 <= i < |added| ==> !added[i].RunCommand? && !added[i].RunHostCommand?)
      && !(res.1.Ok? && res.1.value.CommandCursor?)
  {
    var res := FindConvertedSpec(s, h, hosts, ns, rawQuery, rawFields, limit, skip, batchSize, options,
                                 command, fallback);
    assert res.0.calls[..|s.calls|] == s.calls;
  }

  /**
   * The command path's outcomes: a command result is returned through a
   * one-shot cursor; a missing command document yields the fallback result
   * with ok = false and errmsg = "no such cmd: " instead of an exception; a
   * driver fault is reported and find returns null.
   */
  lemma CommandOutcomes(s: Session, h: Host, hosts: seq<ServerAddress>, ns: string, rawQuery: Wire, rawFields: Wire,
                        limit: int, skip: int, batchSize: int, options: int, command: CommandOutcome, fallback: seq<Entry>)
    requires SplitNamespace(ns).Some? && SplitNamespace(ns).value.collection == COMMAND_COLLECTION
    ensures var res := FindConvertedSpec(s, h, hosts, ns, rawQuery, rawFields, limit, skip, batchSize, options,
                                         command, fallback);
      var db := SplitNamespace(ns).value.db;
      var run := s.calls + [RunCommand(db, AsDocument(rawQuery))];
      && (command.Answered? ==> res == (s.(calls := run), Ok(CommandCursor(ToDyn(h, WDoc(command.result))))))
      && (command.Fault? ==> res == (s.(calls := run + [ReportFault(db)]), Ok(NoCursor)))
      && (command.NoSuchElement? && hosts == [] ==> res == (s.(calls := run), Err(NoHosts)))
      && (command.NoSuchElement? && hosts != [] ==>
            && res.0 == s.(calls := run + [RunHostCommand(db, Render(hosts[0]))])
            && res.1.Ok? && res.1.value.CommandCursor?
            && res.1.value.first == ToDyn(h, WDoc(NoSuchCommandResult(fallback)))
            && Get(NoSuchCommandResult(fallback), "ok") == Some(WBool(false))
            && Get(NoSuchCommandResult(fallback), "errmsg") == Some(WString(NO_SUCH_CMD)))
  {
    var failed := Put(fallback, "ok", WBool(false));
    GetPut(failed, "errmsg", WString(NO_SUCH_CMD), "ok");
    GetPut(fallback, "ok", WBool(false), "ok");
  }

  // ------------------------------------------------------------ insert

  /**
   * A collection name ending in "system.indexes" sends [the object, or null
   * when it is not a document] to the database's system.indexes collection.
   * Otherwise a converted list is inserted as it is and anything else as a
   * one-element list, into the named collection.
   */
  lemma InsertRouting(s: Session, ns: string, rawObj: Wire, options: int, fault: bool)
    requires SplitNamespace(ns).Some?
    ensures var res := InsertConvertedSpec(s, ns, rawObj, options, fault);
      var space := SplitNamespace(ns).value;
      && res.1 == Ok(())
      && |res.0.calls| > |s.calls| && res.0.calls[..|s.calls|] == s.calls
      && var c := res.0.calls[|s.calls|];
         && c.Insert? && c.db == space.db
         && (EndsWith(space.collection, SYSTEM_INDEXES) ==>
               c.collection == SYSTEM_INDEXES && c.docs == [if rawObj.WDoc? then rawObj else WNull])
         && (!EndsWith(space.collection, SYSTEM_INDEXES) ==>
               c.collection == space.collection && c.docs == (if rawObj.WList? then rawObj.elems else [rawObj]))
  {
    var res := InsertConvertedSpec(s, ns, rawObj, options, fault);
    assert res.0.calls[..|s.calls|] == s.calls;
  }

  /**
   * The ordinary insert path runs the driver's insert under the call's
   * options. When it succeeds every collection's options read as before;
   * when it faults the collection keeps the call's options. No other
   * collection's options change, and system.indexes inserts touch none.
   */
  lemma InsertOptions(s: Session, ns: string, rawObj: Wire, options: int, fault: bool)
    requires SplitNamespace(ns).Some?
    ensures var res := InsertConvertedSpec(s, ns, rawObj, options, fault);
      var space := SplitNamespace(ns).value;
      && (EndsWith(space.collection, SYSTEM_INDEXES) ==> res.0.collectionOptions == s.collectionOptions)
      && (!EndsWith(space.collection, SYSTEM_INDEXES) ==>
            && res.0.calls[|s.calls|].options == options
            && (forall db, coll :: (db, coll) != (space.db, space.collection) ==>
                  OptionsOf(res.0, db, coll) == OptionsOf(s, db, coll))
            && (!fault ==> OptionsOf(res.0, space.db, space.collection) == OptionsOf(s, space.db, space.collection))
            && (fault ==> OptionsOf(res.0, space.db, space.collection) == options))
  {
  }

  // ------------------------------------------------------------ remove, update

  /** update passes a null upsert or multi on as false, and true or false as given. */
  lemma UpdateDefaults(s: Session, ns: string, rawQuery: Wire, rawObj: Wire, upsert: Option<bool>, multi: Option<bool>,
                       fault: bool)
    requires SplitNamespace(ns).Some?
    ensures var res := UpdateConvertedSpec(s, ns, rawQuery, rawObj, upsert, multi, fault);
      var c := res.0.calls[|s.calls|];
      && c.Update? && c.upsert == (upsert == Some(true)) && c.multi == (multi == Some(true))
      && c.selector == AsDocument(rawQuery) && c.obj == AsDocument(rawObj)
  {
  }

  /** remove sends only the pattern: justOne makes no difference to what the driver is asked. */
  lemma RemoveIgnoresJustOne(s: Session, h: Host, ns: string, pattern: Dyn, fault: bool)
    ensures RemoveSpec(s, h, ns, pattern, true, fault) == RemoveSpec(s, h, ns, pattern, false, fault)
  {
  }

  /**
   * The last-called database is recorded only when insert reaches the
   * driver and the driver does not fault; it is then the namespace's
   * database. The same holds for remove and update below.
   */
  lemma InsertLastCalledDB(s: Session, ns: string, rawObj: Wire, options: int, fault: bool)
    ensures var res := InsertConvertedSpec(s, ns, rawObj, options, fault);
      res.0.lastCalledDB == if res.1.Ok? && !fault then Some(SplitNamespace(ns).value.db) else s.lastCalledDB
  {
  }

  lemma RemoveLastCalledDB(s: Session, ns: string, rawQuery: Wire, fault: bool)
    ensures var res := RemoveConvertedSpec(s, ns, rawQuery, fault);
      res.0.lastCalledDB == if res.1.Ok? && !fault then Some(SplitNamespace(ns).value.db) else s.lastCalledDB
  {
  }

  lemma UpdateLastCalledDB(s: Session, ns: string, rawQuery: Wire, rawObj: Wire, upsert: Option<bool>,
                           multi: Option<bool>, fault: bool)
    ensures var res := UpdateConvertedSpec(s, ns, rawQuery, rawObj, upsert, multi, fault);
      res.0.lastCalledDB == if res.1.Ok? && !fault then Some(SplitNamespace(ns).value.db) else s.lastCalledDB
  {
  }

  /** A namespace without a '.' makes insert, remove and update throw before any driver call. */
  lemma NoSeparatorIssuesNothing(s: Session, ns: string, rawQuery: Wire, rawObj: Wire, options: int,
                                 upsert: Option<bool>, multi: Option<bool>, fault: bool)
    requires '.' !in ns
    ensures InsertConvertedSpec(s, ns, rawObj, options, fault) == (s, Err(NoDatabaseSeparator))
    ensures RemoveConvertedSpec(s, ns, rawQuery, fault) == (s, Err(NoDatabaseSeparator))
    ensures UpdateConvertedSpec(s, ns, rawQuery, rawObj, upsert, multi, fault) == (s, Err(NoDatabaseSeparator))
  {
  }

  /**
   * A value the converter refuses makes the operation throw before any
   * driver call: nothing is logged and the last-called database stays.
   */
  lemma ConversionFailureIssuesNothing(s: Session, h: Host, ns: string, obj: Dyn, options: int, fault: bool)
    requires ToWire(h, None, obj, s.converter).result.Err?
    ensures var res := InsertSpec(s, h, ns, obj, options, fault);
      && res.0.calls == s.calls && res.0.lastCalledDB == s.lastCalledDB
      && res.1 == Err(ConversionFailed(ToWire(h, None, obj, s.converter).result.error))
    ensures var res := RemoveSpec(s, h, ns, obj, false, fault);
      && res.0.calls == s.calls && res.0.lastCalledDB == s.lastCalledDB
      && res.1 == Err(ConversionFailed(ToWire(h, None, obj, s.converter).result.error))
  {
  }
}
