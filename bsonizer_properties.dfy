/**
 * What the converter promises, stated over the model in module Bsonizer:
 * the shape rules of each direction, the "$date" replacement, the UUID
 * layout, the resolution of zero timestamps, and the round trip
 * BSON -> script -> BSON with the cases where it is lossy by design.
 */
module BsonizerProperties {
  import opened Wrappers
  import opened JavaLang
  import opened UuidLayout
  import opened BsonValues
  import opened TimestampGen
  import opened Bsonizer

  // ------------------------------------------------------------ arrays

  /**
   * A converted array has one element per input element, in order: element
   * k is the conversion of input element k as the List view reads it, made
   * from the state the first k conversions left behind.
   */
  lemma {:induction false} ArrayElementwise(h: Host, fmt: Option<string>, es: seq<Slot>, st: State, k: nat)
    requires ListToWire(h, fmt, es, st).result.Ok?
    requires k < |es|
    ensures ListToWire(h, fmt, es[..k], st).result.Ok?
    ensures var c := ToWire(h, fmt, ArrayEntry(es[k]), ListToWire(h, fmt, es[..k], st).state);
      c.result.Ok? && ListToWire(h, fmt, es, st).result.value[k] == c.result.value
    decreases |es|, 1
  {
    ListToWireCons(h, fmt, es, st);
    if k == 0 {
      assert es[..0] == [];
    } else {
      NextElement(h, fmt, es, st, k);
    }
  }

  /** Element k of the whole loop is element k - 1 of the loop after the first element. */
  lemma {:induction false} NextElement(h: Host, fmt: Option<string>, es: seq<Slot>, st: State, k: nat)
    requires ListToWire(h, fmt, es, st).result.Ok?
    requires 0 < k < |es|
    ensures ListToWire(h, fmt, es[..k], st).result.Ok?
    ensures var c := ToWire(h, fmt, ArrayEntry(es[k]), ListToWire(h, fmt, es[..k], st).state);
      c.result.Ok? && ListToWire(h, fmt, es, st).result.value[k] == c.result.value
    decreases |es|, 0
  {
    assert es[..k][0] == es[0];
    assert es[..k][1..] == es[1..][..k - 1];
    assert es[1..][k - 1] == es[k];
    ListToWireCons(h, fmt, es, st);
    ListToWireCons(h, fmt, es[..k], st);
    var first := ToWire(h, fmt, ArrayEntry(es[0]), st);
    ArrayElementwise(h, fmt, es[1..], first.state, k - 1);
  }

  /** One turn of the array loop: the first element, then the rest from the state it left. */
  lemma ListToWireCons(h: Host, fmt: Option<string>, es: seq<Slot>, st: State)
    requires es != []
    ensures var first := ToWire(h, fmt, ArrayEntry(es[0]), st);
      var rest := ListToWire(h, fmt, es[1..], first.state);
      var whole := ListToWire(h, fmt, es, st);
      && (whole.result.Ok? <==> first.result.Ok? && rest.result.Ok?)
      && (whole.result.Ok? ==> whole.result.value == [first.result.value] + rest.result.value && whole.state == rest.state)
  {
  }

  /**
   * convertJStoBSON on a NativeArray: a list of the same length, element by
   * element, where a hole or an undefined element becomes null and a wrapped
   * one converts as the object it wraps.
   */
  lemma ArrayConversion(h: Host, fmt: Option<string>, es: seq<Slot>, st: State, k: nat)
    requires ToWire(h, fmt, DArray(es), st).result.Ok?
    requires k < |es|
    ensures var r := ToWire(h, fmt, DArray(es), st).result.value;
      var c := ToWire(h, fmt, ArrayEntry(es[k]), ListToWire(h, fmt, es[..k], st).state);
      && r.WList? && |r.elems| == |es|
      && c.result.Ok? && r.elems[k] == c.result.value
    ensures var r := ToWire(h, fmt, DArray(es), st).result.value;
      (es[k].Missing? || es[k] == Plain(DUndefined)) ==> r.elems[k] == WNull
    ensures var r := ToWire(h, fmt, DArray(es), st).result.value;
      es[k].Wrapped? ==> r.elems[k] == ToWire(h, fmt, es[k].inner, ListToWire(h, fmt, es[..k], st).state).result.value
  {
    ArrayElementwise(h, fmt, es, st, k);
  }

  /**
   * The List view reads an element as extractJSProperty reads a property,
   * except that an undefined element comes out as null.
   */
  lemma ArrayEntryVersusProperty(s: Slot)
    ensures !s.Wrapped? ==> ArrayEntry(s) == if ExtractProperty(s) == DUndefined then DNull else ExtractProperty(s)
    ensures s.Wrapped? ==> ArrayEntry(s) == ExtractProperty(s)
  {
  }

  // ------------------------------------------------------------ objects

  /** The key list a sequence of LinkedHashMap puts leaves behind. */
  function AddKey(ks: seq<string>, k: string): seq<string>
  {
    if k in ks then ks else ks + [k]
  }

  function MergeKeys(ks: seq<string>, names: seq<string>): seq<string>
    decreases |names|
  {
    if names == [] then ks else MergeKeys(AddKey(ks, names[0]), names[1..])
  }

  predicate Distinct(ks: seq<string>)
  {
    forall i, j :: 0 <= i < j < |ks| ==> ks[i] != ks[j]
  }

  lemma {:induction false} MergeDistinct(ks: seq<string>, names: seq<string>)
    requires Distinct(ks + names)
    ensures MergeKeys(ks, names) == ks + names
    decreases |names|
  {
    if names != [] {
      assert (ks + names)[|ks|] == names[0];
      forall i | 0 <= i < |ks|
        ensures ks[i] != names[0]
      {
        assert (ks + names)[i] == ks[i];
      }
      AppendHead(ks, names);
      MergeDistinct(ks + [names[0]], names[1..]);
    }
  }

  /**
   * The last "$date" property (scanning ps after the value `date` already
   * found) whose value is non-null and parses under one of the two layouts.
   */
  function LastParsedDate(h: Host, ps: seq<Prop>, date: Option<int>): Option<int>
    decreases |ps|
  {
    if ps == [] then date
    else
      var value := ExtractProperty(ps[0].val);
      var parsed := if ps[0].key == DATE_KEY && value != DNull
                    then h.parseDate(JavaToString(h, value)) else None;
      LastParsedDate(h, ps[1..], if parsed.Some? then parsed else date)
  }

  lemma {:induction false} LastParsedDateSticks(h: Host, ps: seq<Prop>, date: Option<int>)
    requires date.Some?
    ensures LastParsedDate(h, ps, date).Some?
    decreases |ps|
  {
    if ps != [] {
      var value := ExtractProperty(ps[0].val);
      var parsed := if ps[0].key == DATE_KEY && value != DNull
                    then h.parseDate(JavaToString(h, value)) else None;
      LastParsedDateSticks(h, ps[1..], if parsed.Some? then parsed else date);
    }
  }

  /**
   * The outcome of the object loop: the last parsing "$date" replaces the
   * whole value; when none parses, the result is a document whose keys are
   * those put so far followed by each property's key in keySet() order.
   */
  lemma {:induction false} PropsOutcome(h: Host, fmt: Option<string>, ps: seq<Prop>, doc: seq<Entry>,
                                        date: Option<int>, st: State)
    requires PropsToWire(h, fmt, ps, doc, date, st).result.Ok?
    ensures var r := PropsToWire(h, fmt, ps, doc, date, st).result.value;
      var d := LastParsedDate(h, ps, date);
      && (d.Some? ==> r == WDate(d.value))
      && (d.None? ==> r.WDoc? && Keys(r.entries) == MergeKeys(Keys(doc), Keys(ps)))
    decreases |ps|
  {
    if ps != [] {
      var value := ExtractProperty(ps[0].val);
      var name := ps[0].key;
      var parsed := if name == DATE_KEY && value != DNull then h.parseDate(JavaToString(h, value)) else None;
      assert Keys(ps) == [name] + Keys(ps[1..]);
      if parsed.Some? {
        LastParsedDateSticks(h, ps[1..], parsed);
        PropsOutcome(h, fmt, ps[1..], doc, parsed, st);
      } else {
        var c := ToWire(h, fmt, value, st);
        var doc' := Put(doc, name, c.result.value);
        assert Keys(doc') == AddKey(Keys(doc), name);
        PropsOutcome(h, fmt, ps[1..], doc', date, c.state);
      }
    }
  }

  /**
   * `{"$date": s, ...}`: when a "$date" value parses, the converted value is
   * that date itself, not a document; the other keys are converted into a
   * document that is thrown away.
   */
  lemma DateKeyReplacesObject(h: Host, fmt: Option<string>, ps: seq<Prop>, st: State)
    requires ToWire(h, fmt, DObject(ps), st).result.Ok?
    requires LastParsedDate(h, ps, None).Some?
    ensures ToWire(h, fmt, DObject(ps), st).result.value == WDate(LastParsedDate(h, ps, None).value)
  {
    PropsOutcome(h, fmt, ps, [], None, st);
  }

  /**
   * Otherwise an object becomes a document with the same keys in the same
   * order, "$date" included when its value did not parse.
   */
  lemma ObjectKeepsKeyOrder(h: Host, fmt: Option<string>, ps: seq<Prop>, st: State)
    requires ToWire(h, fmt, DObject(ps), st).result.Ok?
    requires LastParsedDate(h, ps, None).None?
    requires Distinct(Keys(ps))
    ensures var r := ToWire(h, fmt, DObject(ps), st).result.value;
      r.WDoc? && Keys(r.entries) == Keys(ps)
  {
    PropsOutcome(h, fmt, ps, [], None, st);
    assert [] + Keys(ps) == Keys(ps);
    MergeDistinct([], Keys(ps));
  }

  /** The date a single property contributes: its value parsed when the key is "$date" and the value is not null. */
  function HeadDate(h: Host, p: Prop): Option<int>
  {
    var value := ExtractProperty(p.val);
    if p.key == DATE_KEY && value != DNull then h.parseDate(JavaToString(h, value)) else None
  }

  /** One turn of the object loop on a property that is not a "$date" that parses or is null. */
  lemma PropsUnfold(h: Host, fmt: Option<string>, ps: seq<Prop>, doc: seq<Entry>, st: State)
    requires ps != [] && HeadDate(h, ps[0]).None?
    requires !(ps[0].key == DATE_KEY && ExtractProperty(ps[0].val) == DNull)
    ensures var c := ToWire(h, fmt, ExtractProperty(ps[0].val), st);
      PropsToWire(h, fmt, ps, doc, None, st)
      == if c.result.Err? then c else PropsToWire(h, fmt, ps[1..], Put(doc, ps[0].key, c.result.value), None, c.state)
  {
  }

  /** When no "$date" parses and the loop succeeds, the first property is an ordinary one. */
  lemma ObjectHead(h: Host, fmt: Option<string>, ps: seq<Prop>, doc: seq<Entry>, st: State)
    requires ps != [] && LastParsedDate(h, ps, None).None?
    requires PropsToWire(h, fmt, ps, doc, None, st).result.Ok?
    ensures HeadDate(h, ps[0]).None? && !(ps[0].key == DATE_KEY && ExtractProperty(ps[0].val) == DNull)
    ensures LastParsedDate(h, ps[1..], None).None?
  {
    var d := HeadDate(h, ps[0]);
    assert LastParsedDate(h, ps, None) == LastParsedDate(h, ps[1..], if d.Some? then d else None);
    if d.Some? {
      LastParsedDateSticks(h, ps[1..], d);
      assert false;
    }
  }

  /**
   * The keys `ks`, in order, each absent from `used` and from the keys
   * before it: the keys the object loop meets stay new as its document grows.
   */
  predicate FreshKeys(ks: seq<string>, used: seq<string>)
  {
    ks == [] || (ks[0] !in used && FreshKeys(ks[1..], used + [ks[0]]))
  }

  /** Distinct keys that are all absent from `used` are fresh for it. */
  lemma {:induction false} FreshKeysIntro(ks: seq<string>, used: seq<string>)
    requires Distinct(ks)
    requires forall i :: 0 <= i < |ks| ==> ks[i] !in used
    ensures FreshKeys(ks, used)
    decreases |ks|
  {
    if ks != [] {
      forall i | 0 <= i < |ks[1..]|
        ensures ks[1..][i] !in used + [ks[0]]
      {
        assert ks[1..][i] == ks[i + 1];
      }
      FreshKeysIntro(ks[1..], used + [ks[0]]);
    }
  }

  /** The first of fresh keys is not yet in the document. */
  lemma FreshKeysHead(ps: seq<Prop>, doc: seq<Entry>)
    requires ps != [] && FreshKeys(Keys(ps), Keys(doc))
    ensures ps[0].key !in Keys(doc)
  {
  }

  /** After the first property is appended, the rest stay fresh. */
  lemma FreshKeysTail(ps: seq<Prop>, doc: seq<Entry>, e: Entry)
    requires ps != [] && e.key == ps[0].key
    requires FreshKeys(Keys(ps), Keys(doc))
    ensures FreshKeys(Keys(ps[1..]), Keys(doc + [e]))
  {
    KeysSnoc(doc, e);
    assert Keys(ps) == [ps[0].key] + Keys(ps[1..]);
    assert Keys(ps)[1..] == Keys(ps[1..]);
  }

  /**
   * The object loop with no "$date" that parses, over properties whose keys
   * are fresh for `doc`, yields a document that keeps `doc` as it is and
   * adds one entry per property.
   */
  lemma {:induction false} ObjectShape(h: Host, fmt: Option<string>, ps: seq<Prop>, doc: seq<Entry>, st: State)
    requires PropsToWire(h, fmt, ps, doc, None, st).result.Ok?
    requires LastParsedDate(h, ps, None).None?
    requires FreshKeys(Keys(ps), Keys(doc))
    ensures var r := PropsToWire(h, fmt, ps, doc, None, st).result.value;
      r.WDoc? && |r.entries| == |doc| + |ps| && r.entries[..|doc|] == doc
    decreases |ps|
  {
    if ps != [] {
      FreshKeysHead(ps, doc);
      ObjectTail(h, fmt, ps, doc, st);
      var c := ToWire(h, fmt, ExtractProperty(ps[0].val), st);
      FreshKeysTail(ps, doc, Binding(ps[0].key, c.result.value));
      var doc' := doc + [Binding(ps[0].key, c.result.value)];
      ObjectShape(h, fmt, ps[1..], doc', c.state);
      var r := PropsToWire(h, fmt, ps, doc, None, st).result.value;
      assert r.entries[..|doc|] == r.entries[..|doc'|][..|doc|];
    }
  }

  /**
   * The object loop with no "$date" that parses, over properties with
   * distinct keys none of which is already in `doc`, entry by entry: the
   * document keeps `doc` and then holds, at |doc| + k, property k's key and
   * its value converted in the state the first k properties left behind. A
   * "$date" whose value did not parse is such an ordinary entry.
   */
  lemma ObjectElementwise(h: Host, fmt: Option<string>, ps: seq<Prop>, doc: seq<Entry>, st: State, k: nat)
    requires PropsToWire(h, fmt, ps, doc, None, st).result.Ok?
    requires LastParsedDate(h, ps, None).None?
    requires Distinct(Keys(ps))
    requires forall i :: 0 <= i < |ps| ==> ps[i].key !in Keys(doc)
    requires k < |ps|
    ensures var r := PropsToWire(h, fmt, ps, doc, None, st).result.value;
      var pre := PropsToWire(h, fmt, ps[..k], doc, None, st);
      var c := ToWire(h, fmt, ExtractProperty(ps[k].val), pre.state);
      && r.WDoc? && |r.entries| == |doc| + |ps| && r.entries[..|doc|] == doc
      && c.result.Ok? && r.entries[|doc| + k] == Binding(ps[k].key, c.result.value)
  {
    FreshKeysIntro(Keys(ps), Keys(doc));
    ObjectEntryAt(h, fmt, ps, doc, st, k);
    ObjectShape(h, fmt, ps, doc, st);
  }

  /** Entry |doc| + k holds property k's key and its converted value. */
  lemma ObjectEntryAt(h: Host, fmt: Option<string>, ps: seq<Prop>, doc: seq<Entry>, st: State, k: nat)
    requires LoopReady(h, fmt, ps, doc, st)
    requires k < |ps|
    ensures EntryHolds(PropsToWire(h, fmt, ps, doc, None, st).result, |doc| + k, ps[k].key,
                       ToWire(h, fmt, ExtractProperty(ps[k].val), PropsToWire(h, fmt, ps[..k], doc, None, st).state))
  {
    ObjectEntry(h, fmt, ps, doc, st, k, |doc| + k, ps[k]);
  }

  /** What the inductive entry lemmas need of the object loop. */
  predicate LoopReady(h: Host, fmt: Option<string>, ps: seq<Prop>, doc: seq<Entry>, st: State)
  {
    && PropsToWire(h, fmt, ps, doc, None, st).result.Ok?
    && LastParsedDate(h, ps, None).None?
    && FreshKeys(Keys(ps), Keys(doc))
  }

  /** The loop result is a document whose entry n is `key` with the value `c` converted to. */
  predicate EntryHolds(r: Result<Wire, Error>, n: nat, key: string, c: Conv<Wire>)
  {
    r.Ok? && r.value.WDoc? && n < |r.value.entries| && c.result.Ok? && r.value.entries[n] == Binding(key, c.result.value)
  }

  /**
   * Entry n = |doc| + k alone, by induction on the properties, with fresh
   * keys; `p` is property k.
   */
  lemma {:induction false} ObjectEntry(h: Host, fmt: Option<string>, ps: seq<Prop>, doc: seq<Entry>, st: State, k: nat,
                                       n: nat, p: Prop)
    requires LoopReady(h, fmt, ps, doc, st)
    requires k < |ps| && n == |doc| + k && p == ps[k]
    ensures EntryHolds(PropsToWire(h, fmt, ps, doc, None, st).result, n, p.key,
                       ToWire(h, fmt, ExtractProperty(p.val), PropsToWire(h, fmt, ps[..k], doc, None, st).state))
    decreases |ps|, 1
  {
    if k == 0 {
      assert ps[..0] == [];
      ObjectFirstEntry(h, fmt, ps, doc, st);
    } else {
      FreshKeysHead(ps, doc);
      ObjectTail(h, fmt, ps, doc, st);
      var c := ToWire(h, fmt, ExtractProperty(ps[0].val), st);
      FreshKeysTail(ps, doc, Binding(ps[0].key, c.result.value));
      var doc' := doc + [Binding(ps[0].key, c.result.value)];
      NextEntry(h, fmt, ps, doc, st, k, doc', c.state, n, p);
    }
  }

  /**
   * Entry n of the whole loop is entry n of the loop that starts after the
   * first property, with `doc'` and `st'` what that first turn left.
   */
  lemma {:induction false} NextEntry(h: Host, fmt: Option<string>, ps: seq<Prop>, doc: seq<Entry>, st: State, k: nat,
                                     doc': seq<Entry>, st': State, n: nat, p: Prop)
    requires 0 < k < |ps| && n == |doc| + k && p == ps[k] && ps[0].key !in Keys(doc)
    requires HeadDate(h, ps[0]).None? && !(ps[0].key == DATE_KEY && ExtractProperty(ps[0].val) == DNull)
    requires var c := ToWire(h, fmt, ExtractProperty(ps[0].val), st);
      c.result.Ok? && doc' == doc + [Binding(ps[0].key, c.result.value)] && st' == c.state
    requires PropsToWire(h, fmt, ps, doc, None, st) == PropsToWire(h, fmt, ps[1..], doc', None, st')
    requires LoopReady(h, fmt, ps[1..], doc', st')
    ensures EntryHolds(PropsToWire(h, fmt, ps, doc, None, st).result, n, p.key,
                       ToWire(h, fmt, ExtractProperty(p.val), PropsToWire(h, fmt, ps[..k], doc, None, st).state))
    decreases |ps|, 0
  {
    assert ps[1..][k - 1] == ps[k];
    ObjectEntry(h, fmt, ps[1..], doc', st', k - 1, n, p);
    PrefixTail(h, fmt, ps, doc, st, k);
  }

  /** The first property's entry follows `doc` directly. */
  lemma ObjectFirstEntry(h: Host, fmt: Option<string>, ps: seq<Prop>, doc: seq<Entry>, st: State)
    requires ps != []
    requires PropsToWire(h, fmt, ps, doc, None, st).result.Ok?
    requires LastParsedDate(h, ps, None).None?
    requires FreshKeys(Keys(ps), Keys(doc))
    ensures var r := PropsToWire(h, fmt, ps, doc, None, st).result.value;
      var c := ToWire(h, fmt, ExtractProperty(ps[0].val), st);
      && c.result.Ok? && r.WDoc? && |doc| < |r.entries|
      && r.entries[|doc|] == Binding(ps[0].key, c.result.value)
  {
    FreshKeysHead(ps, doc);
    ObjectTail(h, fmt, ps, doc, st);
    var c := ToWire(h, fmt, ExtractProperty(ps[0].val), st);
    FreshKeysTail(ps, doc, Binding(ps[0].key, c.result.value));
    var doc' := doc + [Binding(ps[0].key, c.result.value)];
    ObjectShape(h, fmt, ps[1..], doc', c.state);
    var r := PropsToWire(h, fmt, ps, doc, None, st).result.value;
    assert r.entries[|doc|] == r.entries[..|doc'|][|doc|];
  }

  /** The prefix of the first k properties takes the same first turn as the whole. */
  lemma PrefixTail(h: Host, fmt: Option<string>, ps: seq<Prop>, doc: seq<Entry>, st: State, k: nat)
    requires 0 < k <= |ps| && ps[0].key !in Keys(doc)
    requires HeadDate(h, ps[0]).None? && !(ps[0].key == DATE_KEY && ExtractProperty(ps[0].val) == DNull)
    requires ToWire(h, fmt, ExtractProperty(ps[0].val), st).result.Ok?
    ensures var c := ToWire(h, fmt, ExtractProperty(ps[0].val), st);
      PropsToWire(h, fmt, ps[..k], doc, None, st)
      == PropsToWire(h, fmt, ps[1..][..k - 1], doc + [Binding(ps[0].key, c.result.value)], None, c.state)
  {
    assert ps[..k][0] == ps[0];
    assert ps[..k][1..] == ps[1..][..k - 1];
    PropsUnfold(h, fmt, ps[..k], doc, st);
  }

  /** The first turn of the object loop: an ordinary entry appended. */
  lemma ObjectTail(h: Host, fmt: Option<string>, ps: seq<Prop>, doc: seq<Entry>, st: State)
    requires ps != [] && ps[0].key !in Keys(doc)
    requires PropsToWire(h, fmt, ps, doc, None, st).result.Ok?
    requires LastParsedDate(h, ps, None).None?
    ensures var c := ToWire(h, fmt, ExtractProperty(ps[0].val), st);
      && c.result.Ok?
      && PropsToWire(h, fmt, ps, doc, None, st)
         == PropsToWire(h, fmt, ps[1..], doc + [Binding(ps[0].key, c.result.value)], None, c.state)
    ensures HeadDate(h, ps[0]).None? && !(ps[0].key == DATE_KEY && ExtractProperty(ps[0].val) == DNull)
    ensures LastParsedDate(h, ps[1..], None).None?
  {
    ObjectHead(h, fmt, ps, doc, st);
    PropsUnfold(h, fmt, ps, doc, st);
  }

  /**
   * convertJStoBSON on an object with distinct keys and no "$date" that
   * parses: a document with one entry per property, in order, whose entry k
   * is property k's key with its value converted.
   */
  lemma ObjectConversion(h: Host, fmt: Option<string>, ps: seq<Prop>, st: State, k: nat)
    requires ToWire(h, fmt, DObject(ps), st).result.Ok?
    requires LastParsedDate(h, ps, None).None?
    requires Distinct(Keys(ps))
    requires k < |ps|
    ensures var r := ToWire(h, fmt, DObject(ps), st).result.value;
      var c := ToWire(h, fmt, ExtractProperty(ps[k].val), PropsToWire(h, fmt, ps[..k], [], None, st).state);
      && r.WDoc? && |r.entries| == |ps|
      && c.result.Ok? && r.entries[k] == Binding(ps[k].key, c.result.value)
  {
    ObjectElementwise(h, fmt, ps, [], st, k);
  }

  /** The shell's `{"$date": "..."}` literal, both ways it can go. */
  lemma DateShorthand(h: Host, fmt: Option<string>, s: string, st: State)
    ensures var r := ToWire(h, fmt, DObject([Binding(DATE_KEY, Plain(DString(s)))]), st);
      && (h.parseDate(s).Some? ==> r == Conv(Ok(WDate(h.parseDate(s).value)), st))
      && (h.parseDate(s).None? ==> r == Conv(Ok(WDoc([Binding(DATE_KEY, WString(s))])), st))
  {
    var ps := [Binding(DATE_KEY, Plain(DString(s)))];
    assert ps[1..] == [];
    assert ExtractProperty(ps[0].val) == DString(s);
    assert JavaToString(h, DString(s)) == s;
    assert ToWire(h, fmt, DObject(ps), st) == PropsToWire(h, fmt, ps, [], None, st);
    if h.parseDate(s).None? {
      assert ToWire(h, fmt, DString(s), st) == Conv(Ok(WString(s)), st);
      assert Put([], DATE_KEY, WString(s)) == [Binding(DATE_KEY, WString(s))];
      assert PropsToWire(h, fmt, ps, [], None, st)
          == PropsToWire(h, fmt, [], [Binding(DATE_KEY, WString(s))], None, st);
    } else {
      assert PropsToWire(h, fmt, ps, [], None, st) == PropsToWire(h, fmt, [], [], h.parseDate(s), st);
    }
  }

  /** A null "$date" value is not a parse failure: toString() on it throws. */
  lemma NullDateThrows(h: Host, fmt: Option<string>, rest: seq<Prop>, st: State)
    ensures ToWire(h, fmt, DObject([Binding(DATE_KEY, Missing)] + rest), st) == Conv(Err(NullPointer), st)
    ensures ToWire(h, fmt, DObject([Binding(DATE_KEY, Plain(DNull))] + rest), st) == Conv(Err(NullPointer), st)
  {
  }

  // ------------------------------------------------------------ scalars

  /**
   * Integer and Long widen to Double and a ConsString becomes its flattened
   * String; none touches the state.
   */
  lemma ScalarEncoding(h: Host, fmt: Option<string>, st: State, n: int, pieces: seq<string>)
    ensures ToWire(h, fmt, DInt(n), st) == Conv(Ok(WDouble(n as real)), st)
    ensures ToWire(h, fmt, DLong(n), st) == Conv(Ok(WDouble(n as real)), st)
    ensures ToWire(h, fmt, DConsString(pieces), st) == Conv(Ok(WString(Flatten(pieces))), st)
  {
  }

  /**
   * Undefined, null, booleans, doubles and strings pass through unchanged,
   * without touching the state, and decode back to themselves.
   */
  lemma PrimitiveEncoding(h: Host, fmt: Option<string>, st: State, b: bool, x: real, s: string)
    ensures forall v :: v in [DUndefined, DNull, DBool(b), DDouble(x), DString(s)] ==>
      ToWire(h, fmt, v, st).state == st && ToDyn(h, ToWire(h, fmt, v, st).result.value) == v
  {
  }

  /**
   * A scriptable object of class Date becomes a Date, or a UTC-formatted
   * string when a non-empty date format is given; any other scriptable class
   * is refused with an error naming it.
   */
  lemma ScriptableEncoding(h: Host, fmt: Option<string>, st: State, className: string, millis: int)
    ensures var r := ToWire(h, fmt, DScriptable(className, millis), st);
      && r.state == st
      && (className == "Date" && (fmt.None? || fmt.value == "") ==> r.result == Ok(WDate(millis)))
      && (className == "Date" && fmt.Some? && fmt.value != "" ==> r.result == Ok(WString(h.formatUtc(millis, fmt.value))))
      && (className != "Date" ==> r.result == Err(UnsupportedClass(UNSUPPORTED_PREFIX + className)))
  {
  }

  /** A regular expression keeps its source; its flags go through Bytes.regexFlags. */
  lemma RegExpEncoding(h: Host, fmt: Option<string>, st: State, source: string, flags: string)
    requires '/' !in flags
    ensures var r := ToWire(h, fmt, DRegExp(source, flags), st);
      && r.state == st
      && (h.regexFlagBits(flags).Some? ==> r.result == Ok(WRegex(source, h.regexFlagBits(flags).value)))
      && (h.regexFlagBits(flags).None? ==> r.result == Err(BadRegexFlags(flags)))
  {
    RegexOptionsAreFlags(source, flags);
  }

  // ------------------------------------------------------------ extended types

  /** ObjectId unwraps to its id, NumberInt to an Integer and NumberLong to a Long. */
  lemma ExtendedTypeEncoding(h: Host, fmt: Option<string>, st: State, oid: ObjectIdBytes, n: int)
    ensures ToWire(h, fmt, DObjectId(oid), st) == Conv(Ok(WObjectId(oid)), st)
    ensures ToWire(h, fmt, DNumberInt(n), st) == Conv(Ok(WInt(n)), st)
    ensures ToWire(h, fmt, DNumberLong(n), st) == Conv(Ok(WLong(n)), st)
  {
  }

  /**
   * MinKey and MaxKey become the driver's sentinels, and a mongo object with
   * no branch of its own (a DBPointer among them) becomes null.
   */
  lemma SentinelEncoding(h: Host, fmt: Option<string>, st: State, cls: string)
    ensures ToWire(h, fmt, DMinKey, st) == Conv(Ok(WMinKey), st)
    ensures ToWire(h, fmt, DMaxKey, st) == Conv(Ok(WMaxKey), st)
    ensures ToWire(h, fmt, DOtherMongo(cls), st) == Conv(Ok(WNull), st)
  {
  }

  /**
   * A bare function is the MinKey or MaxKey sentinel when its class
   * prototype says so, and otherwise becomes Code holding its decompiled
   * source.
   */
  lemma FunctionEncoding(h: Host, fmt: Option<string>, st: State, name: string, body: string)
    ensures var r := ToWire(h, fmt, DFunction(name, body), st);
      && (h.classPrototype(name) == MinKeyProto ==> r == Conv(Ok(WMinKey), st))
      && (h.classPrototype(name) == MaxKeyProto ==> r == Conv(Ok(WMaxKey), st))
      && (h.classPrototype(name) == OtherProto ==> r == Conv(Ok(WCode(h.decompile(DFunction(name, body)))), st))
  {
  }

  /** A DBRef keeps its namespace and carries its id converted, or that conversion's error. */
  lemma DBRefEncoding(h: Host, fmt: Option<string>, st: State, ns: string, id: Dyn)
    ensures var idc := ToWire(h, fmt, id, st);
      ToWire(h, fmt, DDBRef(ns, id), st) ==
        Conv(if idc.result.Ok? then Ok(WDBRef(ns, idc.result.value)) else Err(idc.result.error), idc.state)
  {
  }

  /**
   * BinData of subtype 4 becomes a UUID whose high word is bytes 0..7 and
   * whose low word is bytes 8..15, each read little-endian; fewer than 16
   * bytes throw. Any other subtype becomes Binary(subtype, data) unchanged.
   */
  lemma BinDataEncoding(h: Host, fmt: Option<string>, st: State, subtype: int, data: seq<byte>)
    ensures var r := ToWire(h, fmt, DBinData(subtype, data), st);
      && r.state == st
      && (ToByte(subtype) == UUID_SUBTYPE && |data| >= 16 ==>
            r.result.Ok? && r.result.value.WUuid?
            && r.result.value.uuid.mostSigBits == FromLittleEndian(data[..8])
            && r.result.value.uuid.leastSigBits == FromLittleEndian(data[8..16]))
      && (ToByte(subtype) == UUID_SUBTYPE && |data| < 16 ==> r.result == Err(BufferUnderflow))
      && (ToByte(subtype) != UUID_SUBTYPE ==> r.result == Ok(WBinary(ToByte(subtype), data)))
  {
    if |data| >= 16 {
      UuidFromBytesWords(data);
    }
  }

  /** A 16-byte UUID payload survives script -> BSON -> script byte for byte. */
  lemma UuidPayloadRoundTrip(h: Host, fmt: Option<string>, st: State, data: seq<byte>)
    requires |data| == 16
    ensures var r := ToWire(h, fmt, DBinData(UUID_SUBTYPE, data), st);
      r.result.Ok? && ToDyn(h, r.result.value) == DBinData(UUID_SUBTYPE, data)
  {
    BytesToUuidToBytes(data);
    UuidSubtypeEncoding(h, fmt, st, data);
    var u := UuidFromBytes(data).value;
    assert ToDyn(h, WUuid(u)) == DBinData(UUID_SUBTYPE, UuidToBytes(u));
  }

  /** BinData of subtype 4 with at least 16 bytes converts to the UUID those bytes hold. */
  lemma UuidSubtypeEncoding(h: Host, fmt: Option<string>, st: State, data: seq<byte>)
    requires |data| >= 16
    ensures ToWire(h, fmt, DBinData(UUID_SUBTYPE, data), st) == Conv(Ok(WUuid(UuidFromBytes(data).value)), st)
  {
    assert ToByte(UUID_SUBTYPE) == UUID_SUBTYPE;
  }

  /**
   * A Timestamp with a non-zero time passes through as (t, i) without
   * touching the state; with time 0 it takes the next clock reading and the
   * generator's next (second, ordinal).
   */
  lemma TimestampEncoding(h: Host, fmt: Option<string>, st: State, t: int, i: int)
    ensures var r := ToWire(h, fmt, DTimestamp(t, i), st);
      && (ToInt32(t) != 0 ==> r == Conv(Ok(WTimestamp(ToInt32(t), ToInt32(i))), st))
      && (ToInt32(t) == 0 ==>
            var (gen, stamp) := Resolve(st.gen, 0, i, h.clockMillis(st.clockReads));
            r == Conv(Ok(WTimestamp(stamp.time, stamp.inc)), State(gen, st.clockReads + 1)))
  {
  }

  // ------------------------------------------------ the whole of convertJStoBSON

  /**
   * A value none of whose parts makes convertJStoBSON throw: no scriptable
   * object other than a Date, no regular expression whose flags the driver
   * rejects, no UUID BinData shorter than 16 bytes, and no "$date" property
   * that is null or not found.
   */
  predicate Convertible(h: Host, v: Dyn)
    decreases v
  {
    match v
    case DArray(es) => forall i :: 0 <= i < |es| ==> SlotConvertible(h, es[i])
    case DObject(ps) => forall i :: 0 <= i < |ps| ==> PropConvertible(h, ps[i])
    case DRegExp(source, flags) => h.regexFlagBits(RegexOptions(source, flags)).Some?
    case DScriptable(className, _) => className == "Date"
    case DBinData(subtype, data) => ToByte(subtype) == UUID_SUBTYPE ==> |data| >= 16
    case DDBRef(_, id) => Convertible(h, id)
    case _ => true
  }

  predicate SlotConvertible(h: Host, s: Slot)
    decreases s
  {
    match s
    case Missing => true
    case Plain(x) => Convertible(h, x)
    case Wrapped(x) => Convertible(h, x)
  }

  predicate PropConvertible(h: Host, p: Prop)
    decreases p
  {
    (p.key == DATE_KEY ==> ExtractProperty(p.val) != DNull) && SlotConvertible(h, p.val)
  }

  /** What either reader takes from a convertible slot is convertible. */
  lemma SlotConvertibleRead(h: Host, s: Slot)
    requires SlotConvertible(h, s)
    ensures Convertible(h, ExtractProperty(s)) && Convertible(h, ArrayEntry(s))
  {
  }

  /**
   * convertJStoBSON throws only for the causes `Convertible` rules out,
   * whatever the state and the date format.
   */
  lemma {:induction false} ToWireSucceeds(h: Host, fmt: Option<string>, v: Dyn, st: State)
    requires Convertible(h, v)
    ensures ToWire(h, fmt, v, st).result.Ok?
    decreases DynSize(v), 1
  {
    match v
    case DArray(es) => ListToWireSucceeds(h, fmt, es, st);
    case DObject(ps) => PropsToWireSucceeds(h, fmt, ps, [], None, st);
    case DDBRef(_, id) => ToWireSucceeds(h, fmt, id, st);
    case _ => LeafToWireSucceeds(h, fmt, v, st);
  }

  /** The non-container cases: each can fail only for its own cause. */
  lemma LeafToWireSucceeds(h: Host, fmt: Option<string>, v: Dyn, st: State)
    requires !v.DArray? && !v.DObject? && !v.DDBRef?
    requires Convertible(h, v)
    ensures ToWire(h, fmt, v, st).result.Ok?
  {
  }

  lemma {:induction false} ListToWireSucceeds(h: Host, fmt: Option<string>, es: seq<Slot>, st: State)
    requires forall i :: 0 <= i < |es| ==> SlotConvertible(h, es[i])
    ensures ListToWire(h, fmt, es, st).result.Ok?
    decreases ListSize(es), 2
  {
    if es != [] {
      SlotConvertibleRead(h, es[0]);
      ToWireSucceeds(h, fmt, ArrayEntry(es[0]), st);
      var first := ToWire(h, fmt, ArrayEntry(es[0]), st);
      assert forall i :: 0 <= i < |es[1..]| ==> es[1..][i] == es[i + 1];
      ListToWireSucceeds(h, fmt, es[1..], first.state);
    }
  }

  lemma {:induction false} PropsToWireSucceeds(h: Host, fmt: Option<string>, ps: seq<Prop>, doc: seq<Entry>,
                                               date: Option<int>, st: State)
    requires forall i :: 0 <= i < |ps| ==> PropConvertible(h, ps[i])
    ensures PropsToWire(h, fmt, ps, doc, date, st).result.Ok?
    decreases PropsSize(ps), 2
  {
    if ps != [] {
      var value := ExtractProperty(ps[0].val);
      assert DynSize(value) <= SlotSize(ps[0].val) <= PropsSize(ps);
      assert PropConvertible(h, ps[0]);
      SlotConvertibleRead(h, ps[0].val);
      assert forall i :: 0 <= i < |ps[1..]| ==> ps[1..][i] == ps[i + 1];
      var parsed := if ps[0].key == DATE_KEY && value != DNull
                    then h.parseDate(JavaToString(h, value)) else None;
      if parsed.Some? {
        PropsToWireSucceeds(h, fmt, ps[1..], doc, parsed, st);
      } else {
        ToWireSucceeds(h, fmt, value, st);
        var c := ToWire(h, fmt, value, st);
        PropsToWireSucceeds(h, fmt, ps[1..], Put(doc, ps[0].key, c.result.value), date, c.state);
      }
    }
  }

  /** The properties with every slot replaced by what extractJSProperty reads from it. */
  function Extracted(ps: seq<Prop>): (r: seq<Prop>)
    ensures |r| == |ps|
  {
    seq(|ps|, i requires 0 <= i < |ps| => Binding(ps[i].key, Plain(ExtractProperty(ps[i].val))))
  }

  /**
   * The object loop sees a property only through extractJSProperty: a
   * missing property converts exactly as a null one, and a Java wrapper
   * exactly as the object it wraps, outcome and state alike.
   */
  lemma {:induction false} ExtractedProps(h: Host, fmt: Option<string>, ps: seq<Prop>, doc: seq<Entry>,
                                          date: Option<int>, st: State)
    ensures PropsToWire(h, fmt, ps, doc, date, st) == PropsToWire(h, fmt, Extracted(ps), doc, date, st)
    decreases |ps|
  {
    if ps != [] {
      var xs := Extracted(ps);
      assert xs[0] == Binding(ps[0].key, Plain(ExtractProperty(ps[0].val)));
      assert xs[1..] == Extracted(ps[1..]);
      var value := ExtractProperty(ps[0].val);
      var parsed := if ps[0].key == DATE_KEY && value != DNull
                    then h.parseDate(JavaToString(h, value)) else None;
      if ps[0].key == DATE_KEY && value == DNull {
      } else if parsed.Some? {
        ExtractedProps(h, fmt, ps[1..], doc, parsed, st);
      } else {
        var c := ToWire(h, fmt, value, st);
        if c.result.Ok? {
          ExtractedProps(h, fmt, ps[1..], Put(doc, ps[0].key, c.result.value), date, c.state);
        }
      }
    }
  }

  /** A value holding no Timestamp whose time casts to 0, the one kind that reads the clock. */
  predicate NoZeroTimestamp(v: Dyn)
    decreases v
  {
    match v
    case DArray(es) => forall i :: 0 <= i < |es| ==> SlotNoZeroTimestamp(es[i])
    case DObject(ps) => forall i :: 0 <= i < |ps| ==> SlotNoZeroTimestamp(ps[i].val)
    case DDBRef(_, id) => NoZeroTimestamp(id)
    case DTimestamp(t, _) => ToInt32(t) != 0
    case _ => true
  }

  predicate SlotNoZeroTimestamp(s: Slot)
    decreases s
  {
    match s
    case Missing => true
    case Plain(x) => NoZeroTimestamp(x)
    case Wrapped(x) => NoZeroTimestamp(x)
  }

  /**
   * The static timestamp fields and the clock are touched only by a zero-time
   * Timestamp: converting any value without one, successfully or not, leaves
   * the converter state as it was.
   */
  lemma {:induction false} ToWireKeepsState(h: Host, fmt: Option<string>, v: Dyn, st: State)
    requires NoZeroTimestamp(v)
    ensures ToWire(h, fmt, v, st).state == st
    decreases DynSize(v), 1
  {
    match v
    case DArray(es) => ListToWireKeepsState(h, fmt, es, st);
    case DObject(ps) => PropsToWireKeepsState(h, fmt, ps, [], None, st);
    case DDBRef(_, id) => ToWireKeepsState(h, fmt, id, st);
    case _ =>
  }

  lemma {:induction false} ListToWireKeepsState(h: Host, fmt: Option<string>, es: seq<Slot>, st: State)
    requires forall i :: 0 <= i < |es| ==> SlotNoZeroTimestamp(es[i])
    ensures ListToWire(h, fmt, es, st).state == st
    decreases ListSize(es), 2
  {
    if es != [] {
      assert SlotNoZeroTimestamp(es[0]);
      assert NoZeroTimestamp(ArrayEntry(es[0]));
      ToWireKeepsState(h, fmt, ArrayEntry(es[0]), st);
      assert forall i :: 0 <= i < |es[1..]| ==> es[1..][i] == es[i + 1];
      ListToWireKeepsState(h, fmt, es[1..], st);
    }
  }

  lemma {:induction false} PropsToWireKeepsState(h: Host, fmt: Option<string>, ps: seq<Prop>, doc: seq<Entry>,
                                                 date: Option<int>, st: State)
    requires forall i :: 0 <= i < |ps| ==> SlotNoZeroTimestamp(ps[i].val)
    ensures PropsToWire(h, fmt, ps, doc, date, st).state == st
    decreases PropsSize(ps), 2
  {
    if ps != [] {
      var value := ExtractProperty(ps[0].val);
      assert DynSize(value) <= SlotSize(ps[0].val) <= PropsSize(ps);
      assert SlotNoZeroTimestamp(ps[0].val);
      assert forall i :: 0 <= i < |ps[1..]| ==> ps[1..][i] == ps[i + 1];
      var parsed := if ps[0].key == DATE_KEY && value != DNull
                    then h.parseDate(JavaToString(h, value)) else None;
      if parsed.Some? {
        PropsToWireKeepsState(h, fmt, ps[1..], doc, parsed, st);
      } else {
        ToWireKeepsState(h, fmt, value, st);
        var c := ToWire(h, fmt, value, st);
        if c.result.Ok? {
          PropsToWireKeepsState(h, fmt, ps[1..], Put(doc, ps[0].key, c.result.value), date, st);
        }
      }
    }
  }

  // ------------------------------------------------------------ BSON to script

  function DecodedProps(h: Host, es: seq<Entry>): (ps: seq<Prop>)
    ensures |ps| == |es|
  {
    seq(|es|, i requires 0 <= i < |es| => Binding(es[i].key, Plain(ToDyn(h, es[i].val))))
  }

  /** Properties keys[i] = vals[i], in order. */
  function PlainProps(keys: seq<string>, vals: seq<Dyn>): (ps: seq<Prop>)
    requires |keys| == |vals|
    ensures |ps| == |keys|
  {
    if keys == [] then [] else [Binding(keys[0], Plain(vals[0]))] + PlainProps(keys[1..], vals[1..])
  }

  lemma {:induction false} PlainPropsAt(keys: seq<string>, vals: seq<Dyn>, i: nat)
    requires |keys| == |vals| && i < |keys|
    ensures PlainProps(keys, vals)[i] == Binding(keys[i], Plain(vals[i]))
    decreases i
  {
    if i > 0 {
      PlainPropsAt(keys[1..], vals[1..], i - 1);
    }
  }

  /** In a duplicate-free key list xs + ys, the first key of ys is not in xs. */
  lemma DistinctHead(xs: seq<string>, ys: seq<string>)
    requires ys != [] && Distinct(xs + ys)
    ensures ys[0] !in xs
  {
    assert (xs + ys)[|xs|] == ys[0];
    forall i | 0 <= i < |xs|
      ensures xs[i] != ys[0]
    {
      assert (xs + ys)[i] == xs[i];
    }
  }

  /** Assigning keys no property holds yet appends them, in order. */
  lemma {:induction false} AssignAllFresh(props: seq<Prop>, keys: seq<string>, vals: seq<Dyn>)
    requires |keys| == |vals|
    requires Distinct(Keys(props) + keys)
    ensures AssignAll(props, keys, vals) == props + PlainProps(keys, vals)
    decreases |keys|
  {
    if keys != [] {
      var k := keys[0];
      var p := Binding(k, Plain(vals[0]));
      DistinctHead(Keys(props), keys);
      var props' := Put(props, k, Plain(vals[0]));
      AppendHead(Keys(props), keys);
      AssignAllFresh(props', keys[1..], vals[1..]);
      AppendAssoc(props, [p], PlainProps(keys[1..], vals[1..]));
    }
  }

  lemma AppendHead<T>(xs: seq<T>, ys: seq<T>)
    requires ys != []
    ensures (xs + [ys[0]]) + ys[1..] == xs + ys
  {
    assert ys == [ys[0]] + ys[1..];
  }

  /**
   * A document decodes to an object built key by key in document order:
   * property i has key i and the decoding of value i.
   */
  lemma DocumentDecoding(h: Host, es: seq<Entry>)
    requires DistinctKeys(es)
    ensures ToDyn(h, WDoc(es)) == DObject(DecodedProps(h, es))
    ensures Keys(DecodedProps(h, es)) == Keys(es)
  {
    var vals := seq(|es|, i requires 0 <= i < |es| => ToDyn(h, es[i].val));
    DistinctKeyList(es);
    AssignAllFresh([], Keys(es), vals);
    PlainPropsOfDecoded(h, es);
    DecodedKeys(h, es);
  }

  /** Pairing the keys with the decoded values gives the decoded properties. */
  lemma PlainPropsOfDecoded(h: Host, es: seq<Entry>)
    ensures PlainProps(Keys(es), seq(|es|, i requires 0 <= i < |es| => ToDyn(h, es[i].val))) == DecodedProps(h, es)
  {
    var vals := seq(|es|, i requires 0 <= i < |es| => ToDyn(h, es[i].val));
    forall i | 0 <= i < |es|
      ensures PlainProps(Keys(es), vals)[i] == DecodedProps(h, es)[i]
    {
      PlainPropsAt(Keys(es), vals, i);
    }
  }

  /** A document with distinct keys has a duplicate-free key list. */
  lemma DistinctKeyList(es: seq<Entry>)
    requires DistinctKeys(es)
    ensures Distinct(Keys<Slot>([]) + Keys(es))
  {
    assert Keys<Slot>([]) + Keys(es) == Keys(es);
  }

  /** Decoding keeps the keys, in order. */
  lemma DecodedKeys(h: Host, es: seq<Entry>)
    ensures Keys(DecodedProps(h, es)) == Keys(es)
  {
  }

  /**
   * The numeric decoding rules: Integer becomes a plain number, Long a
   * NumberLong and a timestamp a Timestamp with the same fields.
   */
  lemma DecodingRules(h: Host, n: int, t: int, i: int)
    ensures ToDyn(h, WInt(n)) == DDouble(n as real)
    ensures ToDyn(h, WLong(n)) == DNumberLong(n)
    ensures ToDyn(h, WTimestamp(t, i)) == DTimestamp(t, i)
  {
  }

  /** Code and Symbol decode to strings, and byte[] to BinData of subtype 0. */
  lemma TextDecodingRules(h: Host, s: string, data: seq<byte>)
    ensures ToDyn(h, WCode(s)) == DString(s)
    ensures ToDyn(h, WSymbol(s)) == DString(s)
    ensures ToDyn(h, WBytes(data)) == DBinData(0, data)
  {
  }

  /** A list decodes to an array of the same length, element by element. */
  lemma ListDecoding(h: Host, ws: seq<Wire>)
    ensures var d := ToDyn(h, WList(ws));
      d.DArray? && |d.elems| == |ws| && forall k :: 0 <= k < |ws| ==> d.elems[k] == Plain(ToDyn(h, ws[k]))
  {
  }

  // ------------------------------------------------------------ round trip

  predicate NoDateFormat(fmt: Option<string>)
  {
    fmt.None? || fmt.value == ""
  }

  /**
   * The BSON values that come back unchanged from a decode and re-encode:
   * everything except Integer, Code, Symbol and raw byte[] (decoded into other
   * shapes), Binary of subtype 4 (re-encoded as a UUID), timestamps with time
   * 0 (re-resolved), documents with a "$date" key (re-read as a date),
   * undefined inside a list (read back as null by the array view) and
   * regular expressions whose flags Bytes.regexFlags does not read back.
   */
  predicate Canonical(h: Host, w: Wire)
  {
    match w
    case WInt(_) => false
    case WCode(_) => false
    case WSymbol(_) => false
    case WBytes(_) => false
    case WBinary(t, _) => -128 <= t < 128 && t != UUID_SUBTYPE
    case WTimestamp(t, i) => IsInt32(t) && t != 0 && IsInt32(i)
    case WRegex(_, bits) =>
      '/' !in h.regexFlagChars(bits) && h.regexFlagBits(h.regexFlagChars(bits)) == Some(bits)
    case WList(ws) => forall k :: 0 <= k < |ws| ==> ws[k] != WUndefined && Canonical(h, ws[k])
    case WDoc(es) =>
      DistinctKeys(es) && DATE_KEY !in Keys(es) && forall k :: 0 <= k < |es| ==> Canonical(h, es[k].val)
    case WDBRef(_, id) => Canonical(h, id)
    case _ => true
  }

  /** Decoding then encoding gives back every canonical BSON value, and leaves the state alone. */
  lemma {:induction false} EncodeAfterDecode(h: Host, fmt: Option<string>, w: Wire, st: State)
    requires NoDateFormat(fmt) && Canonical(h, w)
    ensures ToWire(h, fmt, ToDyn(h, w), st) == Conv(Ok(w), st)
    decreases w, 1
  {
    match w
    case WList(ws) =>
      ListEncodeAfterDecode(h, fmt, ws, st);
    case WDoc(es) =>
      DocRoundTrip(h, fmt, es, st);
    case WDBRef(ns, id) =>
      EncodeAfterDecode(h, fmt, id, st);
    case WRegex(source, bits) =>
      RegexOptionsAreFlags(source, h.regexFlagChars(bits));
    case _ =>
      LeafEncodeAfterDecode(h, fmt, w, st);
  }

  lemma {:induction false} DocRoundTrip(h: Host, fmt: Option<string>, es: seq<Entry>, st: State)
    requires NoDateFormat(fmt) && Canonical(h, WDoc(es))
    ensures ToWire(h, fmt, ToDyn(h, WDoc(es)), st) == Conv(Ok(WDoc(es)), st)
    decreases WDoc(es), 0
  {
    DocumentDecoding(h, es);
    assert ToWire(h, fmt, DObject(DecodedProps(h, es)), st) == PropsToWire(h, fmt, DecodedProps(h, es), [], None, st);
    assert [] + es == es;
    DocEncodeAfterDecode(h, fmt, es, [], st);
  }

  /** The round trip for the values that hold no other value. */
  lemma LeafEncodeAfterDecode(h: Host, fmt: Option<string>, w: Wire, st: State)
    requires NoDateFormat(fmt) && Canonical(h, w)
    requires !w.WList? && !w.WDoc? && !w.WDBRef? && !w.WRegex?
    ensures ToWire(h, fmt, ToDyn(h, w), st) == Conv(Ok(w), st)
  {
    match w
    case WUuid(u) => UuidEncodeAfterDecode(h, fmt, u, st);
    case WTimestamp(t, i) => TimestampEncodeAfterDecode(h, fmt, t, i, st);
    case WBinary(t, data) => BinaryEncodeAfterDecode(h, fmt, t, data, st);
    case WNull => PlainEncodeAfterDecode(h, fmt, false, st);
    case WUndefined => PlainEncodeAfterDecode(h, fmt, false, st);
    case WBool(b) => PlainEncodeAfterDecode(h, fmt, b, st);
    case WDouble(x) => ValueEncodeAfterDecode(h, fmt, x, "", 0, st);
    case WString(str) => ValueEncodeAfterDecode(h, fmt, 0.0, str, 0, st);
    case WDate(ms) => ValueEncodeAfterDecode(h, fmt, 0.0, "", ms, st);
    case WObjectId(oid) => MongoEncodeAfterDecode(h, fmt, oid, 0, st);
    case WMinKey => SentinelEncodeAfterDecode(h, fmt, st);
    case WMaxKey => SentinelEncodeAfterDecode(h, fmt, st);
    case WLong(n) => MongoEncodeAfterDecode(h, fmt, [0, 0, 0, 0, 0, 0, 0, 0, 0, 0, 0, 0], n, st);
  }

  /** A UUID decodes to 16 bytes of BinData subtype 4 that encode back to the same UUID. */
  lemma UuidEncodeAfterDecode(h: Host, fmt: Option<string>, u: Uuid, st: State)
    ensures ToWire(h, fmt, ToDyn(h, WUuid(u)), st) == Conv(Ok(WUuid(u)), st)
  {
    var bytes := UuidToBytes(u);
    assert ToDyn(h, WUuid(u)) == DBinData(UUID_SUBTYPE, bytes);
    UuidToBytesToUuid(u);
    UuidSubtypeEncoding(h, fmt, st, bytes);
  }

  lemma TimestampEncodeAfterDecode(h: Host, fmt: Option<string>, t: int, i: int, st: State)
    requires IsInt32(t) && t != 0 && IsInt32(i)
    ensures ToWire(h, fmt, ToDyn(h, WTimestamp(t, i)), st) == Conv(Ok(WTimestamp(t, i)), st)
  {
  }

  lemma BinaryEncodeAfterDecode(h: Host, fmt: Option<string>, t: int, data: seq<byte>, st: State)
    requires -128 <= t < 128 && t != UUID_SUBTYPE
    ensures ToWire(h, fmt, ToDyn(h, WBinary(t, data)), st) == Conv(Ok(WBinary(t, data)), st)
  {
  }

  lemma PlainEncodeAfterDecode(h: Host, fmt: Option<string>, b: bool, st: State)
    ensures ToWire(h, fmt, ToDyn(h, WNull), st) == Conv(Ok(WNull), st)
    ensures ToWire(h, fmt, ToDyn(h, WUndefined), st) == Conv(Ok(WUndefined), st)
    ensures ToWire(h, fmt, ToDyn(h, WBool(b)), st) == Conv(Ok(WBool(b)), st)
  {
  }

  lemma ValueEncodeAfterDecode(h: Host, fmt: Option<string>, x: real, str: string, ms: int, st: State)
    requires NoDateFormat(fmt)
    ensures ToWire(h, fmt, ToDyn(h, WDouble(x)), st) == Conv(Ok(WDouble(x)), st)
    ensures ToWire(h, fmt, ToDyn(h, WString(str)), st) == Conv(Ok(WString(str)), st)
    ensures ToWire(h, fmt, ToDyn(h, WDate(ms)), st) == Conv(Ok(WDate(ms)), st)
  {
  }

  lemma MongoEncodeAfterDecode(h: Host, fmt: Option<string>, oid: ObjectIdBytes, n: int, st: State)
    ensures ToWire(h, fmt, ToDyn(h, WObjectId(oid)), st) == Conv(Ok(WObjectId(oid)), st)
    ensures ToWire(h, fmt, ToDyn(h, WLong(n)), st) == Conv(Ok(WLong(n)), st)
  {
  }

  lemma SentinelEncodeAfterDecode(h: Host, fmt: Option<string>, st: State)
    ensures ToWire(h, fmt, ToDyn(h, WMinKey), st) == Conv(Ok(WMinKey), st)
    ensures ToWire(h, fmt, ToDyn(h, WMaxKey), st) == Conv(Ok(WMaxKey), st)
  {
  }

  lemma {:induction false} ListEncodeAfterDecode(h: Host, fmt: Option<string>, ws: seq<Wire>, st: State)
    requires NoDateFormat(fmt)
    requires forall k :: 0 <= k < |ws| ==> ws[k] != WUndefined && Canonical(h, ws[k])
    ensures ListToWire(h, fmt, seq(|ws|, i requires 0 <= i < |ws| => Plain(ToDyn(h, ws[i]))), st) == Conv(Ok(ws), st)
    decreases ws, 0
  {
    var ds := seq(|ws|, i requires 0 <= i < |ws| => Plain(ToDyn(h, ws[i])));
    if ws != [] {
      EncodeAfterDecode(h, fmt, ws[0], st);
      assert ArrayEntry(ds[0]) == ToDyn(h, ws[0]);
      assert ds[1..] == seq(|ws[1..]|, i requires 0 <= i < |ws[1..]| => Plain(ToDyn(h, ws[1..][i])));
      ListEncodeAfterDecode(h, fmt, ws[1..], st);
      assert [ws[0]] + ws[1..] == ws;
    }
  }

  /** With distinct keys, the first entry of es has a key that done does not hold. */
  lemma FreshKey(es: seq<Entry>, done: seq<Entry>)
    requires es != [] && DistinctKeys(done + es)
    ensures es[0].key !in Keys(done)
  {
    forall i | 0 <= i < |done|
      ensures done[i].key != es[0].key
    {
      assert (done + es)[i] == done[i];
      assert (done + es)[|done|] == es[0];
    }
  }

  /** A "$date"-free key list stays "$date"-free without its first key. */
  lemma NoDateKeyInTail(es: seq<Entry>)
    requires es != [] && DATE_KEY !in Keys(es)
    ensures es[0].key != DATE_KEY && DATE_KEY !in Keys(es[1..])
  {
    assert Keys(es)[0] == es[0].key;
    forall i | 0 <= i < |es[1..]|
      ensures es[1..][i].key != DATE_KEY
    {
      assert Keys(es)[i + 1] == es[i + 1].key;
    }
  }

  /** One turn of the object loop on a plain, non-"$date" property that converts without touching the state. */
  lemma PropsStep(h: Host, fmt: Option<string>, ps: seq<Prop>, done: seq<Entry>, st: State, w: Wire)
    requires ps != [] && ps[0].key != DATE_KEY && ps[0].val.Plain?
    requires ToWire(h, fmt, ps[0].val.value, st) == Conv(Ok(w), st)
    ensures PropsToWire(h, fmt, ps, done, None, st) == PropsToWire(h, fmt, ps[1..], Put(done, ps[0].key, w), None, st)
  {
  }

  /** One turn of the object loop over decoded entries whose first value encodes back to itself. */
  lemma DecodedPropsStep(h: Host, fmt: Option<string>, es: seq<Entry>, done: seq<Entry>, st: State)
    requires es != [] && DistinctKeys(done + es) && DATE_KEY !in Keys(es)
    requires ToWire(h, fmt, ToDyn(h, es[0].val), st) == Conv(Ok(es[0].val), st)
    ensures PropsToWire(h, fmt, DecodedProps(h, es), done, None, st)
      == PropsToWire(h, fmt, DecodedProps(h, es[1..]), done + [es[0]], None, st)
    ensures (done + [es[0]]) + es[1..] == done + es
    ensures DistinctKeys((done + [es[0]]) + es[1..]) && DATE_KEY !in Keys(es[1..])
  {
    var ps := DecodedProps(h, es);
    var e := es[0];
    FreshKey(es, done);
    NoDateKeyInTail(es);
    AppendHead(done, es);
    assert ps[0] == Binding(e.key, Plain(ToDyn(h, e.val)));
    assert ps[1..] == DecodedProps(h, es[1..]);
    PropsStep(h, fmt, ps, done, st, e.val);
    assert Put(done, e.key, e.val) == done + [e];
  }

  lemma {:induction false} DocEncodeAfterDecode(h: Host, fmt: Option<string>, es: seq<Entry>, done: seq<Entry>, st: State)
    requires NoDateFormat(fmt)
    requires DistinctKeys(done + es) && DATE_KEY !in Keys(es)
    requires forall k :: 0 <= k < |es| ==> Canonical(h, es[k].val)
    ensures PropsToWire(h, fmt, DecodedProps(h, es), done, None, st) == Conv(Ok(WDoc(done + es)), st)
    decreases es, 0
  {
    if es != [] {
      EncodeAfterDecode(h, fmt, es[0].val, st);
      DecodedPropsStep(h, fmt, es, done, st);
      assert forall k :: 0 <= k < |es[1..]| ==> es[1..][k] == es[k + 1];
      DocEncodeAfterDecode(h, fmt, es[1..], done + [es[0]], st);
    } else {
      assert done + es == done;
    }
  }

  /**
   * The lossy cases, as designed: an Integer comes back a Double, and Code
   * and Symbol come back Strings.
   */
  lemma EncodeAfterDecodeLossy(h: Host, fmt: Option<string>, st: State, n: int, s: string)
    ensures ToWire(h, fmt, ToDyn(h, WInt(n)), st) == Conv(Ok(WDouble(n as real)), st)
    ensures ToWire(h, fmt, ToDyn(h, WCode(s)), st) == Conv(Ok(WString(s)), st)
    ensures ToWire(h, fmt, ToDyn(h, WSymbol(s)), st) == Conv(Ok(WString(s)), st)
  {
  }

  /**
   * Undefined inside a list is lossy too: the array view reads it as null,
   * so a list holding undefined comes back holding null.
   */
  lemma ArrayUndefinedLossy(h: Host, fmt: Option<string>, st: State)
    ensures ToWire(h, fmt, ToDyn(h, WList([WUndefined])), st) == Conv(Ok(WList([WNull])), st)
  {
    var es := [Plain(DUndefined)];
    assert ToDyn(h, WList([WUndefined])) == DArray(es);
    assert ArrayEntry(es[0]) == DNull;
    assert ToWire(h, fmt, DNull, st) == Conv(Ok(WNull), st);
    assert es[1..] == [];
    assert ListToWire(h, fmt, es[1..], st) == Conv(Ok([]), st);
    assert [WNull] + [] == [WNull];
    assert ListToWire(h, fmt, es, st) == Conv(Ok([WNull]), st);
  }

  /**
   * The lossy binary cases: a raw byte[] comes back Binary of subtype 0, and
   * a Binary of subtype 4 with at least 16 bytes comes back as a UUID.
   */
  lemma BinaryEncodeAfterDecodeLossy(h: Host, fmt: Option<string>, st: State, data: seq<byte>)
    ensures ToWire(h, fmt, ToDyn(h, WBytes(data)), st) == Conv(Ok(WBinary(0, data)), st)
    ensures var r := ToWire(h, fmt, ToDyn(h, WBinary(UUID_SUBTYPE, data)), st).result;
      |data| >= 16 ==> r.Ok? && r.value.WUuid?
  {
  }
}
