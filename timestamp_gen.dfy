/**
 * BSONizer.convertTimestampToBSONTimestamp and the two static fields it
 * keeps (lastSecFromEpoch, timestampIncrementer): a Timestamp whose time is
 * 0 is given the current second and an ordinal that restarts at 1 whenever
 * the second changes and otherwise counts up.
 */
module TimestampGen {
  import opened JavaLang

  /** The generator's state: the two static fields, in that order. */
  datatype Gen = Gen(lastSecFromEpoch: int, timestampIncrementer: int)

  /** The fields' initial values: 0 (Java default) and 1 (its initialiser). */
  const INITIAL: Gen := Gen(0, 1)

  /** org.bson.types.BSONTimestamp(time, inc). */
  datatype Stamp = Stamp(time: int, inc: int)

  /** `(int) (millis / 1000)`: the wall clock's second, truncated to an int. */
  function Second(nowMillis: int): int
  {
    ToInt32(JavaDiv(nowMillis, 1000))
  }

  /**
   * One call on Timestamp(t, i) when the wall clock reads nowMillis: the new
   * state and the BSONTimestamp returned. The clock is read only when the
   * time is 0.
   */
  function Resolve(g: Gen, t: int, i: int, nowMillis: int): (r: (Gen, Stamp))
    ensures ToInt32(t) != 0 ==> r.0 == g
    ensures ToInt32(t) == 0 ==> r.1 == Stamp(r.0.lastSecFromEpoch, r.0.timestampIncrementer)
  {
    var sec := ToInt32(t);
    if sec != 0 then (g, Stamp(sec, ToInt32(i)))
    else
      var now := Second(nowMillis);
      var g' := if now != g.lastSecFromEpoch then Gen(now, 1)
                else Gen(g.lastSecFromEpoch, ToInt32(g.timestampIncrementer + 1));
      (g', Stamp(g'.lastSecFromEpoch, g'.timestampIncrementer))
  }

  /** Lexicographic order on (time, inc): the order in which stamps are handed out. */
  predicate Before(a: Stamp, b: Stamp)
  {
    a.time < b.time || (a.time == b.time && a.inc < b.inc)
  }

  function LastIssued(g: Gen): Stamp
  {
    Stamp(g.lastSecFromEpoch, g.timestampIncrementer)
  }

  /** The running ordinal stays positive and below the int limit. */
  predicate NoWrap(g: Gen, calls: nat)
  {
    1 <= g.timestampIncrementer && g.timestampIncrementer + calls <= INT_MAX
  }

  /**
   * An explicit time passes through with its ordinal, both cast to int, and
   * the state is untouched.
   */
  lemma ResolveExplicit(g: Gen, t: int, i: int, nowMillis: int)
    requires IsInt32(t) && t != 0 && IsInt32(i)
    ensures Resolve(g, t, i, nowMillis) == (g, Stamp(t, i))
  {
  }

  /**
   * A zero time in a new second restarts the ordinal at 1; in the same
   * second it gives the previous ordinal plus one; either way the result
   * comes strictly after the previous stamp when the clock has not gone back.
   */
  lemma ResolveZero(g: Gen, i: int, nowMillis: int)
    requires NoWrap(g, 1)
    ensures var r := Resolve(g, 0, i, nowMillis);
      && (Second(nowMillis) != g.lastSecFromEpoch ==> r.1 == Stamp(Second(nowMillis), 1))
      && (Second(nowMillis) == g.lastSecFromEpoch ==> r.1 == Stamp(g.lastSecFromEpoch, g.timestampIncrementer + 1))
      && (Second(nowMillis) >= g.lastSecFromEpoch ==> Before(LastIssued(g), r.1))
      && r.0 == Gen(r.1.time, r.1.inc)
  {
  }

  /** The stamps handed out for a run of zero-time requests at the given clock readings. */
  function ZeroRun(g: Gen, clock: seq<int>): (r: (Gen, seq<Stamp>))
    ensures |r.1| == |clock|
    decreases |clock|
  {
    if clock == [] then (g, [])
    else
      var (g1, s) := Resolve(g, 0, 0, clock[0]);
      var (g2, rest) := ZeroRun(g1, clock[1..]);
      (g2, [s] + rest)
  }

  /** The clock's seconds never go back, starting from the generator's last second. */
  predicate ClockForward(g: Gen, clock: seq<int>)
  {
    (forall k :: 0 <= k < |clock| ==> g.lastSecFromEpoch <= Second(clock[k]))
    && (forall j, k :: 0 <= j < k < |clock| ==> Second(clock[j]) <= Second(clock[k]))
  }

  lemma {:induction false} ZeroRunAfter(g: Gen, clock: seq<int>)
    requires ClockForward(g, clock) && NoWrap(g, |clock|)
    ensures forall k :: 0 <= k < |clock| ==> Before(LastIssued(g), ZeroRun(g, clock).1[k])
    decreases |clock|
  {
    if clock != [] {
      var (g1, s) := Resolve(g, 0, 0, clock[0]);
      ResolveZero(g, 0, clock[0]);
      assert LastIssued(g1) == s;
      assert ClockForward(g1, clock[1..]);
      ZeroRunAfter(g1, clock[1..]);
    }
  }

  /**
   * While the clock does not go back and the ordinal does not wrap, the
   * stamps of successive zero-time requests strictly increase, so no
   * (second, ordinal) pair is handed out twice.
   */
  lemma {:induction false} ZeroRunIncreasing(g: Gen, clock: seq<int>)
    requires ClockForward(g, clock) && NoWrap(g, |clock|)
    ensures forall j, k :: 0 <= j < k < |clock| ==> Before(ZeroRun(g, clock).1[j], ZeroRun(g, clock).1[k])
    decreases |clock|
  {
    if clock != [] {
      var (g1, s) := Resolve(g, 0, 0, clock[0]);
      ResolveZero(g, 0, clock[0]);
      assert ClockForward(g1, clock[1..]);
      ZeroRunAfter(g1, clock[1..]);
      ZeroRunIncreasing(g1, clock[1..]);
      var stamps := ZeroRun(g, clock).1;
      var rest := ZeroRun(g1, clock[1..]).1;
      assert stamps == [s] + rest;
      assert LastIssued(g1) == s;
      assert forall j', k' :: 0 <= j' < k' < |rest| ==> Before(rest[j'], rest[k']);
      forall j, k | 0 <= j < k < |stamps| ensures Before(stamps[j], stamps[k]) {
        if j == 0 {
          assert stamps[k] == rest[k - 1];
          assert Before(LastIssued(g1), rest[k - 1]);
        } else {
          assert stamps[j] == rest[j - 1] && stamps[k] == rest[k - 1];
          assert Before(rest[j - 1], rest[k - 1]);
        }
      }
    }
  }

  /** Distinctness, the promise callers rely on. */
  lemma ZeroRunDistinct(g: Gen, clock: seq<int>)
    requires ClockForward(g, clock) && NoWrap(g, |clock|)
    ensures var stamps := ZeroRun(g, clock).1;
      forall j, k :: 0 <= j < k < |stamps| ==> stamps[j] != stamps[k]
  {
    ZeroRunIncreasing(g, clock);
  }

  /**
   * Why ZeroRunDistinct needs a clock that does not go back: seconds 5, 4, 5
   * restart the ordinal twice, and the first stamp is handed out again.
   */
  lemma ClockBackRepeats()
    ensures var stamps := ZeroRun(INITIAL, [5000, 4000, 5000]).1;
      stamps[0] == stamps[2] == Stamp(5, 1)
  {
  }

  /**
   * Why it needs NoWrap: in the same second, the ordinal after INT_MAX is
   * INT_MIN, a stamp that does not come after the last one.
   */
  lemma OrdinalWraps()
    ensures var g := Gen(5, INT_MAX);
      var s := ZeroRun(g, [5000]).1[0];
      s == Stamp(5, INT_MIN) && !Before(LastIssued(g), s)
  {
  }

  /** The generator as the process-wide object it is in the source. */
  class TimestampGenerator {
    var lastSecFromEpoch: int
    var timestampIncrementer: int

    function State(): Gen
      reads this
    {
      Gen(lastSecFromEpoch, timestampIncrementer)
    }

    constructor ()
      ensures State() == INITIAL
    {
      lastSecFromEpoch := 0;
      timestampIncrementer := 1;
    }

    /** convertTimestampToBSONTimestamp, with the wall clock's reading passed in. */
    method ConvertTimestamp(t: int, i: int, nowMillis: int) returns (s: Stamp)
      modifies this
      ensures (State(), s) == Resolve(old(State()), t, i, nowMillis)
    {
      var newTimeInSec := ToInt32(t);
      if newTimeInSec == 0 {
        newTimeInSec := Second(nowMillis);
        if newTimeInSec != lastSecFromEpoch {
          lastSecFromEpoch := newTimeInSec;
          timestampIncrementer := 1;
        } else {
          timestampIncrementer := ToInt32(timestampIncrementer + 1);
        }
        s := Stamp(lastSecFromEpoch, timestampIncrementer);
      } else {
        s := Stamp(newTimeInSec, ToInt32(i));
      }
    }
  }
}
