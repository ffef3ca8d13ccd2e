/**
 * The cursor object the shell's find() hands back: either a wrapper round a
 * driver cursor, or, for commands answered without one, a cursor that yields
 * a single synthetic result.
 *
 * The driver cursor is modelled by the results it has still to deliver;
 * `None` is a cursor that was never set (Java null). A result is handed
 * back through the one-argument convertBSONtoJS of
 * org.github.nlloyd.hornofmongo.util.BSONizer, which is not part of this
 * model: it is the parameter `decode` of the operations that call it.
 */
module InternalCursors {
  import opened Wrappers
  import opened BsonValues

  /** What a cursor call can throw. */
  datatype CursorError =
    | NullCursor      // objsLeftInBatch() with no driver cursor (a NullPointerException)
    | NoSuchElement   // next() on an exhausted driver cursor

  /** The fake findOne result: a fresh script object with ok = true. */
  const FAUX_OK: Dyn := DObject([Binding("ok", Plain(DBool(true)))])

  datatype CursorState = CursorState(cursor: Option<seq<Wire>>, fauxResult: Dyn, fauxReturned: bool)

  function HasNextOf(st: CursorState): bool
  {
    if st.cursor.None? then !st.fauxReturned else st.cursor.value != []
  }

  /** The state after next() and what it returns. */
  function NextOf(decode: Wire -> Dyn, st: CursorState): (CursorState, Result<Dyn, CursorError>)
  {
    match st.cursor
    case None =>
      if !st.fauxReturned then (st.(fauxReturned := true), Ok(st.fauxResult)) else (st, Ok(DNull))
    case Some(rest) =>
      if rest == [] then (st, Err(NoSuchElement))
      else (st.(cursor := Some(rest[1..])), Ok(decode(rest[0])))
  }

  function ObjsLeftOf(st: CursorState): Result<int, CursorError>
  {
    match st.cursor
    case None => Err(NullCursor)
    case Some(rest) => Ok(if rest != [] then 1 else 0)
  }

  /** k rounds of a script's `while (c.hasNext()) c.next()`: each hasNext() answer and the next() that follows it. */
  function Trace(decode: Wire -> Dyn, st: CursorState, k: nat): seq<(bool, Result<Dyn, CursorError>)>
    decreases k
  {
    if k == 0 then []
    else
      var (st', r) := NextOf(decode, st);
      [(HasNextOf(st), r)] + Trace(decode, st', k - 1)
  }

  /** Once the fake result has gone, hasNext() stays false and next() gives null. */
  lemma {:induction false} FauxExhausted(decode: Wire -> Dyn, st: CursorState, k: nat)
    requires st.cursor.None? && st.fauxReturned
    decreases k
    ensures Trace(decode, st, k) == seq(k, _ => (false, Ok(DNull)))
  {
    if k > 0 {
      FauxExhausted(decode, st, k - 1);
    }
  }

  /**
   * Without a driver cursor, hasNext() is true exactly once: the first
   * next() returns the fake result and every later one returns null.
   */
  lemma FauxOneShot(decode: Wire -> Dyn, st: CursorState, k: nat)
    requires st.cursor.None? && !st.fauxReturned && k >= 1
    ensures Trace(decode, st, k) == [(true, Ok(st.fauxResult))] + seq(k - 1, _ => (false, Ok(DNull)))
  {
    FauxExhausted(decode, st.(fauxReturned := true), k - 1);
  }

  /**
   * With a driver cursor, hasNext() and next() delegate to it: the i-th
   * round sees the i-th remaining result decoded back to a script value,
   * and past the end hasNext() is false and next() throws.
   */
  lemma {:induction false} DriverDelegates(decode: Wire -> Dyn, st: CursorState, k: nat)
    requires st.cursor.Some?
    decreases k
    ensures |Trace(decode, st, k)| == k
    ensures forall i :: 0 <= i < k ==>
      Trace(decode, st, k)[i] == if i < |st.cursor.value| then (true, Ok(decode(st.cursor.value[i])))
                            else (false, Err(NoSuchElement))
  {
    if k > 0 {
      var rest := st.cursor.value;
      var st' := NextOf(decode, st).0;
      DriverDelegates(decode, st', k - 1);
      if rest != [] {
        assert st'.cursor.value == rest[1..];
      }
    }
  }

  /** objsLeftInBatch() answers 1 exactly when hasNext() would be true, and throws without a driver cursor. */
  lemma ObjsLeftMatchesHasNext(st: CursorState)
    ensures st.cursor.Some? ==> ObjsLeftOf(st) == Ok(if HasNextOf(st) then 1 else 0)
    ensures st.cursor.None? ==> ObjsLeftOf(st) == Err(NullCursor)
  {
  }

  class InternalCursor {
    var cursor: Option<seq<Wire>>
    var fauxResult: Dyn
    var fauxReturned: bool

    function Current(): CursorState
      reads this
    {
      CursorState(cursor, fauxResult, fauxReturned)
    }

    constructor ()
      ensures Current() == CursorState(None, DNull, false)
    {
      cursor := None;
      fauxResult := DNull;
      fauxReturned := false;
    }

    /** With true, the fake result is an object with ok = true; with false it stays null. */
    constructor WithFaux(withFauxFindOneResult: bool)
      ensures Current() == CursorState(None, if withFauxFindOneResult then FAUX_OK else DNull, false)
    {
      cursor := None;
      fauxResult := DNull;
      fauxReturned := false;
      if withFauxFindOneResult {
        fauxResult := FAUX_OK;
      }
    }

    /** hasNext() reads the state and changes nothing. */
    method HasNext() returns (haveNext: bool)
      ensures haveNext == HasNextOf(Current())
    {
      if cursor.None? {
        haveNext := !fauxReturned;
      } else {
        haveNext := cursor.value != [];
      }
    }

    method Next(decode: Wire -> Dyn) returns (next: Result<Dyn, CursorError>)
      modifies this
      ensures Current() == NextOf(decode, old(Current())).0
      ensures next == NextOf(decode, old(Current())).1
      ensures old(fauxReturned) ==> fauxReturned
    {
      if cursor.None? {
        next := Ok(DNull);
        if !fauxReturned {
          fauxReturned := true;
          next := Ok(fauxResult);
        }
      } else if cursor.value == [] {
        next := Err(NoSuchElement);
      } else {
        next := Ok(decode(cursor.value[0]));
        cursor := Some(cursor.value[1..]);
      }
    }

    method ObjsLeftInBatch() returns (r: Result<int, CursorError>)
      ensures r == ObjsLeftOf(Current())
    {
      if cursor.None? {
        r := Err(NullCursor);
      } else {
        r := Ok(if cursor.value != [] then 1 else 0);
      }
    }

    method SetCursor(c: Option<seq<Wire>>)
      modifies this
      ensures Current() == old(Current()).(cursor := c)
    {
      cursor := c;
    }
  }
}
