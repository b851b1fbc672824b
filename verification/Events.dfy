// The logged event record, its classification predicates, and the byte ranges of accesses.
module Events {

  const WORD: nat := 0x1_0000_0000_0000_0000

  /** Unsigned 64-bit arithmetic. */
  function Wrap(x: nat): nat { x % 0x1_0000_0000_0000_0000 }

  datatype Op =
    | Create | Join
    | Load | Store
    | TryLock | Lock | Unlock | Wait | Awake | Signal | Broadcast
    | Call

  datatype Event = Event(inst: nat, ts: nat, op: Op, tid: nat, addr: nat, len: nat, remote: nat) {

    predicate IsAccess() { op.Load? || op.Store? }

    predicate IsVarAccess() { IsAccess() && len == 1 }

    predicate IsThreadOp() { op.Create? || op.Join? }

    predicate IsSyncOp() {
      op.Lock? || op.Unlock? || op.TryLock? || op.Wait? || op.Awake? || op.Signal? || op.Broadcast?
    }

    predicate IsAcquire() { op.Lock? || op.TryLock? || op.Awake? }

    predicate IsRelease() { op.Unlock? || op.Signal? || op.Broadcast? }

    /** The single-address access at offset `pos` of an array access. */
    function Element(pos: nat): Event { this.(len := 1, addr := Wrap(addr + pos)) }

    /** One past the last byte, in the 64-bit arithmetic of the source. */
    function End(): nat { Wrap(addr + len) }

    /** The byte range does not run into the top of the address space. */
    predicate Fits() { addr + len < WORD }

    /** The overlap test of two access events. */
    predicate IsConflict(other: Event) {
      !(End() <= other.addr || other.End() <= addr)
    }

    ghost predicate Touches(a: nat) { exists k: nat :: k < len && Element(k).addr == a }
  }

  /** The assertion made when an access's length is asked for. */
  predicate HasLength(e: Event) { e.IsAccess() ==> 0 < e.len }

  /** Both addresses and lengths are 64-bit words and the range is not empty. */
  predicate WordRange(e: Event) { e.addr < WORD && 0 < e.len < WORD }

  ghost predicate ShareAddress(e: Event, f: Event) {
    exists a: nat :: e.Touches(a) && f.Touches(a)
  }

  /** The starts of the two ranges lie before each other's (wrapped) ends. */
  predicate StartsBefore(e: Event, f: Event) { f.addr < e.End() }

  /** The guard under which the overlap test may be trusted: neither range wraps, or one does
      and the other fills the gap it leaves or stays inside it. */
  predicate OverlapTestSound(e: Event, f: Event) {
    || (e.Fits() && f.Fits())
    || (e.Fits() && FillsOrMissesGap(e, f))
    || (f.Fits() && FillsOrMissesGap(f, e))
  }

  /** The gap of a wrapped range is what lies between its wrapped end and its start. */
  predicate FillsOrMissesGap(e: Event, wrapped: Event) {
    if e.addr < wrapped.End() then wrapped.addr < e.End() else e.End() <= wrapped.addr
  }

  lemma TouchesRange(e: Event, a: nat)
    requires WordRange(e) && a < WORD
    ensures e.Fits() ==> (e.Touches(a) <==> e.addr <= a < e.addr + e.len)
    ensures !e.Fits() ==> (e.Touches(a) <==> e.addr <= a || a < e.End())
    ensures e.End() == if e.Fits() then e.addr + e.len else e.addr + e.len - WORD
  {
    if e.addr <= a < e.addr + e.len {
      assert e.Element(a - e.addr).addr == a;
    }
    if !e.Fits() && a < e.End() {
      assert e.Element(WORD + a - e.addr).addr == a;
    }
  }

  /** What sharing an address means for the two ranges, wrapped or not. */
  lemma ShareAddressRange(e: Event, f: Event)
    requires WordRange(e) && WordRange(f)
    ensures ShareAddress(e, f) <==>
      if e.Fits() && f.Fits() then StartsBefore(e, f) && StartsBefore(f, e)
      else !(e.Fits() || f.Fits()) || StartsBefore(e, f) || StartsBefore(f, e)
  {
    if ShareAddress(e, f) {
      var a: nat :| e.Touches(a) && f.Touches(a);
      TouchesRange(e, a);
      TouchesRange(f, a);
    }
    TouchesRange(e, e.addr);
    TouchesRange(f, e.addr);
    TouchesRange(e, f.addr);
    TouchesRange(f, f.addr);
    TouchesRange(e, WORD - 1);
    TouchesRange(f, WORD - 1);
  }

  /** The overlap test answers "some address is shared" exactly under its guard. */
  lemma OverlapTestExact(e: Event, f: Event)
    requires WordRange(e) && WordRange(f)
    ensures (e.IsConflict(f) <==> ShareAddress(e, f)) <==> OverlapTestSound(e, f)
  {
    ShareAddressRange(e, f);
  }

  /** A range that ends at the top of the address space: its end wraps to 0 and the test
      denies that the range overlaps itself. */
  lemma OverlapTestWraps(e: Event)
    requires e.addr == WORD - 8 && e.len == 8
    ensures !e.IsConflict(e) && ShareAddress(e, e)
  {
    ShareAddressRange(e, e);
  }
}
