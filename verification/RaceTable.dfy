// The race table: reported pairs grouped by their static instruction pair.
module RaceTable {
  import opened Events

  /** An instruction pair in canonical order, each with its kind of access. */
  datatype InstPair = InstPair(first: nat, firstOp: char, second: nat, secondOp: char) {
    function Key(): (nat, nat) { (first, second) }
  }

  datatype RuntimeRace = RuntimeRace(first: Event, second: Event)

  /** Pairs compare by their instructions alone. */
  predicate KeyLess(k: (nat, nat), l: (nat, nat)) {
    k.0 < l.0 || (k.0 == l.0 && k.1 < l.1)
  }

  function OpChar(e: Event): char { if e.op.Load? then 'r' else 'w' }

  /** The instructions in increasing order; the access kinds move with them. */
  function Canonical(e: Event, f: Event): InstPair {
    if e.inst > f.inst then InstPair(f.inst, OpChar(f), e.inst, OpChar(e))
    else InstPair(e.inst, OpChar(e), f.inst, OpChar(f))
  }

  datatype Entry = Entry(pair: InstPair, runs: seq<RuntimeRace>)

  /** An ordered map: strictly increasing keys. */
  predicate Sorted(entries: seq<Entry>) {
    forall i, j :: 0 <= i < j < |entries| ==> KeyLess(entries[i].pair.Key(), entries[j].pair.Key())
  }

  /** The table is ordered by the first instruction, and by the second where the first agree. */
  lemma Increasing(entries: seq<Entry>, i: nat, j: nat)
    requires Sorted(entries) && i < j < |entries|
    ensures entries[i].pair.first <= entries[j].pair.first
    ensures entries[i].pair.first == entries[j].pair.first ==> entries[i].pair.second < entries[j].pair.second
  {
  }

  function PairOf(run: RuntimeRace): InstPair { Canonical(run.first, run.second) }

  /** Every entry was created by its first race and collects races of the same instructions. */
  predicate Filled(entries: seq<Entry>) {
    forall i :: 0 <= i < |entries| ==>
      && entries[i].runs != [] && entries[i].pair == PairOf(entries[i].runs[0])
      && forall k :: 0 <= k < |entries[i].runs| ==> PairOf(entries[i].runs[k]).Key() == entries[i].pair.Key()
  }

  /** What is recorded under a key. */
  function Runs(entries: seq<Entry>, key: (nat, nat)): seq<RuntimeRace> {
    if entries == [] then []
    else if entries[0].pair.Key() == key then entries[0].runs
    else Runs(entries[1..], key)
  }

  function Size(entries: seq<Entry>): nat {
    if entries == [] then 0 else |entries[0].runs| + Size(entries[1..])
  }

  lemma {:induction false} RunsConcat(xs: seq<Entry>, ys: seq<Entry>, key: (nat, nat))
    ensures Runs(xs + ys, key) ==
      if exists i :: 0 <= i < |xs| && xs[i].pair.Key() == key then Runs(xs, key) else Runs(ys, key)
    ensures Size(xs + ys) == Size(xs) + Size(ys)
  {
    if xs == [] {
      assert xs + ys == ys;
    } else {
      assert (xs + ys)[1..] == xs[1..] + ys;
      RunsConcat(xs[1..], ys, key);
      if xs[0].pair.Key() != key {
        assert forall i :: 1 <= i < |xs| ==> xs[i] == xs[1..][i - 1];
      }
    }
  }

  // ----- the pair of a race, said of its two events ---------------------------------

  /** The key of a race is made of its two instructions, the smaller one first. */
  predicate OfInstructions(key: (nat, nat), run: RuntimeRace) {
    && key.0 <= key.1
    && (key == (run.first.inst, run.second.inst) || key == (run.second.inst, run.first.inst))
  }

  lemma KeyExactly(run: RuntimeRace, key: (nat, nat))
    ensures PairOf(run).Key() == key <==> OfInstructions(key, run)
  {
  }

  /** Two races share a key exactly if they are between the same two instructions, in whichever
      order. */
  lemma SameKeyExactly(r: RuntimeRace, s: RuntimeRace)
    ensures PairOf(r).Key() == PairOf(s).Key() <==>
      || (r.first.inst == s.first.inst && r.second.inst == s.second.inst)
      || (r.first.inst == s.second.inst && r.second.inst == s.first.inst)
  {
    KeyExactly(r, PairOf(s).Key());
    KeyExactly(s, PairOf(s).Key());
  }

  /** Each kind is that of its own instruction's event: 'r' for a load and 'w' for anything else. */
  lemma KindsExactly(e: Event, f: Event)
    ensures
      var p := PairOf(RuntimeRace(e, f));
      && p.firstOp in {'r', 'w'} && p.secondOp in {'r', 'w'}
      && (e.inst <= f.inst ==> (p.firstOp == 'r' <==> e.op == Load) && (p.secondOp == 'r' <==> f.op == Load))
      && (f.inst < e.inst ==> (p.firstOp == 'r' <==> f.op == Load) && (p.secondOp == 'r' <==> e.op == Load))
  {
  }

  /** What one more race of `run`'s instructions adds under a key. */
  function Filing(key: (nat, nat), run: RuntimeRace): seq<RuntimeRace> {
    if OfInstructions(key, run) then [run] else []
  }

  /** What one more race adds under a key. */
  function Added(key: (nat, nat), at: (nat, nat), run: RuntimeRace): seq<RuntimeRace> {
    if key == at then [run] else []
  }

  class InstRaceTable {
    var entries: seq<Entry>

    ghost predicate Valid()
      reads this
    {
      Sorted(entries) && Filled(entries)
    }

    constructor ()
      ensures Valid() && entries == []
    {
      entries := [];
    }

    /** The first position whose key is not below `key`. */
    method LowerBound(key: (nat, nat)) returns (i: nat)
      requires Valid()
      ensures i <= |entries|
      ensures forall k :: 0 <= k < i ==> KeyLess(entries[k].pair.Key(), key)
      ensures forall k :: i <= k < |entries| ==> !KeyLess(entries[k].pair.Key(), key)
    {
      i := 0;
      while i < |entries| && KeyLess(entries[i].pair.Key(), key)
        invariant i <= |entries|
        invariant forall k :: 0 <= k < i ==> KeyLess(entries[k].pair.Key(), key)
      {
        i := i + 1;
      }
    }

    /** Appends the race to its instruction pair's list; every other list is unchanged. */
    method AddRace(e: Event, f: Event)
      requires Valid()
      modifies this
      ensures Valid() && Size(entries) == Size(old(entries)) + 1
      ensures forall key :: Runs(entries, key) == Runs(old(entries), key) + Filing(key, RuntimeRace(e, f))
    {
      var pair := Canonical(e, f);
      var i := LowerBound(pair.Key());
      assert i < |entries| && entries[i].pair.Key() != pair.Key() ==> KeyLess(pair.Key(), entries[i].pair.Key());
      var run := RuntimeRace(e, f);
      forall key ensures Added(key, pair.Key(), run) == Filing(key, run) {
        KeyExactly(run, key);
      }
      hide Sorted, Filled, Runs, Size, Filing;
      if i < |entries| && entries[i].pair.Key() == pair.Key() {
        UpdateSorted(entries, i, run);
        UpdateRuns(entries, i, run);
        entries := entries[..i] + [entries[i].(runs := entries[i].runs + [run])] + entries[i + 1..];
      } else {
        InsertSorted(entries, i, pair, run);
        InsertRuns(entries, i, pair, run);
        entries := entries[..i] + [Entry(pair, [run])] + entries[i..];
      }
    }
  }

  lemma UpdateSorted(es: seq<Entry>, i: nat, run: RuntimeRace)
    requires Sorted(es) && Filled(es) && i < |es| && PairOf(run).Key() == es[i].pair.Key()
    ensures
      var es' := es[..i] + [es[i].(runs := es[i].runs + [run])] + es[i + 1..];
      Sorted(es') && Filled(es')
    ensures forall k :: 0 <= k < i ==> es[..i][k].pair.Key() != es[i].pair.Key()
  {
  }

  lemma UpdateRuns(es: seq<Entry>, i: nat, run: RuntimeRace)
    requires i < |es| && forall k :: 0 <= k < i ==> es[..i][k].pair.Key() != es[i].pair.Key()
    ensures
      var es' := es[..i] + [es[i].(runs := es[i].runs + [run])] + es[i + 1..];
      && Size(es') == Size(es) + 1
      && forall key :: Runs(es', key) == Runs(es, key) + Added(key, es[i].pair.Key(), run)
  {
    var old_, new_ := es[i], es[i].(runs := es[i].runs + [run]);
    var init, tail := es[..i], es[i + 1..];
    assert es == init + ([old_] + tail) && init + [new_] + tail == init + ([new_] + tail);
    forall key ensures Runs(init + ([new_] + tail), key) == Runs(es, key) + Added(key, old_.pair.Key(), run) {
      RunsConcat(init, [old_] + tail, key);
      RunsConcat(init, [new_] + tail, key);
    }
    RunsConcat(init, [old_] + tail, (0, 0));
    RunsConcat(init, [new_] + tail, (0, 0));
  }

  lemma {:induction false} NoRuns(es: seq<Entry>, key: (nat, nat))
    requires forall k :: 0 <= k < |es| ==> es[k].pair.Key() != key
    ensures Runs(es, key) == []
  {
    if es != [] {
      NoRuns(es[1..], key);
    }
  }

  /** A new key between the smaller and the larger ones. */
  predicate FitsAt(es: seq<Entry>, i: nat, pair: InstPair) {
    && i <= |es|
    && (forall k :: 0 <= k < i ==> KeyLess(es[k].pair.Key(), pair.Key()))
    && (forall k :: i <= k < |es| ==> KeyLess(pair.Key(), es[k].pair.Key()))
  }

  lemma InsertSorted(es: seq<Entry>, i: nat, pair: InstPair, run: RuntimeRace)
    requires Sorted(es) && Filled(es) && FitsAt(es, i, pair) && pair == PairOf(run)
    ensures Sorted(es[..i] + [Entry(pair, [run])] + es[i..])
    ensures Filled(es[..i] + [Entry(pair, [run])] + es[i..])
  {
  }

  lemma InsertRuns(es: seq<Entry>, i: nat, pair: InstPair, run: RuntimeRace)
    requires FitsAt(es, i, pair)
    ensures
      var es' := es[..i] + [Entry(pair, [run])] + es[i..];
      && Size(es') == Size(es) + 1
      && forall key :: Runs(es', key) == Runs(es, key) + Added(key, pair.Key(), run)
  {
    var new_ := Entry(pair, [run]);
    var es' := es[..i] + [new_] + es[i..];
    assert es == es[..i] + es[i..] && es' == es[..i] + ([new_] + es[i..]);
    forall key ensures Runs(es', key) == Runs(es, key) + Added(key, pair.Key(), run) {
      RunsConcat(es[..i], es[i..], key);
      RunsConcat(es[..i], [new_] + es[i..], key);
      if key == pair.Key() {
        NoRuns(es, key);
      }
    }
    RunsConcat(es[..i], es[i..], (0, 0));
    RunsConcat(es[..i], [new_] + es[i..], (0, 0));
  }
}
