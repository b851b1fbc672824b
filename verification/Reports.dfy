// From the logged program to the detector, and from the detector to the scripts.
module Reports {
  import opened RaceText
  import opened Events
  import opened RaceTable
  import opened RaceFiles
  import opened RaceLoading
  import opened Detection
  import opened Races
  import opened Filtering
  import opened TraceLoading
  import opened ClockMachine
  import opened RawTraces
  import R = Runtime
  import LogSlots
  import LoggedLengths
  import EndToEnd

  // ----- from the race table to the scripts -----------------------------------------

  lemma {:induction false} RunsAt(es: seq<Entry>, i: nat)
    requires Sorted(es) && i < |es|
    ensures Runs(es, es[i].pair.Key()) == es[i].runs
  {
    if i > 0 {
      RunsAt(es[1..], i - 1);
    }
  }

  /** A reported pair, as the reader would file it. */
  ghost predicate ReadFrom(t: seq<Event>, races: set<(nat, nat)>, key: Key, run: RunRecord)
    requires Distinguished(t, races)
  {
    exists p :: p in races && Filed(RuntimeRace(t[p.0], t[p.1]), key, run)
  }

  /** Under the decimals of the two instructions, in the order of strings, stands the race with the
      thread, timestamp and instruction of either event and the address. */
  predicate Filed(r: RuntimeRace, key: Key, run: RunRecord) {
    var i, j := Dec(r.first.inst), Dec(r.second.inst);
    && run.first == Side(Dec(r.first.tid), Dec(r.first.ts), i)
    && run.second == Side(Dec(r.second.tid), Dec(r.second.ts), j)
    && run.addr == Dec(r.first.addr)
    && key in {(i, j), (j, i)} && !LexLess(key.1, key.0)
  }

  lemma FiledExactly(r: RuntimeRace, key: (nat, nat), text: Key, run: RunRecord)
    requires OfInstructions(key, r)
    ensures Filed(r, text, run) <==> run == ReadRun(r) && text == KeyText(key)
  {
    hide Dec, LexLess;
    LexTotal(Dec(r.first.inst), Dec(r.second.inst));
  }

  lemma BucketFromTable(es: seq<Entry>, t: seq<Event>, races: set<(nat, nat)>, i: nat, run: RunRecord)
    requires Sorted(es) && Distinguished(t, races) && Grouped(es, t, races) && i < |es|
    requires run in ReadRuns(es[i].runs)
    ensures ReadFrom(t, races, KeyOf(es[i]), run)
  {
    hide ReadRun, KeyText, OfInstructions, Sorted, Runs, Filed;
    var k :| 0 <= k < |es[i].runs| && run == ReadRun(es[i].runs[k]);
    var r, key := es[i].runs[k], es[i].pair.Key();
    RunsAt(es, i);
    assert es[i].runs[k] in Runs(es, key);
    assert exists p :: p in races && r == RuntimeRace(t[p.0], t[p.1]) && OfInstructions(key, r);
    var p :| p in races && r == RuntimeRace(t[p.0], t[p.1]) && OfInstructions(key, r);
    FiledExactly(r, key, KeyOf(es[i]), run);
  }

  lemma TableHasReport(es: seq<Entry>, t: seq<Event>, races: set<(nat, nat)>, p: (nat, nat), key: Key, run: RunRecord)
    returns (i: nat)
    requires Sorted(es) && Distinguished(t, races) && Grouped(es, t, races) && p in races
    requires Filed(RuntimeRace(t[p.0], t[p.1]), key, run)
    ensures i < |es| && KeyOf(es[i]) == key && run in ReadRuns(es[i].runs)
  {
    var r := RuntimeRace(t[p.0], t[p.1]);
    var pair := PairOf(r).Key();
    KeyExactly(r, pair);
    hide ReadRun, KeyText, OfInstructions, Sorted, Runs, Filed, PairOf;
    FiledExactly(r, pair, key, run);
    assert r in Runs(es, pair);
    if forall k :: 0 <= k < |es| ==> es[k].pair.Key() != pair {
      NoRuns(es, pair);
      assert false;
    }
    i :| 0 <= i < |es| && es[i].pair.Key() == pair;
    RunsAt(es, i);
    var k :| 0 <= k < |es[i].runs| && es[i].runs[k] == r;
    assert ReadRuns(es[i].runs)[k] == ReadRun(r);
  }

  /** The scripts' runtime races of a dumped table are exactly the detector's reports: each under
      its pair, none missing, none invented. */
  lemma ReaderSeesReports(es: seq<Entry>, t: seq<Event>, races: set<(nat, nat)>, targets: set<Key>)
    returns (m: RunsByPair)
    requires Sorted(es) && Filled(es) && Distinguished(t, races) && Grouped(es, t, races)
    ensures Records(Lines(Dump(es))).Some? && Gather(Records(Lines(Dump(es))).value, targets) == Some(m)
    ensures forall key, run :: run in Bucket(m, key) <==> key in targets && ReadFrom(t, races, key, run)
  {
    m := RuntimeRacesRecovered(es, targets);
    hide Records, Lines, Dump, Gather, Sorted, Filled, Grouped, ReadRuns, KeyOf, KeyText, Filed;
    forall key, run ensures run in Bucket(m, key) <==> key in targets && ReadFrom(t, races, key, run) {
      if run in Bucket(m, key) {
        var i :| 0 <= i < |es| && KeyOf(es[i]) == key;
        BucketFromTable(es, t, races, i, run);
      }
      if key in targets && ReadFrom(t, races, key, run) {
        var p :| p in races && Filed(RuntimeRace(t[p.0], t[p.1]), key, run);
        var i := TableHasReport(es, t, races, p, key, run);
      }
    }
  }

  // ----- the whole tool chain -------------------------------------------------------

  /** A pair the detector is to report in `x`, as the reader would file it. */
  ghost predicate ReportedAs(x: seq<Event>, key: Key, run: RunRecord) {
    exists i: nat, j: nat :: Reported(x, i, j) && Filed(RuntimeRace(x[i], x[j]), key, run)
  }

  lemma RacesReportedAs(t: seq<Event>, races: set<(nat, nat)>, key: Key, run: RunRecord)
    requires Distinguished(t, races)
    requires forall i: nat, j: nat :: (i, j) in races <==> Reported(t, i, j)
    ensures ReadFrom(t, races, key, run) <==> ReportedAs(t, key, run)
  {
    hide Filed, Reported;
    if ReadFrom(t, races, key, run) {
      var p :| p in races && Filed(RuntimeRace(t[p.0], t[p.1]), key, run);
      assert (p.0, p.1) in races;
    }
    if ReportedAs(t, key, run) {
      var i: nat, j: nat :| Reported(t, i, j) && Filed(RuntimeRace(t[i], t[j]), key, run);
      assert (i, j) in races && Filed(RuntimeRace(t[(i, j).0], t[(i, j).1]), key, run);
    }
  }

  /** Loading changes nothing about what is to be read. */
  lemma FilteredReportedAs(x: seq<Event>, keep: set<nat>, n: nat, key: Key, run: RunRecord)
    requires TidsBelow(x, n) && (forall a :: Shared(x, a) ==> a in keep)
    ensures ReportedAs(Filter(x, keep), key, run) <==> ReportedAs(x, key, run)
  {
    var y, ps := Filter(x, keep), Kept(x, keep, |x|);
    KeptSound(x, keep, |x|);
    if ReportedAs(y, key, run) {
      var i: nat, j: nat :| Reported(y, i, j) && Filed(RuntimeRace(y[i], y[j]), key, run);
      FilteringKeepsReports(x, keep, n, i, j);
      assert Reported(x, ps[i], ps[j]) && Filed(RuntimeRace(x[ps[i]], x[ps[j]]), key, run);
    }
    if ReportedAs(x, key, run) {
      var p: nat, q: nat :| Reported(x, p, q) && Filed(RuntimeRace(x[p], x[q]), key, run);
      FilteringLosesNothing(x, keep, p, q);
      var i, j := |Kept(x, keep, p)|, |Kept(x, keep, q)|;
      FilteringKeepsReports(x, keep, n, i, j);
      assert Reported(y, i, j) && Filed(RuntimeRace(y[i], y[j]), key, run);
    }
  }

  /** Detects, writes the race file and reads it back. Unless an assertion stops the detector, what
      the scripts read for the target pairs is exactly the reports of the whole expanded trace. */
  method DetectAndRead(raw: seq<Event>, n: nat, targets: set<Key>)
    returns (ok: bool, raceVars: set<nat>, file: string, runs: Option<RunsByPair>)
    requires Holdable(raw, n)
    ensures ok <==> Accepted(raw, |raw|) && SyncsApart(raw)
    ensures ok ==> forall a: nat :: a in raceVars <==> RacyAddress(Expand(raw, |raw|), a)
    ensures ok ==> forall a: nat :: a in raceVars <==> RawRacy(raw, a)
    ensures ok ==> Records(Lines(file)).Some? && runs == Gather(Records(Lines(file)).value, targets)
    ensures ok ==> runs.Some? && forall key, run ::
      run in Bucket(runs.value, key) <==> key in targets && ReportedAs(Expand(raw, |raw|), key, run)
  {
    file, runs := "", None;
    var graph, ra, table, summary;
    ok, graph, ra, table, summary, raceVars := Detect(raw, n);
    if !ok {
      return;
    }
    hide Grouped, Summarised, Records, Lines, Dump, Gather, RawRacy, RacyAddress;
    forall a: nat ensures a in raceVars <==> RawRacy(raw, a) {
      RacyAddressRaw(raw, a);
    }
    ghost var x, t := Expand(raw, |raw|), graph.totEvents;
    file := DumpFile(table);
    ghost var m := ReaderSeesReports(table.entries, t, ra.races, targets);
    runs := LoadRuntimeRace(Lines(file), targets);
    ExpandShape(raw, |raw|, n);
    forall key, run
      ensures run in Bucket(m, key) <==> key in targets && ReportedAs(x, key, run)
    {
      RacesReportedAs(t, ra.races, key, run);
      FilteredReportedAs(x, graph.sharedVars, n, key, run);
    }
  }

  // ----- from the instrumented program to the scripts -------------------------------

  /** Timestamps and thread ids of a finished run's log always come out right; the loader stops
      on it exactly when some hook was given a length of zero. */
  lemma SavedLogLoads(stack: set<nat>, acts: seq<R.Action>, s: R.State)
    requires R.Reaches(stack, acts, s) && LoggedLengths.Finished(s)
    ensures Accepted(R.Trace(s), |s.log|) <==> LoggedLengths.RunMeasured(acts, stack)
    ensures TidsBelow(R.Trace(s), |s.threads|)
  {
    LogSlots.FlushCannotFail(stack, acts, s);
    EndToEnd.LogTidsBelow(stack, acts, s);
    LoggedLengths.LengthsAssertedExactly(stack, acts, s);
  }

  lemma ReportedIsRacy(x: seq<Event>, key: Key, run: RunRecord, a: nat)
    requires ReportedAs(x, key, run) && run.addr == Dec(a)
    ensures RacyAddress(x, a)
  {
    var i: nat, j: nat :| Reported(x, i, j) && Filed(RuntimeRace(x[i], x[j]), key, run);
    hide Dec;
    DecInjective(a, x[i].addr);
    assert Racy(x, i, j) && x[j].addr == a;
  }

  /** Recorder, detector and scripts on the log of a finished run. The detector accepts it if and
      only if every hook was given positive lengths and no shared variable is used as a
      synchronisation variable; then the racy variables and the races the scripts read are exactly
      those of the log, and none is on a variable the program touches only under one mutex. */
  method DetectLogged(stack: set<nat>, ghost acts: seq<R.Action>, s: R.State, targets: set<Key>)
    returns (ok: bool, raceVars: set<nat>, runs: Option<RunsByPair>)
    requires R.Reaches(stack, acts, s) && LoggedLengths.Finished(s)
    requires forall i :: 0 <= i < |s.log| ==> R.Trace(s)[i].len < WORD
    requires |Expand(R.Trace(s), |s.log|)| + 1 < WORD
    ensures ok <==> LoggedLengths.RunMeasured(acts, stack) && SyncsApart(R.Trace(s))
    ensures ok ==> forall a: nat :: a in raceVars <==> RacyAddress(Expand(R.Trace(s), |s.log|), a)
    ensures ok ==> runs.Some? && forall key, run ::
      run in Bucket(runs.value, key) <==> key in targets && ReportedAs(Expand(R.Trace(s), |s.log|), key, run)
    ensures ok ==> forall x, m: nat :: EndToEnd.DisciplinedRun(stack, acts, x, m) ==>
      x !in raceVars && forall key, run :: run in Bucket(runs.value, key) ==> run.addr != Dec(x)
  {
    SavedLogLoads(stack, acts, s);
    var file;
    ok, raceVars, file, runs := DetectAndRead(R.Trace(s), |s.threads|, targets);
    if ok {
      ghost var full := Expand(R.Trace(s), |s.log|);
      hide ReportedAs, RacyAddress, Expand, Dec, R.Reaches, R.Trace, EndToEnd.DisciplinedRun;
      forall x, m: nat | EndToEnd.DisciplinedRun(stack, acts, x, m)
        ensures x !in raceVars && forall key, run :: run in Bucket(runs.value, key) ==> run.addr != Dec(x)
      {
        EndToEnd.LockedDataNeverReported(stack, acts, s, x, m, {});
        forall key, run | run in Bucket(runs.value, key) ensures run.addr != Dec(x) {
          if run.addr == Dec(x) {
            ReportedIsRacy(full, key, run, x);
            assert false;
          }
        }
      }
    }
  }
}
