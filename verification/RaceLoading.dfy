// Loading race files: the runtime races by pair, and how many files report each pair.
module RaceLoading {
  import opened RaceText
  import opened RaceTable
  import opened RaceFiles

  type Key = (string, string)

  type RunsByPair = map<Key, seq<RunRecord>>

  // ----- what a sequence of records amounts to --------------------------------------

  function Bucket(m: RunsByPair, key: Key): seq<RunRecord> { if key in m then m[key] else [] }

  /** Only the lines of wanted pairs are parsed; a line that does not parse is an error. */
  function Appended(m: RunsByPair, key: Key, wanted: bool, runs: seq<string>): Option<RunsByPair> {
    if !wanted || runs == [] then Some(m)
    else
      match ParseRuns(runs)
      case None => None
      case Some(rs) => Some(m[key := Bucket(m, key) + rs])
  }

  function Gather(records: seq<Record>, targets: set<Key>): Option<RunsByPair> {
    if records == [] then Some(map[])
    else
      var r := records[|records| - 1];
      match Gather(records[..|records| - 1], targets)
      case None => None
      case Some(m) => Appended(m, r.race.Key(), r.race.Key() in targets, r.runs)
  }

  lemma {:induction false} BadRunStays(a: seq<string>, b: seq<string>)
    requires ParseRuns(a).None?
    ensures ParseRuns(a + b).None?
    decreases |b|
  {
    if b == [] {
      assert a + b == a;
    } else {
      assert (a + b)[..|a + b| - 1] == a + b[..|b| - 1];
      BadRunStays(a, b[..|b| - 1]);
    }
  }

  lemma {:induction false} BadRecordStays(a: seq<Record>, b: seq<Record>, targets: set<Key>)
    requires Gather(a, targets).None?
    ensures Gather(a + b, targets).None?
    decreases |b|
  {
    if b == [] {
      assert a + b == a;
    } else {
      assert (a + b)[..|a + b| - 1] == a + b[..|b| - 1];
      BadRecordStays(a, b[..|b| - 1], targets);
    }
  }

  /** The record at `pos` joins what was read before it. */
  lemma NextRecord(lines: seq<string>, pos: nat, done: seq<Record>)
    requires pos < |lines| && Records(lines) == Prefixed(done, Records(lines[pos..]))
    ensures
      match FirstRecord(lines[pos..])
      case None => Records(lines) == None
      case Some(r) => Records(lines) == Prefixed(done + [r], Records(lines[pos + 2 + |r.runs|..]))
  {
    hide FirstRecord;
    match FirstRecord(lines[pos..]) {
      case None =>
      case Some(r) =>
        assert lines[pos..][2 + |r.runs|..] == lines[pos + 2 + |r.runs|..];
        var rest := Records(lines[pos + 2 + |r.runs|..]);
        if rest.Some? {
          Regroup(done, [r], rest.value);
        }
    }
  }

  /** That record, line by line. */
  lemma RecordAt(lines: seq<string>, pos: nat)
    requires pos < |lines|
    ensures
      FirstRecord(lines[pos..]) ==
      if pos + 1 < |lines| && ParseInst(lines[pos]).Some? && FirstNumber(lines[pos + 1]).Some?
         && FirstNumber(lines[pos + 1]).value <= |lines| - (pos + 2)
      then Some(Record(ParseInst(lines[pos]).value, lines[pos + 2..pos + 2 + FirstNumber(lines[pos + 1]).value]))
      else None
  {
    hide ParseInst, FirstNumber;
    var here := lines[pos..];
    if pos + 1 < |lines| {
      var num := FirstNumber(lines[pos + 1]);
      if num.Some? && num.value <= |lines| - (pos + 2) {
        assert here[2..2 + num.value] == lines[pos + 2..pos + 2 + num.value];
      }
    }
  }

  /** An error in the runs of a record is an error of the whole. */
  lemma BadRunsFinal(all: Option<seq<Record>>, done: seq<Record>, r: Record, rest: Option<seq<Record>>,
                     targets: set<Key>)
    requires all == Prefixed(done + [r], rest) && Gather(done + [r], targets).None?
    ensures all.Some? ==> Gather(all.value, targets).None?
  {
    if rest.Some? {
      BadRecordStays(done + [r], rest.value, targets);
    }
  }

  lemma GatherNext(done: seq<Record>, r: Record, targets: set<Key>, m: RunsByPair)
    requires Gather(done, targets) == Some(m)
    ensures Gather(done + [r], targets) == Appended(m, r.race.Key(), r.race.Key() in targets, r.runs)
  {
    hide Appended;
    assert (done + [r])[..|done|] == done;
  }

  // ----- the loops ------------------------------------------------------------------

  lemma RunsNext(m: RunsByPair, key: Key, runs: seq<string>, line: string, acc: RunsByPair)
    requires Appended(m, key, true, runs) == Some(acc)
    ensures
      Appended(m, key, true, runs + [line]) ==
      match ParseRun(line) case None => None case Some(r) => Some(acc[key := Bucket(acc, key) + [r]])
  {
    hide ParseRun;
    assert (runs + [line])[..|runs|] == runs;
    if runs != [] && ParseRun(line).Some? {
      var rs, r := ParseRuns(runs).value, ParseRun(line).value;
      Regroup(Bucket(m, key), rs, [r]);
      assert m[key := Bucket(m, key) + rs][key := Bucket(m, key) + (rs + [r])] == m[key := Bucket(m, key) + (rs + [r])];
    } else if runs == [] && ParseRun(line).Some? {
      assert [line][..0] == [] && ParseRuns([]) == Some([]) && [] + [ParseRun(line).value] == [ParseRun(line).value];
    }
  }

  /** One more line of a slice: parsed if its pair is wanted, and an error for good if it does
      not parse. */
  lemma SliceNext(lines: seq<string>, pos: nat, i: nat, key: Key, wanted: bool, m: RunsByPair, acc: RunsByPair)
    requires pos + i < |lines| && Appended(m, key, wanted, lines[pos..pos + i]) == Some(acc)
    ensures
      Appended(m, key, wanted, lines[pos..pos + i + 1]) ==
      if !wanted then Some(acc)
      else match ParseRun(lines[pos + i]) case None => None case Some(r) => Some(acc[key := Bucket(acc, key) + [r]])
  {
    hide ParseRun, ParseRuns;
    assert lines[pos..pos + i + 1] == lines[pos..pos + i] + [lines[pos + i]];
    if wanted {
      RunsNext(m, key, lines[pos..pos + i], lines[pos + i], acc);
    }
  }

  lemma BadSliceStays(lines: seq<string>, pos: nat, i: nat, num: nat, key: Key, m: RunsByPair)
    requires i <= num && pos + num <= |lines| && Appended(m, key, true, lines[pos..pos + i]) == None
    ensures Appended(m, key, true, lines[pos..pos + num]) == None
  {
    var a, b := lines[pos..pos + i], lines[pos + i..pos + num];
    BadRunStays(a, b);
    hide ParseRuns;
    assert a + b == lines[pos..pos + num];
  }

  /** Reads `num` lines; those of a wanted pair are parsed and appended to its list. */
  method AppendRuns(lines: seq<string>, pos: nat, num: nat, key: Key, wanted: bool, m: RunsByPair)
    returns (r: Option<RunsByPair>)
    requires pos <= |lines|
    ensures |lines| - pos < num ==> r == None
    ensures num <= |lines| - pos ==> r == Appended(m, key, wanted, lines[pos..pos + num])
  {
    var acc := m;
    assert Appended(m, key, wanted, lines[pos..pos]) == Some(m);
    hide Appended, ParseRun;
    for i := 0 to num
      invariant pos + i <= |lines|
      invariant Appended(m, key, wanted, lines[pos..pos + i]) == Some(acc)
    {
      if pos + i == |lines| {
        return None;
      }
      SliceNext(lines, pos, i, key, wanted, m, acc);
      if wanted {
        match ParseRun(lines[pos + i]) {
          case None =>
            if num <= |lines| - pos {
              BadSliceStays(lines, pos, i + 1, num, key, m);
            }
            return None;
          case Some(run) =>
            acc := acc[key := Bucket(acc, key) + [run]];
        }
      }
    }
    r := Some(acc);
  }

  /** The runtime races of the target pairs, by pair. */
  method LoadRuntimeRace(lines: seq<string>, targets: set<Key>) returns (r: Option<RunsByPair>)
    ensures r == match Records(lines) case None => None case Some(records) => Gather(records, targets)
  {
    var runs: RunsByPair, pos := map[], 0;
    ghost var done: seq<Record> := [];
    StartReading(lines);
    hide Records, FirstRecord, ParseInst, FirstNumber, Appended;
    while pos < |lines|
      invariant pos <= |lines|
      invariant Records(lines) == Prefixed(done, Records(lines[pos..]))
      invariant Gather(done, targets) == Some(runs)
    {
      NextRecord(lines, pos, done);
      RecordAt(lines, pos);
      var race := ParseInst(lines[pos]);
      if race.None? || pos + 1 == |lines| {
        return None;
      }
      var num := FirstNumber(lines[pos + 1]);
      if num.None? {
        return None;
      }
      var key := race.value.Key();
      var more := AppendRuns(lines, pos + 2, num.value, key, key in targets, runs);
      if num.value <= |lines| - (pos + 2) {
        ghost var record := Record(race.value, lines[pos + 2..pos + 2 + num.value]);
        GatherNext(done, record, targets, runs);
        if more.None? {
          BadRunsFinal(Records(lines), done, record, Records(lines[pos + 2 + num.value..]), targets);
        }
        done := done + [record];
      }
      if more.None? {
        return None;
      }
      runs := more.value;
      pos := pos + 2 + num.value;
    }
    StopReading(lines, done);
    r := Some(runs);
  }

  lemma StartReading(lines: seq<string>)
    ensures Records(lines) == Prefixed([], Records(lines[0..]))
  {
    assert lines[0..] == lines;
    var all := Records(lines);
    hide Records;
    if all.Some? {
      assert [] + all.value == all.value;
    }
  }

  lemma StopReading(lines: seq<string>, done: seq<Record>)
    requires Records(lines) == Prefixed(done, Records(lines[|lines|..]))
    ensures Records(lines) == Some(done)
  {
    assert Records(lines[|lines|..]) == Some([]);
    hide Records;
    assert done + [] == done;
  }

  // ----- counting pairs over files --------------------------------------------------

  datatype RaceFile = RaceFile(races: seq<InstRace>, normals: seq<InstRace>)

  predicate Listed(races: seq<InstRace>, key: Key) { exists i :: 0 <= i < |races| && races[i].Key() == key }

  function AddDistinct(races: seq<InstRace>, race: InstRace): seq<InstRace> {
    if Listed(races, race.Key()) then races else races + [race]
  }

  type Tally = map<Key, nat>

  function CountOf(tot: Tally, key: Key): nat { if key in tot then tot[key] else 0 }

  /** Normal races are listed apart and not counted. */
  function FileOf(records: seq<Record>, normal: set<Key>): RaceFile {
    if records == [] then RaceFile([], [])
    else
      var f, race := FileOf(records[..|records| - 1], normal), records[|records| - 1].race;
      if race.Key() in normal then f.(normals := AddDistinct(f.normals, race))
      else f.(races := AddDistinct(f.races, race))
  }

  function Tallied(tot: Tally, records: seq<Record>, normal: set<Key>): Tally {
    if records == [] then tot
    else
      var t, key := Tallied(tot, records[..|records| - 1], normal), records[|records| - 1].race.Key();
      if key in normal then t else t[key := CountOf(t, key) + 1]
  }

  function TalliedAll(tot: Tally, files: seq<seq<string>>, normal: set<Key>): Tally {
    if files == [] then tot
    else
      var t := TalliedAll(tot, files[..|files| - 1], normal);
      match Records(files[|files| - 1])
      case None => t
      case Some(records) => Tallied(t, records, normal)
  }

  /** How many different pairs are known after each file. */
  function DistinctCounts(tot: Tally, files: seq<seq<string>>, normal: set<Key>): seq<nat> {
    seq(|files|, f requires 0 <= f < |files| => |TalliedAll(tot, files[..f + 1], normal)|)
  }

  lemma OneMoreCount(tot: Tally, files: seq<seq<string>>, f: nat, normal: set<Key>)
    requires f < |files|
    ensures DistinctCounts(tot, files[..f + 1], normal) ==
            DistinctCounts(tot, files[..f], normal) + [|TalliedAll(tot, files[..f + 1], normal)|]
  {
    hide TalliedAll;
    var more, fewer := files[..f + 1], files[..f];
    forall g | 0 <= g < f ensures DistinctCounts(tot, more, normal)[g] == DistinctCounts(tot, fewer, normal)[g] {
      assert more[..g + 1] == fewer[..g + 1];
    }
    assert more[..f + 1] == more;
  }

  class RaceFileManager {
    var totInstRace: Tally
    var normalRace: set<Key>
    var accNrTotInstRace: seq<nat>

    constructor (normal: set<Key>)
      ensures totInstRace == map[] && normalRace == normal && accNrTotInstRace == []
    {
      totInstRace, normalRace, accNrTotInstRace := map[], normal, [];
    }

    method IsListed(races: seq<InstRace>, key: Key) returns (b: bool)
      ensures b <==> Listed(races, key)
    {
      b := false;
      for i := 0 to |races|
        invariant b <==> Listed(races[..i], key)
      {
        b := b || races[i].Key() == key;
        assert races[..i + 1][i] == races[i];
        assert forall k :: 0 <= k < i ==> races[..i + 1][k] == races[..i][k];
      }
      assert races[..|races|] == races;
    }

    /** Reads the files one after the other. */
    method LoadTotalRaceFile(files: seq<seq<string>>) returns (r: Option<seq<RaceFile>>)
      modifies this`totInstRace, this`accNrTotInstRace
      ensures r.Some? <==> forall f :: 0 <= f < |files| ==> Records(files[f]).Some?
      ensures r.Some? ==>
        && |r.value| == |files| && totInstRace == TalliedAll(old(totInstRace), files, normalRace)
        && accNrTotInstRace == old(accNrTotInstRace) + DistinctCounts(old(totInstRace), files, normalRace)
        && forall f :: 0 <= f < |files| ==> r.value[f] == FileOf(Records(files[f]).value, normalRace)
    {
      var loaded: seq<RaceFile> := [];
      hide Records, Tallied, FileOf;
      for f := 0 to |files|
        invariant |loaded| == f
        invariant forall g :: 0 <= g < f ==>
          Records(files[g]).Some? && loaded[g] == FileOf(Records(files[g]).value, normalRace)
        invariant totInstRace == TalliedAll(old(totInstRace), files[..f], normalRace)
        invariant accNrTotInstRace == old(accNrTotInstRace) + DistinctCounts(old(totInstRace), files[..f], normalRace)
      {
        assert files[..f + 1][..f] == files[..f];
        OneMoreCount(old(totInstRace), files, f, normalRace);
        hide DistinctCounts;
        var file := LoadRaceFile(files[f]);
        if file.None? {
          return None;
        }
        loaded := loaded + [file.value];
      }
      assert files[..|files|] == files;
      r := Some(loaded);
    }

    /** Reads one file; an ill-formed one ends the tool with an error. */
    method LoadRaceFile(lines: seq<string>) returns (r: Option<RaceFile>)
      modifies this`totInstRace, this`accNrTotInstRace
      ensures r.None? <==> Records(lines).None?
      ensures Records(lines).Some? ==>
        var records := Records(lines).value;
        && r == Some(FileOf(records, normalRace))
        && totInstRace == Tallied(old(totInstRace), records, normalRace)
        && accNrTotInstRace == old(accNrTotInstRace) + [|totInstRace|]
    {
      var file, pos := RaceFile([], []), 0;
      ghost var done: seq<Record> := [];
      StartReading(lines);
      hide Records, FirstRecord, ParseInst, FirstNumber, Listed;
      while pos < |lines|
        invariant pos <= |lines|
        invariant Records(lines) == Prefixed(done, Records(lines[pos..]))
        invariant file == FileOf(done, normalRace) && totInstRace == Tallied(old(totInstRace), done, normalRace)
        invariant accNrTotInstRace == old(accNrTotInstRace)
      {
        NextRecord(lines, pos, done);
        RecordAt(lines, pos);
        var race := ParseInst(lines[pos]);
        if race.None? {
          return None;
        }
        var key := race.value.Key();
        if key in normalRace {
          var b := IsListed(file.normals, key);
          file := if b then file else file.(normals := file.normals + [race.value]);
        } else {
          var b := IsListed(file.races, key);
          file := if b then file else file.(races := file.races + [race.value]);
          totInstRace := totInstRace[key := CountOf(totInstRace, key) + 1];
        }
        if pos + 1 == |lines| {
          return None;
        }
        var num := FirstNumber(lines[pos + 1]);
        if num.None? || |lines| - (pos + 2) < num.value {
          return None;
        }
        ghost var record := Record(race.value, lines[pos + 2..pos + 2 + num.value]);
        assert (done + [record])[..|done|] == done;
        done := done + [record];
        pos := pos + 2 + num.value;
      }
      StopReading(lines, done);
      accNrTotInstRace := accNrTotInstRace + [|totInstRace|];
      r := Some(file);
    }
  }

  // ----- keys -----------------------------------------------------------------------

  /** Under which key the reader files the pair the writer calls `k`. */
  function KeyText(k: (nat, nat)): Key {
    if LexLess(Dec(k.1), Dec(k.0)) then (Dec(k.1), Dec(k.0)) else (Dec(k.0), Dec(k.1))
  }

  /** Ordering the decimals as strings does not confuse pairs that are ordered as numbers. */
  lemma KeyTextInjective(k: (nat, nat), l: (nat, nat))
    requires k.0 <= k.1 && l.0 <= l.1
    ensures KeyText(k) == KeyText(l) <==> k == l
  {
    hide Dec, LexLess;
    DecInjective(k.0, l.0);
    DecInjective(k.0, l.1);
    DecInjective(k.1, l.0);
    DecInjective(k.1, l.1);
  }

  /** Two races read alike exactly when all their numbers agree. */
  lemma ReadRunExact(r: RuntimeRace, s: RuntimeRace)
    ensures ReadRun(r) == ReadRun(s) <==>
      && r.first.tid == s.first.tid && r.first.ts == s.first.ts && r.first.inst == s.first.inst
      && r.second.tid == s.second.tid && r.second.ts == s.second.ts && r.second.inst == s.second.inst
      && r.first.addr == s.first.addr
  {
    hide Dec;
    DecInjective(r.first.tid, s.first.tid);
    DecInjective(r.first.ts, s.first.ts);
    DecInjective(r.first.inst, s.first.inst);
    DecInjective(r.second.tid, s.second.tid);
    DecInjective(r.second.ts, s.second.ts);
    DecInjective(r.second.inst, s.second.inst);
    DecInjective(r.first.addr, s.first.addr);
  }

  // ----- what the scripts see of a dumped table -------------------------------------

  function KeyOf(e: Entry): Key { KeyText(e.pair.Key()) }

  lemma RecordKey(e: Entry)
    ensures RecordOf(e).race.Key() == KeyOf(e)
  {
    hide Dec, LexLess;
  }

  /** Entries of a table have different keys on the reader's side too. */
  lemma KeysDiffer(es: seq<Entry>, i: nat, j: nat)
    requires Sorted(es) && Filled(es) && i < j < |es|
    ensures KeyOf(es[i]) != KeyOf(es[j])
  {
    KeyTextInjective(es[i].pair.Key(), es[j].pair.Key());
  }

  /** The buckets are those of the table: one for each target entry, with all its races, in order. */
  ghost predicate BucketsExact(m: RunsByPair, es: seq<Entry>, targets: set<Key>) {
    && (forall i :: 0 <= i < |es| && KeyOf(es[i]) in targets ==>
          KeyOf(es[i]) in m && m[KeyOf(es[i])] == ReadRuns(es[i].runs))
    && (forall key :: key in m ==> key in targets && exists i :: 0 <= i < |es| && KeyOf(es[i]) == key)
    && ((forall i :: 0 <= i < |es| ==> KeyOf(es[i]) in targets) ==> |m| == |es|)
  }

  predicate Has(es: seq<Entry>, k: (nat, nat)) { exists i :: 0 <= i < |es| && es[i].pair.Key() == k }

  lemma InitOf(es: seq<Entry>)
    requires es != [] && Sorted(es) && Filled(es)
    ensures
      var init, last := es[..|es| - 1], es[|es| - 1];
      && Sorted(init) && Filled(init)
      && RecordsOf(es)[..|es| - 1] == RecordsOf(init) && RecordsOf(es)[|es| - 1] == RecordOf(last)
      && RecordOf(last).race.Key() == KeyOf(last)
      && (forall i :: 0 <= i < |init| ==> KeyOf(init[i]) != KeyOf(last))
      && !Has(init, last.pair.Key())
  {
    var init, last := es[..|es| - 1], es[|es| - 1];
    LastRecord(es);
    RecordKey(last);
    hide RecordOf, KeyOf;
    forall i | 0 <= i < |init| ensures KeyOf(init[i]) != KeyOf(last) {
      KeysDiffer(es, i, |es| - 1);
    }
  }

  lemma BucketStep(m: RunsByPair, es: seq<Entry>, targets: set<Key>) returns (m': RunsByPair)
    requires es != [] && BucketsExact(m, es[..|es| - 1], targets)
    requires
      var init := es[..|es| - 1];
      forall i :: 0 <= i < |init| ==> KeyOf(init[i]) != KeyOf(es[|es| - 1])
    ensures
      var last := es[|es| - 1];
      m' == if KeyOf(last) in targets then m[KeyOf(last) := Bucket(m, KeyOf(last)) + ReadRuns(last.runs)] else m
    ensures BucketsExact(m', es, targets)
  {
    hide KeyOf, ReadRuns;
    var init, last := es[..|es| - 1], es[|es| - 1];
    m' := if KeyOf(last) in targets then m[KeyOf(last) := Bucket(m, KeyOf(last)) + ReadRuns(last.runs)] else m;
    assert KeyOf(last) !in m;
    assert [] + ReadRuns(last.runs) == ReadRuns(last.runs);
    forall i | 0 <= i < |es| && KeyOf(es[i]) in targets
      ensures KeyOf(es[i]) in m' && m'[KeyOf(es[i])] == ReadRuns(es[i].runs)
    {
      if i < |init| {
        assert KeyOf(init[i]) != KeyOf(last);
      }
    }
    forall key | key in m' ensures key in targets && exists i :: 0 <= i < |es| && KeyOf(es[i]) == key {
      if key in m {
        var i :| 0 <= i < |init| && KeyOf(init[i]) == key;
        assert KeyOf(es[i]) == key;
      } else {
        assert KeyOf(es[|es| - 1]) == key;
      }
    }
  }

  /** From the records of a dumped table, the reader builds exactly the table's buckets. */
  lemma {:induction false} GatherDump(es: seq<Entry>, targets: set<Key>) returns (m: RunsByPair)
    requires Sorted(es) && Filled(es)
    ensures Gather(RecordsOf(es), targets) == Some(m) && BucketsExact(m, es, targets)
  {
    if es == [] {
      m := map[];
      assert RecordsOf(es) == [];
    } else {
      var last := es[|es| - 1];
      InitOf(es);
      var m0 := GatherDump(es[..|es| - 1], targets);
      RunsRoundTrip(last.runs);
      m := BucketStep(m0, es, targets);
      assert RecordOf(last).runs == RunLines(last.runs) && |RunLines(last.runs)| == |last.runs| > 0;
    }
  }

  /** Loading the runtime races of a dumped table succeeds and recovers each target pair with
      its full list of races, in order. */
  lemma RuntimeRacesRecovered(es: seq<Entry>, targets: set<Key>) returns (m: RunsByPair)
    requires Sorted(es) && Filled(es)
    ensures Records(Lines(Dump(es))).Some? && Gather(Records(Lines(Dump(es))).value, targets) == Some(m)
    ensures BucketsExact(m, es, targets)
  {
    FileRoundTrip(es);
    m := GatherDump(es, targets);
  }

  lemma TallyLast(es: seq<Entry>, tot: Tally, normal: set<Key>)
    requires es != [] && Sorted(es) && Filled(es)
    ensures
      var t, key := Tallied(tot, RecordsOf(es[..|es| - 1]), normal), KeyOf(es[|es| - 1]);
      Tallied(tot, RecordsOf(es), normal) == if key in normal then t else t[key := CountOf(t, key) + 1]
  {
    InitOf(es);
    hide RecordOf, KeyOf, Sorted, Filled, CountOf;
  }

  lemma {:induction false} TallyDump(es: seq<Entry>, tot: Tally, normal: set<Key>, k: (nat, nat))
    requires Sorted(es) && Filled(es) && k.0 <= k.1
    ensures CountOf(Tallied(tot, RecordsOf(es), normal), KeyText(k)) ==
            CountOf(tot, KeyText(k)) + if KeyText(k) !in normal && Has(es, k) then 1 else 0
  {
    if es == [] {
      assert RecordsOf(es) == [];
    } else {
      var init, last := es[..|es| - 1], es[|es| - 1];
      InitOf(es);
      KeyTextInjective(k, last.pair.Key());
      hide KeyText, RecordsOf, RecordOf, Sorted, Filled, Tallied, Has;
      TallyDump(init, tot, normal, k);
      TallyLast(es, tot, normal);
      HasInit(es, k);
    }
  }

  lemma HasInit(es: seq<Entry>, k: (nat, nat))
    requires es != []
    ensures Has(es, k) <==> Has(es[..|es| - 1], k) || es[|es| - 1].pair.Key() == k
  {
    var init := es[..|es| - 1];
    if Has(init, k) {
      var i :| 0 <= i < |init| && init[i].pair.Key() == k;
      assert es[i].pair.Key() == k;
    }
    if Has(es, k) {
      var i :| 0 <= i < |es| && es[i].pair.Key() == k;
      assert i < |init| ==> init[i].pair.Key() == k;
    }
  }

  /** How many tables contain the pair. */
  function TablesWith(tables: seq<seq<Entry>>, k: (nat, nat)): nat {
    if tables == [] then 0
    else TablesWith(tables[..|tables| - 1], k) + if Has(tables[|tables| - 1], k) then 1 else 0
  }

  function DumpedLines(tables: seq<seq<Entry>>): seq<seq<string>> {
    seq(|tables|, i requires 0 <= i < |tables| => Lines(Dump(tables[i])))
  }

  lemma DumpedLast(tables: seq<seq<Entry>>, normal: set<Key>)
    requires tables != []
    ensures
      var n := |tables| - 1;
      && DumpedLines(tables) == DumpedLines(tables[..n]) + [Lines(Dump(tables[n]))]
      && TalliedAll(map[], DumpedLines(tables), normal) ==
         var t := TalliedAll(map[], DumpedLines(tables[..n]), normal);
         match Records(Lines(Dump(tables[n]))) case None => t case Some(rs) => Tallied(t, rs, normal)
  {
    hide Records, Dump, Lines, Tallied;
    var n, lines := |tables| - 1, DumpedLines(tables);
    assert lines == DumpedLines(tables[..n]) + [Lines(Dump(tables[n]))];
    assert lines[..n] == DumpedLines(tables[..n]);
  }

  /** After loading dumped tables, a pair is counted once for every table that contains it. */
  lemma {:induction false} CountsAgree(tables: seq<seq<Entry>>, normal: set<Key>, k: (nat, nat))
    requires forall i :: 0 <= i < |tables| ==> Sorted(tables[i]) && Filled(tables[i])
    requires k.0 <= k.1
    ensures CountOf(TalliedAll(map[], DumpedLines(tables), normal), KeyText(k)) ==
            if KeyText(k) in normal then 0 else TablesWith(tables, k)
  {
    if tables == [] {
      assert DumpedLines(tables) == [];
    } else {
      var n := |tables| - 1;
      FileRoundTrip(tables[n]);
      TallyDump(tables[n], TalliedAll(map[], DumpedLines(tables[..n]), normal), normal, k);
      hide Records, Dump, Lines, KeyText, Tallied, Sorted, Filled, CountOf, DumpedLines, TalliedAll, Has, RecordsOf;
      CountsAgree(tables[..n], normal, k);
      DumpedLast(tables, normal);
    }
  }

  lemma ListLast(es: seq<Entry>, normal: set<Key>)
    requires es != [] && Sorted(es) && Filled(es)
    ensures
      var f, race := FileOf(RecordsOf(es[..|es| - 1]), normal), ReadPair(es[|es| - 1].pair);
      && race.Key() == KeyOf(es[|es| - 1])
      && FileOf(RecordsOf(es), normal) ==
         if race.Key() in normal then f.(normals := AddDistinct(f.normals, race))
         else f.(races := AddDistinct(f.races, race))
  {
    InitOf(es);
    hide ReadPair, KeyOf, Sorted, Filled, AddDistinct;
  }

  /** Every entry of a dumped table is listed exactly once, as normal or as a race. */
  lemma {:induction false} ListsDump(es: seq<Entry>, normal: set<Key>)
    requires Sorted(es) && Filled(es)
    ensures
      var f := FileOf(RecordsOf(es), normal);
      && |f.races| + |f.normals| == |es|
      && (forall r :: r in f.races <==> r.Key() !in normal && r in ReadPairs(es))
      && (forall r :: r in f.normals <==> r.Key() in normal && r in ReadPairs(es))
  {
    if es == [] {
      assert RecordsOf(es) == [];
    } else {
      var init, last := es[..|es| - 1], es[|es| - 1];
      InitOf(es);
      assert ReadPairs(es) == ReadPairs(init) + [ReadPair(last.pair)];
      ListLast(es, normal);
      hide ReadPair, RecordsOf, RecordOf, KeyOf, Sorted, Filled, FileOf, Listed, ReadPairs;
      ListsDump(init, normal);
      NotListed(init, normal, KeyOf(last));
    }
  }

  function ReadPairs(es: seq<Entry>): seq<InstRace> {
    seq(|es|, i requires 0 <= i < |es| => ReadPair(es[i].pair))
  }

  lemma NotListed(es: seq<Entry>, normal: set<Key>, key: Key)
    requires forall i :: 0 <= i < |es| ==> KeyOf(es[i]) != key
    requires
      var f := FileOf(RecordsOf(es), normal);
      && (forall r :: r in f.races ==> r in ReadPairs(es))
      && (forall r :: r in f.normals ==> r in ReadPairs(es))
    ensures
      var f := FileOf(RecordsOf(es), normal);
      !Listed(f.races, key) && !Listed(f.normals, key)
  {
    hide FileOf, ReadPair, RecordsOf;
    forall r | r in ReadPairs(es) ensures r.Key() != key {
      var i :| 0 <= i < |es| && ReadPair(es[i].pair) == r;
      RecordKey(es[i]);
    }
  }
}
