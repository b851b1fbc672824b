// The race file: written by the detector from its race table, read back by the scripts.
module RaceFiles {
  import opened RaceText
  import opened Events
  import opened RaceTable

  // ----- the writer -----------------------------------------------------------------

  function PairText(p: InstPair): string {
    (Dec(p.first) + ":" + [p.firstOp]) + " " + (Dec(p.second) + ":" + [p.secondOp])
  }

  function EventText(e: Event): string { Dec(e.tid) + ":" + (Dec(e.ts) + ":" + Dec(e.inst)) }

  function RunText(r: RuntimeRace): string {
    EventText(r.first) + " " + EventText(r.second) + " " + Dec(r.first.addr)
  }

  function CountText(n: nat): string { "--- " + Dec(n) + " ---" }

  function RunsText(runs: seq<RuntimeRace>): string {
    if runs == [] then "" else RunsText(runs[..|runs| - 1]) + (RunText(runs[|runs| - 1]) + "\n")
  }

  function EntryText(e: Entry): string {
    PairText(e.pair) + "\n" + (CountText(|e.runs|) + "\n" + RunsText(e.runs))
  }

  function Dump(entries: seq<Entry>): string {
    if entries == [] then "" else Dump(entries[..|entries| - 1]) + EntryText(entries[|entries| - 1])
  }

  lemma ExampleDecimals()
    ensures Dec(0) == "0" && Dec(1) == "1" && Dec(3) == "3" && Dec(5) == "5" && Dec(9) == "9"
    ensures Dec(17) == "17" && Dec(4096) == "4096"
  {
    assert Dec(4) == "4" && Dec(40) == Dec(4) + [Digit(0)] && Dec(409) == Dec(40) + [Digit(9)];
  }

  lemma ExampleRun(e: Event, f: Event)
    requires e == Event(3, 5, Load, 1, 4096, 1, 0) && f == Event(17, 9, Store, 0, 4096, 1, 0)
    ensures RunText(RuntimeRace(f, e)) == "0:9:17 1:5:3 4096"
  {
    ExampleDecimals();
    hide Dec;
    assert EventText(f) == "0:9:17" && EventText(e) == "1:5:3";
    hide EventText;
  }

  lemma ExamplePair()
    ensures PairText(InstPair(3, 'r', 17, 'w')) == "3:r 17:w" && CountText(1) == "--- 1 ---"
  {
    ExampleDecimals();
    hide Dec;
  }

  lemma OneRun(r: RuntimeRace)
    ensures RunsText([r]) == RunText(r) + "\n"
  {
    hide RunText;
    assert RunsText([]) == "" && [r][..0] == [];
  }

  /** The format, on one entry: a store of thread 0 and a load of thread 1 that race. */
  lemma PrintedExample(e: Event, f: Event)
    requires e == Event(3, 5, Load, 1, 4096, 1, 0) && f == Event(17, 9, Store, 0, 4096, 1, 0)
    ensures EntryText(Entry(PairOf(RuntimeRace(f, e)), [RuntimeRace(f, e)])) ==
            "3:r 17:w" + "\n" + ("--- 1 ---" + "\n" + ("0:9:17 1:5:3 4096" + "\n"))
  {
    var r := RuntimeRace(f, e);
    assert PairOf(r) == InstPair(3, 'r', 17, 'w');
    ExamplePair();
    ExampleRun(e, f);
    hide RunText, PairText, CountText, Dec, RunsText;
    OneRun(r);
  }

  method PrintEntry(e: Entry, before: string) returns (out: string)
    ensures out == before + EntryText(e)
  {
    hide PairText, CountText, RunText;
    out := before + PairText(e.pair);
    out := out + "\n" + CountText(|e.runs|) + "\n";
    ghost var head := PairText(e.pair) + "\n" + (CountText(|e.runs|) + "\n");
    assert out == before + head;
    for l := 0 to |e.runs|
      invariant out == before + head + RunsText(e.runs[..l])
    {
      assert e.runs[..l + 1][..l] == e.runs[..l];
      Regroup(before + head, RunsText(e.runs[..l]), RunText(e.runs[l]) + "\n");
      Regroup(out, RunText(e.runs[l]), "\n");
      out := out + RunText(e.runs[l]) + "\n";
    }
    assert e.runs[..|e.runs|] == e.runs;
    Regroup(before, head, RunsText(e.runs));
    Regroup(PairText(e.pair) + "\n", CountText(|e.runs|) + "\n", RunsText(e.runs));
  }

  /** Prints the whole table, entry by entry and race by race. */
  method DumpFile(table: InstRaceTable) returns (out: string)
    ensures out == Dump(table.entries)
  {
    out := "";
    hide EntryText;
    for k := 0 to |table.entries|
      invariant out == Dump(table.entries[..k])
    {
      assert table.entries[..k + 1][..k] == table.entries[..k];
      out := PrintEntry(table.entries[k], out);
    }
    assert table.entries[..|table.entries|] == table.entries;
  }

  // ----- the reader -----------------------------------------------------------------

  /** Instructions stay strings on this side; pairs are equal when both strings are. */
  datatype InstRace = InstRace(first: string, firstOp: string, second: string, secondOp: string) {
    function Key(): (string, string) { (first, second) }
  }

  /** The constructor orders the two instructions as strings. */
  function MakeInstRace(first: string, firstOp: string, second: string, secondOp: string): InstRace {
    if LexLess(second, first) then InstRace(second, secondOp, first, firstOp)
    else InstRace(first, firstOp, second, secondOp)
  }

  /** Different instructions give the same pair in whichever order they come. */
  lemma OrderIndependent(a: string, aOp: string, b: string, bOp: string)
    requires a != b
    ensures MakeInstRace(a, aOp, b, bOp) == MakeInstRace(b, bOp, a, aOp)
  {
    LexTotal(a, b);
  }

  /** A line with other than two words, or a word with other than two fields, is an error. */
  function ParseInst(line: string): Option<InstRace> {
    var words := Words(line);
    if |words| != 2 then None
    else
      var a, b := Fields(words[0]), Fields(words[1]);
      if |a| != 2 || |b| != 2 then None else Some(MakeInstRace(a[0], a[1], b[0], b[1]))
  }

  datatype Side = Side(tid: string, ts: string, inst: string)

  datatype RunRecord = RunRecord(first: Side, second: Side, addr: string)

  /** Three words at least; the first two have three fields each. */
  function ParseRun(line: string): Option<RunRecord> {
    var words := Words(line);
    if |words| < 3 then None
    else
      var a, b := Fields(words[0]), Fields(words[1]);
      if |a| != 3 || |b| != 3 then None
      else Some(RunRecord(Side(a[0], a[1], a[2]), Side(b[0], b[1], b[2]), words[2]))
  }

  function ParseRuns(lines: seq<string>): Option<seq<RunRecord>> {
    if lines == [] then Some([])
    else
      match (ParseRuns(lines[..|lines| - 1]), ParseRun(lines[|lines| - 1]))
      case (Some(rs), Some(r)) => Some(rs + [r])
      case _ => None
  }

  /** One entry as read: the pair, and the lines announced by the count. */
  datatype Record = Record(race: InstRace, runs: seq<string>)

  /** A bad pair line, a count line without a number or too few lines are errors. */
  function FirstRecord(lines: seq<string>): (r: Option<Record>)
    requires lines != []
    ensures r.Some? ==> 2 + |r.value.runs| <= |lines|
  {
    match ParseInst(lines[0])
    case None => None
    case Some(race) =>
      if |lines| < 2 then None
      else
        match FirstNumber(lines[1])
        case None => None
        case Some(num) => if |lines| - 2 < num then None else Some(Record(race, lines[2..2 + num]))
  }

  function Prefixed(done: seq<Record>, rest: Option<seq<Record>>): Option<seq<Record>> {
    match rest
    case None => None
    case Some(rs) => Some(done + rs)
  }

  /** The entries of a file. */
  function Records(lines: seq<string>): Option<seq<Record>> {
    if lines == [] then Some([])
    else
      match FirstRecord(lines)
      case None => None
      case Some(record) => Prefixed([record], Records(lines[2 + |record.runs|..]))
  }

  // ----- one line of either kind ----------------------------------------------------

  /** Printable characters that separate nothing. */
  predicate Plain(s: string) { s != "" && All(s, NotSpace) && All(s, NotColon) }

  lemma DecPlain(n: nat)
    ensures Plain(Dec(n)) && All(Dec(n), NotNewline)
  {
    DecValue(n);
  }

  lemma TwoFields(a: string, b: string)
    requires Plain(a) && Plain(b)
    ensures Fields(a + ":" + b) == [a, b] && All(a + ":" + b, NotSpace)
  {
    FirstField(a, b);
    FirstField(b, "");
  }

  lemma ThreeFields(a: string, b: string, c: string)
    requires Plain(a) && Plain(b) && Plain(c)
    ensures Fields(a + ":" + (b + ":" + c)) == [a, b, c] && All(a + ":" + (b + ":" + c), NotSpace)
  {
    TwoFields(b, c);
    FirstField(a, b + ":" + c);
    hide Fields;
  }

  lemma TwoWords(a: string, b: string)
    requires a != "" && b != "" && All(a, NotSpace) && All(b, NotSpace)
    ensures Words(a + " " + b + "\n") == [a, b]
  {
    assert a + " " + b + "\n" == a + (" " + (b + "\n"));
    FirstWord(a, " " + (b + "\n"));
    assert (" " + (b + "\n"))[1..] == b + "\n";
    FirstWord(b, "\n");
    assert "\n"[1..] == "";
  }

  lemma ThreeWords(a: string, b: string, c: string)
    requires a != "" && b != "" && c != "" && All(a, NotSpace) && All(b, NotSpace) && All(c, NotSpace)
    ensures Words(a + " " + b + " " + c + "\n") == [a, b, c]
  {
    assert a + " " + b + " " + c + "\n" == a + (" " + (b + " " + c + "\n"));
    FirstWord(a, " " + (b + " " + c + "\n"));
    assert (" " + (b + " " + c + "\n"))[1..] == b + " " + c + "\n";
    TwoWords(b, c);
  }

  predicate IsOp(c: char) { c == 'r' || c == 'w' }

  /** Which lines are read as an instruction pair: two words, each of two parts with one colon
      between them. */
  lemma PairLineExactly(line: string, r: InstRace)
    ensures ParseInst(line) == Some(r) <==> exists a, aOp, b, bOp :: PairLine(line, a, aOp, b, bOp, r)
  {
    hide Words, Fields, MakeInstRace;
    var words := Words(line);
    if ParseInst(line) == Some(r) {
      var x, y := Fields(words[0]), Fields(words[1]);
      assert x == [x[0], x[1]] && y == [y[0], y[1]] && words == [words[0], words[1]];
      TwoFieldsExactly(words[0], x[0], x[1]);
      TwoFieldsExactly(words[1], y[0], y[1]);
      assert PairLine(line, x[0], x[1], y[0], y[1], r);
    }
    forall a, aOp, b, bOp | PairLine(line, a, aOp, b, bOp, r) ensures ParseInst(line) == Some(r) {
      TwoFieldsExactly(words[0], a, aOp);
      TwoFieldsExactly(words[1], b, bOp);
    }
  }

  predicate PairLine(line: string, a: string, aOp: string, b: string, bOp: string, r: InstRace) {
    && Words(line) == [a + ":" + aOp, b + ":" + bOp]
    && Colonless(a) && Colonless(aOp) && Colonless(b) && Colonless(bOp)
    && r == MakeInstRace(a, aOp, b, bOp)
  }

  predicate EventWord(w: string, e: Side) {
    w == e.tid + ":" + (e.ts + ":" + e.inst) && Colonless(e.tid) && Colonless(e.ts) && Colonless(e.inst)
  }

  /** Which lines are read as a race: three words or more, the first two of three parts each. */
  lemma RunLineExactly(line: string, r: RunRecord)
    ensures ParseRun(line) == Some(r) <==>
      && |Words(line)| >= 3 && Words(line)[2] == r.addr
      && EventWord(Words(line)[0], r.first) && EventWord(Words(line)[1], r.second)
  {
    hide Words, Fields;
    var words := Words(line);
    if |words| >= 3 {
      var x, y := Fields(words[0]), Fields(words[1]);
      ThreeFieldsExactly(words[0], r.first.tid, r.first.ts, r.first.inst);
      ThreeFieldsExactly(words[1], r.second.tid, r.second.ts, r.second.inst);
      if ParseRun(line) == Some(r) {
        assert x == [x[0], x[1], x[2]] && y == [y[0], y[1], y[2]];
      }
    }
  }

  /** What the reader makes of a printed pair. */
  function ReadPair(p: InstPair): InstRace {
    MakeInstRace(Dec(p.first), [p.firstOp], Dec(p.second), [p.secondOp])
  }

  lemma PairRoundTrip(p: InstPair)
    requires IsOp(p.firstOp) && IsOp(p.secondOp)
    ensures ParseInst(PairText(p) + "\n") == Some(ReadPair(p)) && All(PairText(p), NotNewline)
  {
    DecPlain(p.first);
    DecPlain(p.second);
    var a, b := Dec(p.first) + ":" + [p.firstOp], Dec(p.second) + ":" + [p.secondOp];
    TwoFields(Dec(p.first), [p.firstOp]);
    TwoFields(Dec(p.second), [p.secondOp]);
    hide Dec, Fields, Words;
    TwoWords(a, b);
    assert PairText(p) == a + " " + b;
  }

  /** What the reader makes of a printed race: every number, as text, in its place. */
  function ReadRun(r: RuntimeRace): RunRecord {
    RunRecord(Side(Dec(r.first.tid), Dec(r.first.ts), Dec(r.first.inst)),
              Side(Dec(r.second.tid), Dec(r.second.ts), Dec(r.second.inst)), Dec(r.first.addr))
  }

  lemma EventPlain(e: Event)
    ensures Fields(EventText(e)) == [Dec(e.tid), Dec(e.ts), Dec(e.inst)]
    ensures EventText(e) != "" && All(EventText(e), NotSpace)
  {
    DecPlain(e.tid);
    DecPlain(e.ts);
    DecPlain(e.inst);
    ThreeFields(Dec(e.tid), Dec(e.ts), Dec(e.inst));
  }

  lemma RunRoundTrip(r: RuntimeRace)
    ensures ParseRun(RunText(r) + "\n") == Some(ReadRun(r)) && All(RunText(r), NotNewline)
  {
    EventPlain(r.first);
    EventPlain(r.second);
    DecPlain(r.first.addr);
    hide EventText, Dec, Fields, Words;
    ThreeWords(EventText(r.first), EventText(r.second), Dec(r.first.addr));
  }

  lemma CountRoundTrip(n: nat)
    ensures FirstNumber(CountText(n) + "\n") == Some(n) && All(CountText(n), NotNewline)
  {
    DecPlain(n);
    hide Dec, FirstNumber;
    Regroup("--- " + Dec(n), " ---", "\n");
    assert " ---" + "\n" == " ---\n";
    FindsNumber("--- ", n, " ---\n");
  }

  // ----- whole files ----------------------------------------------------------------

  function RunLines(runs: seq<RuntimeRace>): seq<string> {
    seq(|runs|, i requires 0 <= i < |runs| => RunText(runs[i]) + "\n")
  }

  function ReadRuns(runs: seq<RuntimeRace>): seq<RunRecord> {
    seq(|runs|, i requires 0 <= i < |runs| => ReadRun(runs[i]))
  }

  function RecordOf(e: Entry): Record { Record(ReadPair(e.pair), RunLines(e.runs)) }

  function RecordsOf(entries: seq<Entry>): seq<Record> {
    seq(|entries|, i requires 0 <= i < |entries| => RecordOf(entries[i]))
  }

  lemma LastRun(runs: seq<RuntimeRace>)
    requires runs != []
    ensures
      var init, last := runs[..|runs| - 1], runs[|runs| - 1];
      && RunLines(runs) == RunLines(init) + [RunText(last) + "\n"]
      && ReadRuns(runs) == ReadRuns(init) + [ReadRun(last)]
  {
    hide RunText, ReadRun;
  }

  lemma RunsStep(runs: seq<RuntimeRace>, rest: string, lines: seq<string>)
    requires runs != []
    requires
      var init, last := runs[..|runs| - 1], RunText(runs[|runs| - 1]) + "\n";
      Lines(RunsText(init) + (last + rest)) == RunLines(init) + ([last] + lines)
    ensures Lines(RunsText(runs) + rest) == RunLines(runs) + lines
  {
    hide Lines, RunText, RunLines, ReadRuns, ReadRun;
    var init, last := runs[..|runs| - 1], RunText(runs[|runs| - 1]) + "\n";
    LastRun(runs);
    Regroup(RunsText(init), last, rest);
    Regroup(RunLines(init), [last], lines);
  }

  lemma {:induction false} RunsSplit(runs: seq<RuntimeRace>, rest: string)
    ensures Lines(RunsText(runs) + rest) == RunLines(runs) + Lines(rest)
    decreases |runs|
  {
    hide Lines, RunText;
    if runs == [] {
      assert "" + rest == rest && RunLines(runs) + Lines(rest) == Lines(rest);
    } else {
      hide RunsText, RunLines;
      var init, last := runs[..|runs| - 1], runs[|runs| - 1];
      RunRoundTrip(last);
      FirstLine(RunText(last), rest);
      RunsSplit(init, RunText(last) + "\n" + rest);
      RunsStep(runs, rest, Lines(rest));
    }
  }

  lemma {:induction false} RunsRoundTrip(runs: seq<RuntimeRace>)
    ensures ParseRuns(RunLines(runs)) == Some(ReadRuns(runs))
  {
    if runs == [] {
      assert RunLines(runs) == [] && ReadRuns(runs) == [];
    } else {
      var init, last := runs[..|runs| - 1], runs[|runs| - 1];
      LastRun(runs);
      RunsRoundTrip(init);
      RunRoundTrip(last);
      hide RunText, ReadRun, ParseRun, RunLines, ReadRuns;
      var lines := RunLines(runs);
      assert lines[..|lines| - 1] == RunLines(init);
    }
  }

  predicate OpsKnown(entries: seq<Entry>) {
    forall i :: 0 <= i < |entries| ==> IsOp(entries[i].pair.firstOp) && IsOp(entries[i].pair.secondOp)
  }

  lemma EntrySplit(e: Entry, rest: string)
    requires IsOp(e.pair.firstOp) && IsOp(e.pair.secondOp)
    ensures Lines(EntryText(e) + rest) ==
            [PairText(e.pair) + "\n", CountText(|e.runs|) + "\n"] + RunLines(e.runs) + Lines(rest)
  {
    PairRoundTrip(e.pair);
    CountRoundTrip(|e.runs|);
    RunsSplit(e.runs, rest);
    hide PairText, CountText, Lines, RunsText, RunLines;
    var pair, count, runs := PairText(e.pair), CountText(|e.runs|), RunsText(e.runs);
    Regroup(pair + "\n", count + "\n" + runs, rest);
    Regroup(count + "\n", runs, rest);
    FirstLine(pair, count + "\n" + (runs + rest));
    FirstLine(count, runs + rest);
    Regroup([pair + "\n"], [count + "\n"], RunLines(e.runs) + Lines(rest));
    Regroup([pair + "\n", count + "\n"], RunLines(e.runs), Lines(rest));
  }

  lemma EntryRoundTrip(e: Entry, lines: seq<string>)
    requires IsOp(e.pair.firstOp) && IsOp(e.pair.secondOp) && Records(lines).Some?
    ensures Records([PairText(e.pair) + "\n", CountText(|e.runs|) + "\n"] + RunLines(e.runs) + lines) ==
            Some([RecordOf(e)] + Records(lines).value)
  {
    PairRoundTrip(e.pair);
    CountRoundTrip(|e.runs|);
    hide PairText, CountText, ParseInst, FirstNumber;
    var all := [PairText(e.pair) + "\n", CountText(|e.runs|) + "\n"] + RunLines(e.runs) + lines;
    assert all[2..2 + |e.runs|] == RunLines(e.runs) && all[2 + |e.runs|..] == lines;
  }

  lemma LastRecord(entries: seq<Entry>)
    requires entries != []
    ensures RecordsOf(entries) == RecordsOf(entries[..|entries| - 1]) + [RecordOf(entries[|entries| - 1])]
  {
    hide RecordOf;
  }

  lemma DumpStep(entries: seq<Entry>, rest: string, records: seq<Record>)
    requires entries != []
    requires
      var init, last := entries[..|entries| - 1], entries[|entries| - 1];
      Records(Lines(Dump(init) + (EntryText(last) + rest))) == Some(RecordsOf(init) + ([RecordOf(last)] + records))
    ensures Records(Lines(Dump(entries) + rest)) == Some(RecordsOf(entries) + records)
  {
    hide EntryText, Lines, Records, RecordsOf, RecordOf;
    var init, last := entries[..|entries| - 1], entries[|entries| - 1];
    Regroup(Dump(init), EntryText(last), rest);
    LastRecord(entries);
    Regroup(RecordsOf(init), [RecordOf(last)], records);
  }

  lemma {:induction false} DumpSplit(entries: seq<Entry>, rest: string)
    requires OpsKnown(entries) && Records(Lines(rest)).Some?
    ensures Records(Lines(Dump(entries) + rest)) == Some(RecordsOf(entries) + Records(Lines(rest)).value)
    decreases |entries|
  {
    hide EntryText, Lines, Records, RecordOf, PairText, CountText, RunLines;
    if entries == [] {
      assert "" + rest == rest && RecordsOf(entries) + Records(Lines(rest)).value == Records(Lines(rest)).value;
    } else {
      hide Dump, RecordsOf;
      var init, last := entries[..|entries| - 1], entries[|entries| - 1];
      EntrySplit(last, rest);
      EntryRoundTrip(last, Lines(rest));
      DumpSplit(init, EntryText(last) + rest);
      DumpStep(entries, rest, Records(Lines(rest)).value);
    }
  }

  /** Reading a dumped table recovers every entry, in order, with all its races, in order. */
  lemma FileRoundTrip(entries: seq<Entry>)
    requires OpsKnown(entries)
    ensures Records(Lines(Dump(entries))) == Some(RecordsOf(entries))
  {
    assert Records(Lines("")) == Some([]);
    DumpSplit(entries, "");
    hide Dump, Lines, Records, RecordsOf;
    assert RecordsOf(entries) + [] == RecordsOf(entries);
    assert Dump(entries) + "" == Dump(entries);
  }
}
