// Text primitives of the race file: decimal printing on the writer's side, splitting into
// lines, words and fields on the reader's side.
module RaceText {
  datatype Option<T> = None | Some(value: T)

  predicate IsDigit(c: char) { '0' <= c <= '9' }

  predicate IsSpace(c: char) { c == ' ' || '\t' <= c <= '\r' }

  predicate All(s: string, p: char -> bool) { forall i :: 0 <= i < |s| ==> p(s[i]) }

  lemma Regroup<T>(a: seq<T>, b: seq<T>, c: seq<T>)
    ensures a + b + c == a + (b + c)
  {
  }

  // ----- decimals -------------------------------------------------------------------

  function Digit(d: nat): (c: char)
    requires d < 10
    ensures IsDigit(c) && c as int == '0' as int + d
  {
    (d + 48) as char
  }

  /** How an unsigned number is printed. */
  function Dec(n: nat): string {
    if n < 10 then [Digit(n)] else Dec(n / 10) + [Digit(n % 10)]
  }

  /** How a run of digits is read. */
  function Value(s: string): nat
    requires All(s, IsDigit)
  {
    if s == "" then 0 else Value(s[..|s| - 1]) * 10 + (s[|s| - 1] as int - '0' as int)
  }

  lemma {:induction false} DecValue(n: nat)
    ensures Dec(n) != "" && All(Dec(n), IsDigit) && Value(Dec(n)) == n
  {
    if n >= 10 {
      DecValue(n / 10);
      assert Dec(n)[..|Dec(n)| - 1] == Dec(n / 10);
    }
  }

  lemma DecInjective(m: nat, n: nat)
    ensures Dec(m) == Dec(n) <==> m == n
  {
    DecValue(m);
    DecValue(n);
  }

  // ----- spans ----------------------------------------------------------------------

  /** The length of the longest prefix whose characters all satisfy `p`. */
  function Span(s: string, p: char -> bool): (k: nat)
    ensures k <= |s| && (forall i :: 0 <= i < k ==> p(s[i])) && (k < |s| ==> !p(s[k]))
  {
    if s == "" || !p(s[0]) then 0 else 1 + Span(s[1..], p)
  }

  lemma SpanExact(w: string, rest: string, p: char -> bool)
    requires All(w, p) && (rest != "" ==> !p(rest[0]))
    ensures Span(w + rest, p) == |w|
  {
    var s := w + rest;
    assert forall i :: 0 <= i < |w| ==> s[i] == w[i];
    assert rest != "" ==> s[|w|] == rest[0];
  }

  // ----- reading --------------------------------------------------------------------

  predicate NotNewline(c: char) { c != '\n' }

  predicate NotColon(c: char) { c != ':' }

  predicate NotSpace(c: char) { !IsSpace(c) }

  predicate NotDigit(c: char) { !IsDigit(c) }

  /** The lines of a file, each with its newline; the last one may lack it. */
  function Lines(s: string): seq<string> {
    var k := Span(s, NotNewline);
    if s == "" then [] else if k == |s| then [s] else [s[..k + 1]] + Lines(s[k + 1..])
  }

  /** Splitting at white space, however much of it. */
  function Words(s: string): seq<string> {
    if s == "" then []
    else if IsSpace(s[0]) then Words(s[1..])
    else
      var k := Span(s, NotSpace);
      [s[..k]] + Words(s[k..])
  }

  /** Splitting at every colon. */
  function Fields(s: string): seq<string> {
    var k := Span(s, NotColon);
    if k == |s| then [s] else [s[..k]] + Fields(s[k + 1..])
  }

  /** The first run of digits as a number; a line without digits is an error. */
  function FirstNumber(s: string): Option<nat> {
    var k := Span(s, NotDigit);
    var digits := s[k..][..Span(s[k..], IsDigit)];
    if digits == "" then None else Some(Value(digits))
  }

  lemma FirstLine(w: string, rest: string)
    requires All(w, NotNewline)
    ensures Lines(w + "\n" + rest) == [w + "\n"] + Lines(rest)
  {
    var s := w + ("\n" + rest);
    assert s == w + "\n" + rest;
    SpanExact(w, "\n" + rest, NotNewline);
    assert s[..|w| + 1] == w + "\n" && s[|w| + 1..] == rest;
  }

  lemma FirstWord(w: string, rest: string)
    requires w != "" && All(w, NotSpace) && (rest != "" ==> IsSpace(rest[0]))
    ensures Words(w + rest) == [w] + Words(rest)
  {
    var s := w + rest;
    SpanExact(w, rest, NotSpace);
    assert s[0] == w[0] && NotSpace(w[0]);
    assert s[..|w|] == w && s[|w|..] == rest;
  }

  lemma FirstField(w: string, rest: string)
    requires All(w, NotColon)
    ensures Fields(w + ":" + rest) == [w] + Fields(rest)
    ensures Fields(w) == [w]
  {
    var s := w + (":" + rest);
    assert s == w + ":" + rest;
    SpanExact(w, ":" + rest, NotColon);
    SpanExact(w, "", NotColon);
    assert w + "" == w;
    assert s[..|w|] == w && s[|w| + 1..] == rest;
  }

  /** A number between other characters is the one found. */
  lemma FindsNumber(before: string, n: nat, after: string)
    requires All(before, NotDigit) && (after != "" ==> NotDigit(after[0]))
    ensures FirstNumber(before + Dec(n) + after) == Some(n)
  {
    DecValue(n);
    var s := before + (Dec(n) + after);
    assert s == before + Dec(n) + after;
    SpanExact(before, Dec(n) + after, NotDigit);
    assert s[|before|..] == Dec(n) + after;
    SpanExact(Dec(n), after, IsDigit);
    assert (Dec(n) + after)[..|Dec(n)|] == Dec(n);
  }

  // ----- order of strings -----------------------------------------------------------

  /** Character by character; a proper prefix is smaller. */
  predicate LexLess(a: string, b: string) {
    b != "" && (a == "" || a[0] < b[0] || (a[0] == b[0] && LexLess(a[1..], b[1..])))
  }

  lemma {:induction false} LexTotal(a: string, b: string)
    ensures a == b || LexLess(a, b) || LexLess(b, a)
    ensures !(LexLess(a, b) && LexLess(b, a)) && !LexLess(a, a)
    decreases |a|
  {
    if a != "" {
      LexTotal(a[1..], a[1..]);
      if b != "" {
        LexTotal(a[1..], b[1..]);
        if a[0] == b[0] && a[1..] == b[1..] {
          assert a == [a[0]] + a[1..] && b == [b[0]] + b[1..];
        }
      }
    }
  }

  /** The first difference decides, and a proper prefix is smaller. */
  ghost predicate SmallerAt(a: string, b: string, i: nat) {
    i <= |a| && i < |b| && a[..i] == b[..i] && (i == |a| || a[i] < b[i])
  }

  lemma {:induction false} LexExactly(a: string, b: string)
    ensures LexLess(a, b) <==> exists i: nat :: SmallerAt(a, b, i)
    decreases |a|
  {
    if a != "" && b != "" {
      LexExactly(a[1..], b[1..]);
      if a[0] == b[0] && LexLess(a[1..], b[1..]) {
        var i: nat :| SmallerAt(a[1..], b[1..], i);
        assert a[..i + 1] == [a[0]] + a[1..][..i] && b[..i + 1] == [b[0]] + b[1..][..i];
        assert SmallerAt(a, b, i + 1);
      }
      if a[0] < b[0] {
        assert SmallerAt(a, b, 0);
      }
      forall i: nat | SmallerAt(a, b, i) ensures LexLess(a, b) {
        SmallerTails(a, b, i);
      }
    } else if b != "" {
      assert SmallerAt(a, b, 0);
    }
  }

  lemma SmallerTails(a: string, b: string, i: nat)
    requires a != "" && b != "" && SmallerAt(a, b, i)
    ensures a[0] < b[0] || (a[0] == b[0] && i > 0 && SmallerAt(a[1..], b[1..], i - 1))
  {
    if i > 0 {
      assert a[..i][0] == a[0] && b[..i][0] == b[0];
      assert a[1..][..i - 1] == a[..i][1..] && b[1..][..i - 1] == b[..i][1..];
    }
  }

  // ----- splitting, said of the characters ------------------------------------------

  /** Blank, tabulator, line feed, vertical tabulator, form feed, carriage return. */
  predicate Blank(c: char) { c as int in {32, 9, 10, 11, 12, 13} }

  /** White space separates words and belongs to none; a text without any is one word. */
  lemma {:induction false} WordsSplit(a: string, c: char, b: string)
    requires Blank(c)
    ensures Words(a + [c] + b) == Words(a) + Words(b)
    decreases |a|
  {
    Regroup(a, [c], b);
    if a == "" {
      assert (a + [c] + b)[1..] == b;
    } else if IsSpace(a[0]) {
      assert (a + [c] + b)[1..] == a[1..] + [c] + b;
      WordsSplit(a[1..], c, b);
    } else {
      var k := Span(a, NotSpace);
      SpanLonger(a, [c] + b);
      assert (a + [c] + b)[..k] == a[..k] && (a + [c] + b)[k..] == a[k..] + [c] + b;
      WordsSplit(a[k..], c, b);
      WordThen(a);
      WordThen(a + [c] + b);
      hide Words, Span;
      Regroup([a[..k]], Words(a[k..]), Words(b));
    }
  }

  lemma WordThen(s: string)
    requires s != "" && !IsSpace(s[0])
    ensures
      var k := Span(s, NotSpace);
      k > 0 && Words(s) == [s[..k]] + Words(s[k..])
  {
  }

  lemma SpanLonger(a: string, b: string)
    requires b != "" && IsSpace(b[0])
    ensures Span(a + b, NotSpace) == Span(a, NotSpace)
  {
    var k := Span(a, NotSpace);
    assert a + b == a[..k] + (a[k..] + b);
    SpanExact(a[..k], a[k..] + b, NotSpace);
  }

  lemma WordsOne(w: string)
    requires forall i :: 0 <= i < |w| ==> !Blank(w[i])
    ensures Words(w) == if w == "" then [] else [w]
  {
    if w != "" {
      assert w + "" == w && Words("") == [];
      FirstWord(w, "");
    }
  }

  /** Every colon separates two fields; a text without any is one field. */
  lemma {:induction false} FieldsSplit(a: string, b: string)
    ensures Fields(a + ":" + b) == Fields(a) + Fields(b)
    decreases |a|
  {
    var k, s := Span(a, NotColon), a + ":" + b;
    if k == |a| {
      FirstField(a, b);
    } else {
      assert s == a[..k] + ":" + (a[k + 1..] + ":" + b);
      FieldsSplit(a[k + 1..], b);
      FirstField(a[..k], a[k + 1..] + ":" + b);
    }
  }

  lemma FieldsOne(w: string)
    requires forall i :: 0 <= i < |w| ==> w[i] != ':'
    ensures Fields(w) == [w]
  {
    FirstField(w, "");
  }

  predicate Colonless(s: string) { forall i :: 0 <= i < |s| ==> s[i] != ':' }

  lemma ColonAt(w: string, k: nat)
    requires k < |w| && w[k] == ':'
    ensures w == w[..k] + ":" + w[k + 1..]
  {
    assert w == w[..k] + [w[k]] + w[k + 1..];
  }

  lemma FieldsSome(w: string)
    ensures Fields(w) != []
  {
  }

  lemma FieldsEnd(w: string)
    requires Span(w, NotColon) == |w|
    ensures Fields(w) == [w] && Colonless(w)
  {
    hide Fields;
    FirstField(w, "");
  }

  lemma FieldsHead(w: string)
    requires Span(w, NotColon) < |w|
    ensures
      var k := Span(w, NotColon);
      && Fields(w) == [w[..k]] + Fields(w[k + 1..]) && Fields(w[k + 1..]) != []
      && Colonless(w[..k]) && w == w[..k] + ":" + w[k + 1..]
  {
    var k := Span(w, NotColon);
    FieldsSome(w[k + 1..]);
    ColonAt(w, k);
    hide Span;
  }

  /** More than one field: the first ends at the first colon. */
  lemma ColonFirst(w: string) returns (k: nat)
    requires |Fields(w)| > 1
    ensures k < |w| && w == w[..k] + ":" + w[k + 1..] && Colonless(w[..k])
    ensures Fields(w) == [w[..k]] + Fields(w[k + 1..])
  {
    k := Span(w, NotColon);
    if k == |w| {
      FieldsEnd(w);
      assert false;
    }
    FieldsHead(w);
  }

  lemma LastField(w: string, b: string)
    requires Fields(w) == [b]
    ensures w == b && Colonless(b)
  {
    if Span(w, NotColon) == |w| {
      FieldsEnd(w);
    } else {
      FieldsHead(w);
      assert false;
    }
  }

  /** Two fields are what one colon separates. */
  lemma TwoFieldsExactly(w: string, a: string, b: string)
    ensures Fields(w) == [a, b] <==> w == a + ":" + b && Colonless(a) && Colonless(b)
  {
    if Fields(w) == [a, b] {
      var k := ColonFirst(w);
      var rest := w[k + 1..];
      hide Fields, Span, Colonless;
      assert Fields(rest) == Fields(w)[1..] == [b] && w[..k] == Fields(w)[0] == a;
      LastField(rest, b);
    }
    if w == a + ":" + b && Colonless(a) && Colonless(b) {
      FirstField(a, b);
      FieldsOne(b);
    }
  }

  /** Three fields are what two colons separate. */
  lemma ThreeFieldsExactly(w: string, a: string, b: string, c: string)
    ensures Fields(w) == [a, b, c] <==>
            w == a + ":" + (b + ":" + c) && Colonless(a) && Colonless(b) && Colonless(c)
  {
    if Fields(w) == [a, b, c] {
      var k := ColonFirst(w);
      var rest := w[k + 1..];
      hide Fields, Span, Colonless;
      assert Fields(rest) == Fields(w)[1..] == [b, c] && w[..k] == Fields(w)[0] == a;
      TwoFieldsExactly(rest, b, c);
    }
    if w == a + ":" + (b + ":" + c) && Colonless(a) && Colonless(b) && Colonless(c) {
      FirstField(a, b + ":" + c);
      TwoFieldsExactly(b + ":" + c, b, c);
    }
  }

  predicate Numeral(c: char) { 48 <= c as int <= 57 }

  /** The first run of decimal digits is the number found; without digits there is none. */
  lemma NumberExactly(before: string, n: nat, after: string)
    requires forall i :: 0 <= i < |before| ==> !Numeral(before[i])
    requires after == "" || !Numeral(after[0])
    ensures FirstNumber(before + Dec(n) + after) == Some(n)
    ensures FirstNumber(before) == None
  {
    hide Dec;
    FindsNumber(before, n, after);
    NoNumber(before);
    hide FirstNumber;
  }

  lemma NoNumber(before: string)
    requires All(before, NotDigit)
    ensures FirstNumber(before) == None
  {
    assert before + "" == before;
    SpanExact(before, "", NotDigit);
  }
}
