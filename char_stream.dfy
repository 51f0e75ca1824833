/** The state machine both scanner copies share: the source text read left to right, a LIFO
    stack of put-back characters, line and column counters, and the loops that skip
    whitespace, accumulate a number literal and walk the symbol trie
    (src/interpreter/scanning/scanner.ts, src/interpreter/scanner.ts). */
module CharStream {
  import opened Wrappers
  import opened Numerals
  import opened Tries

  /** What `nextChar` delivers: a character, or the `"EOF"` sentinel. */
  datatype Sym = Ch(c: char) | EOF

  /** The scanner fields that reading characters touches. */
  datatype ScanState = ScanState(code: string, curr: nat, putBacks: seq<Sym>,
                                 lineCount: int, currentColumn: int)

  // ---------------------------------------------------------------------------------------
  // The stream of characters still to be delivered

  function Reverse<X>(s: seq<X>): (r: seq<X>)
    ensures |r| == |s|
  {
    if s == [] then [] else [s[|s| - 1]] + Reverse(s[..|s| - 1])
  }

  lemma {:induction false} ReverseIndex<X>(s: seq<X>, i: nat)
    requires i < |s|
    ensures Reverse(s)[i] == s[|s| - 1 - i]
  {
    if i > 0 {
      ReverseIndex(s[..|s| - 1], i - 1);
    }
  }

  /** Dropping the last element of a reversal drops the first of the original. */
  lemma {:induction false} ReverseDropLast<X>(s: seq<X>)
    requires s != []
    ensures Reverse(s)[..|s| - 1] == Reverse(s[1..])
  {
    var n := |s|;
    if n == 1 {
      assert Reverse(s)[..0] == [];
      assert s[1..] == [];
    } else {
      var front := s[..n - 1];
      ReverseDropLast(front);
      assert front[1..] == s[1..][..n - 2];
      assert s[1..][n - 2] == s[n - 1];
      assert Reverse(s)[..n - 1] == [s[n - 1]] + Reverse(front)[..n - 2];
    }
  }

  function Chars(s: string): (r: seq<Sym>)
    ensures |r| == |s| && forall i :: 0 <= i < |s| ==> r[i] == Ch(s[i])
  {
    seq(|s|, i requires 0 <= i < |s| => Ch(s[i]))
  }

  function Unread(st: ScanState): string {
    if st.curr <= |st.code| then st.code[st.curr..] else []
  }

  /** Everything `nextChar` will deliver, in order, before it starts answering EOF for good:
      the put-backs from the top of the stack down, then the unread source. */
  function Stream(st: ScanState): seq<Sym> {
    Reverse(st.putBacks) + Chars(Unread(st))
  }

  /** The i-th symbol of a stream, EOF past its end. */
  function At(s: seq<Sym>, i: nat): Sym {
    if i < |s| then s[i] else EOF
  }

  /** The stream after `i` deliveries. */
  function Drop(s: seq<Sym>, i: nat): seq<Sym> {
    if i <= |s| then s[i..] else []
  }

  function ChCount(s: seq<Sym>): nat {
    if s == [] then 0 else ChCount(s[..|s| - 1]) + if s[|s| - 1].Ch? then 1 else 0
  }

  /** A termination measure: characters still to come, from the source or the stack. */
  function Measure(st: ScanState): nat {
    |Unread(st)| + ChCount(st.putBacks)
  }

  /** EOF, if it appears in the stream at all, is its last element. */
  ghost predicate EofOnlyLast(s: seq<Sym>) {
    forall i :: 0 <= i < |s| - 1 ==> s[i].Ch?
  }

  // ---------------------------------------------------------------------------------------
  // nextChar and putBack

  /** `nextChar`: pop a put-back if there is one, else read the next source character,
      counting columns and lines, else answer EOF. */
  function NextCharF(st: ScanState): (r: (Sym, ScanState))
    ensures r.1.code == st.code
  {
    if |st.putBacks| != 0 then
      (st.putBacks[|st.putBacks| - 1], st.(putBacks := st.putBacks[..|st.putBacks| - 1]))
    else if st.curr >= |st.code| then
      (EOF, st)
    else
      var c := st.code[st.curr];
      var st' := st.(curr := st.curr + 1, currentColumn := st.currentColumn + 1);
      if c == '\n' then
        (Ch(c), st'.(lineCount := st.lineCount + 1, currentColumn := 0))
      else
        (Ch(c), st')
  }

  /** `nextChar` delivers the put-backs last-in first-out, then the source in order, then EOF:
      it delivers the head of the stream and leaves the rest. */
  lemma NextCharStream(st: ScanState)
    ensures NextCharF(st).0 == At(Stream(st), 0)
    ensures Stream(NextCharF(st).1) == Drop(Stream(st), 1)
  {
    if |st.putBacks| != 0 {
      NextCharFromStack(st);
    } else if st.curr < |st.code| {
      NextCharFromSource(st);
    } else {
      assert Unread(st) == [];
      assert Stream(st) == [];
    }
  }

  lemma NextCharFromStack(st: ScanState)
    requires |st.putBacks| != 0
    ensures Stream(st) == [NextCharF(st).0] + Stream(NextCharF(st).1)
  {
    var pb := st.putBacks;
    var st' := NextCharF(st).1;
    assert st'.putBacks == pb[..|pb| - 1] && Unread(st') == Unread(st);
    assert Reverse(pb) == [pb[|pb| - 1]] + Reverse(pb[..|pb| - 1]);
  }

  lemma NextCharFromSource(st: ScanState)
    requires |st.putBacks| == 0 && st.curr < |st.code|
    ensures Stream(st) == [NextCharF(st).0] + Stream(NextCharF(st).1)
  {
    var next := NextCharF(st);
    var c := st.code[st.curr];
    var st' := next.1;
    assert next.0 == Ch(c) && st'.curr == st.curr + 1 && st'.code == st.code && st'.putBacks == [];
    UnreadStep(st, st');
    CharsCons(c, Unread(st'));
    StreamWithoutPutBacks(st);
    StreamWithoutPutBacks(st');
  }

  lemma UnreadStep(st: ScanState, st': ScanState)
    requires st.curr < |st.code| && st'.code == st.code && st'.curr == st.curr + 1
    ensures Unread(st) == [st.code[st.curr]] + Unread(st')
  {
  }

  lemma StreamWithoutPutBacks(st: ScanState)
    requires st.putBacks == []
    ensures Stream(st) == Chars(Unread(st))
  {
    assert Reverse(st.putBacks) == [];
  }

  lemma CharsCons(c: char, u: string)
    ensures Chars([c] + u) == [Ch(c)] + Chars(u)
  {
  }

  /** Delivering a character shrinks the measure; delivering EOF does not grow it. */
  lemma NextCharMeasure(st: ScanState)
    ensures Measure(NextCharF(st).1) + (if NextCharF(st).0.Ch? then 1 else 0) == Measure(st)
  {
  }

  /** `putBack`: push onto the stack; the counters are not rolled back. */
  function PutBackF(st: ScanState, s: Sym): (r: ScanState)
    ensures r.code == st.code && r.curr == st.curr
    ensures r.lineCount == st.lineCount && r.currentColumn == st.currentColumn
  {
    st.(putBacks := st.putBacks + [s])
  }

  /** The symbol put back is the next one delivered, before everything that was to come. */
  lemma PutBackStream(st: ScanState, s: Sym)
    ensures Stream(PutBackF(st, s)) == [s] + Stream(st)
  {
    var r := PutBackF(st, s);
    assert r.putBacks[..|r.putBacks| - 1] == st.putBacks;
    assert Reverse(r.putBacks) == [s] + Reverse(st.putBacks);
  }

  lemma PutBackMeasure(st: ScanState, s: Sym)
    ensures Measure(PutBackF(st, s)) == Measure(st) + if s.Ch? then 1 else 0
  {
    assert (st.putBacks + [s])[..|st.putBacks|] == st.putBacks;
  }

  // ---------------------------------------------------------------------------------------
  // Line and column counting

  function Newlines(s: string): nat {
    if s == [] then 0 else Newlines(s[..|s| - 1]) + if s[|s| - 1] == '\n' then 1 else 0
  }

  /** Characters read since the last newline. */
  function ColumnAfter(s: string): nat {
    if s == [] then 0 else if s[|s| - 1] == '\n' then 0 else ColumnAfter(s[..|s| - 1]) + 1
  }

  /** The counters describe the source read so far: line 1 plus one per newline, and the
      column counts characters since the last newline. */
  ghost predicate CountersMatch(st: ScanState) {
    && st.curr <= |st.code|
    && st.lineCount == 1 + Newlines(st.code[..st.curr])
    && st.currentColumn == ColumnAfter(st.code[..st.curr])
  }

  /** Reading a source character increments the column, and a newline increments the line
      and resets the column; put-backs leave the counters alone. */
  lemma {:induction false} NextCharCounters(st: ScanState)
    requires CountersMatch(st)
    ensures CountersMatch(NextCharF(st).1)
  {
    if |st.putBacks| == 0 && st.curr < |st.code| {
      var p := st.code[..st.curr + 1];
      assert p[..|p| - 1] == st.code[..st.curr];
    }
  }

  lemma InitialCounters(code: string)
    ensures CountersMatch(ScanState(code, 0, [], 1, 0))
  {
    assert code[..0] == [];
  }

  // ---------------------------------------------------------------------------------------
  // skipWhitespace

  /** JavaScript's `\s`: the ASCII spaces and the Unicode space separators. */
  predicate IsWhitespace(c: char) {
    || c == ' ' || c == '\t' || c == '\n' || c == '\r' || c == '\U{000B}' || c == '\U{000C}'
    || c == '\U{00A0}' || c == '\U{1680}' || ('\U{2000}' <= c <= '\U{200A}')
    || c == '\U{2028}' || c == '\U{2029}' || c == '\U{202F}' || c == '\U{205F}'
    || c == '\U{3000}' || c == '\U{FEFF}'
  }

  /** `skipWhitespace`: read until EOF (consumed) or a non-whitespace character (pushed back). */
  function SkipWhitespaceF(st: ScanState): (r: ScanState)
    ensures r.code == st.code
    ensures Measure(r) <= Measure(st)
    decreases Measure(st)
  {
    NextCharMeasure(st);
    var (c, st1) := NextCharF(st);
    if c == EOF then st1
    else if !IsWhitespace(c.c) then (PutBackMeasure(st1, c); PutBackF(st1, c))
    else SkipWhitespaceF(st1)
  }

  /** The number of whitespace characters at the front of a stream. */
  function WhitespaceRun(s: seq<Sym>): (n: nat)
    ensures n <= |s|
    ensures forall i :: 0 <= i < n ==> s[i].Ch? && IsWhitespace(s[i].c)
    ensures n < |s| ==> !(s[n].Ch? && IsWhitespace(s[n].c))
  {
    if s != [] && s[0].Ch? && IsWhitespace(s[0].c) then 1 + WhitespaceRun(s[1..]) else 0
  }

  /** After skipping, the leading whitespace is gone and the next symbol delivered is EOF or a
      non-whitespace character, which is back at the front of the stream. */
  lemma {:induction false} SkipWhitespaceStream(st: ScanState)
    requires EofOnlyLast(Stream(st))
    ensures var s := Stream(st);
      var w := WhitespaceRun(s);
      && Stream(SkipWhitespaceF(st)) == (if At(s, w) == EOF then [] else s[w..])
      && (At(Stream(SkipWhitespaceF(st)), 0) == EOF || !IsWhitespace(At(Stream(SkipWhitespaceF(st)), 0).c))
    decreases Measure(st)
  {
    var s := Stream(st);
    NextCharStream(st);
    NextCharMeasure(st);
    var next := NextCharF(st);
    var c, st1 := next.0, next.1;
    if c == EOF {
      assert Drop(s, 1) == [] by {
        if s != [] { assert s[0] == EOF; }
      }
    } else if IsWhitespace(c.c) {
      assert Stream(st1) == s[1..];
      assert EofOnlyLast(Stream(st1));
      SkipWhitespaceStream(st1);
      assert WhitespaceRun(s) == 1 + WhitespaceRun(s[1..]);
      assert s[1..][WhitespaceRun(s[1..])..] == s[WhitespaceRun(s)..];
    } else {
      PutBackStream(st1, c);
      assert WhitespaceRun(s) == 0;
      assert [c] + Drop(s, 1) == s;
    }
  }

  /** Reading never brings EOF in front of a character. */
  lemma EofOnlyLastDrop(s: seq<Sym>, i: nat)
    requires EofOnlyLast(s)
    ensures EofOnlyLast(Drop(s, i))
  {
  }

  // ---------------------------------------------------------------------------------------
  // scanNumberLiteral

  /** `/[0-9.]/`. */
  predicate IsNumberChar(ch: char) {
    IsDigit(ch) || ch == '.'
  }

  predicate IsNumberSym(s: Sym) {
    s.Ch? && IsNumberChar(s.c)
  }

  /** The outcome of the number loop before the scanner stamps it: a value, or the error for a
      second decimal point. */
  datatype NumOutcome = NumOk(value: real) | NumBadDot

  /** The number loop with its variables `c`, `res`, `decimal` and `i`: digits accumulate as
      `res * 10 + d`, the first '.' records its index, a second '.' stops with an error (nothing
      pushed back), and the first other symbol is pushed back before dividing by
      `10^(i - decimal - 1)`. */
  /** The literal's value once the loop stops after `i` characters: the digits read, shifted
      right past the '.' at index `decimal` when there was one. */
  function LiteralValue(res: nat, decimal: int, i: nat): real
    requires -1 <= decimal < i || decimal == -1
  {
    if decimal > -1 then res as real / Pow10(i - decimal - 1) as real else res as real
  }

  function NumberLoopF(st: ScanState, c: Sym, res: nat, decimal: int, i: nat): (r: (NumOutcome, ScanState))
    requires -1 <= decimal < i || decimal == -1
    ensures r.1.code == st.code
    decreases Measure(st) + if IsNumberSym(c) then 1 else 0
  {
    if !IsNumberSym(c) then
      (NumOk(LiteralValue(res, decimal, i)), PutBackF(st, c))
    else if c.c == '.' && decimal > -1 then
      (NumBadDot, st)
    else
      var res' := if c.c == '.' then res else res * 10 + DigitValue(c.c);
      var decimal' := if c.c == '.' then i else decimal;
      NextCharMeasure(st);
      var (c', st') := NextCharF(st);
      NumberLoopF(st', c', res', decimal', i + 1)
  }

  /** `scanNumberLiteral(c)`, on the state after `c` was read. */
  function ScanNumberF(st: ScanState, c: char): (r: (NumOutcome, ScanState))
    ensures r.1.code == st.code
  {
    NumberLoopF(st, Ch(c), 0, -1, 0)
  }

  /** The length of the run of number characters at the front of a stream. */
  function NumberRun(s: seq<Sym>): (n: nat)
    ensures n <= |s|
    ensures forall j :: 0 <= j < n ==> IsNumberSym(s[j])
    ensures !IsNumberSym(At(s, n))
  {
    if s != [] && IsNumberSym(s[0]) then 1 + NumberRun(s[1..]) else 0
  }

  /** The characters of a stream segment that holds no EOF. */
  function TextOf(s: seq<Sym>): (t: string)
    requires forall j :: 0 <= j < |s| ==> s[j].Ch?
    ensures |t| == |s| && forall j :: 0 <= j < |s| ==> t[j] == s[j].c
  {
    seq(|s|, j requires 0 <= j < |s| => s[j].c)
  }

  predicate AllNumberChars(t: string) {
    forall j :: 0 <= j < |t| ==> IsNumberChar(t[j])
  }

  function Dots(t: string): nat {
    if t == [] then 0 else Dots(t[..|t| - 1]) + if t[|t| - 1] == '.' then 1 else 0
  }

  /** The index of the first '.', or -1. */
  function DotIndex(t: string): (d: int)
    ensures -1 <= d < |t|
    ensures d == -1 <==> Dots(t) == 0
    ensures d >= 0 ==> t[d] == '.'
  {
    if t == [] then -1
    else if DotIndex(t[..|t| - 1]) != -1 then DotIndex(t[..|t| - 1])
    else if t[|t| - 1] == '.' then |t| - 1
    else -1
  }

  /** The index of the second '.'. */
  function SecondDot(t: string): (d: nat)
    requires Dots(t) >= 2
    ensures d < |t| && t[d] == '.'
  {
    if Dots(t[..|t| - 1]) >= 2 then SecondDot(t[..|t| - 1]) else |t| - 1
  }

  function WithoutDots(t: string): (u: string)
    requires AllNumberChars(t)
    ensures AllDigits(u)
  {
    if t == [] then []
    else WithoutDots(t[..|t| - 1]) + if t[|t| - 1] == '.' then [] else [t[|t| - 1]]
  }

  /** The value a numeral with at most one '.' denotes: its digits as one integer, divided by ten
      to the number of digits after the point. */
  function NumberValue(t: string): real
    requires AllNumberChars(t) && Dots(t) <= 1
  {
    if Dots(t) == 0 then DigitsValue(WithoutDots(t)) as real
    else DigitsValue(WithoutDots(t)) as real / Pow10(|t| - DotIndex(t) - 1) as real
  }

  lemma TextOfSnoc(s: seq<Sym>, i: nat)
    requires i < |s| && forall j :: 0 <= j <= i ==> s[j].Ch?
    ensures TextOf(s[..i + 1]) == TextOf(s[..i]) + [s[i].c]
  {
  }

  /** The declarative description of a number literal at the front of `t`: the longest run
      of `[0-9.]` characters, its value when it has at most one '.', else the error at the
      second '.'; and the stream left afterwards. */
  ghost function NumberExpected(t: seq<Sym>): (NumOutcome, seq<Sym>) {
    var k := NumberRun(t);
    var lex := TextOf(t[..k]);
    if Dots(lex) <= 1 then (NumOk(NumberValue(lex)), [At(t, k)] + Drop(t, k + 1))
    else (NumBadDot, Drop(t, SecondDot(lex) + 1))
  }

  /** The loop invariant: entered at index `i` of the input `t`, with `c` the symbol at `i` and
      the variables describing `t[..i]`. */
  ghost predicate NumberLoopInv(st: ScanState, c: Sym, res: nat, decimal: int, i: nat, t: seq<Sym>) {
    && i <= NumberRun(t) && c == At(t, i) && Stream(st) == Drop(t, i + 1)
    && Dots(TextOf(t[..i])) <= 1
    && decimal == DotIndex(TextOf(t[..i]))
    && res == DigitsValue(WithoutDots(TextOf(t[..i])))
  }

  /** From the invariant, the loop ends as the declarative description says. */
  lemma {:induction false} NumberLoopSpec(st: ScanState, c: Sym, res: nat, decimal: int, i: nat, t: seq<Sym>)
    requires NumberLoopInv(st, c, res, decimal, i, t)
    ensures NumberLoopF(st, c, res, decimal, i).0 == NumberExpected(t).0
    ensures Stream(NumberLoopF(st, c, res, decimal, i).1) == NumberExpected(t).1
    decreases |t| - i
  {
    var k := NumberRun(t);
    if i == k {
      PutBackStream(st, c);
      assert t[..k] == t[..i];
    } else if c.c == '.' && decimal > -1 {
      NumberLoopBadDot(st, c, res, decimal, i, t);
    } else {
      var res' := if c.c == '.' then res else res * 10 + DigitValue(c.c);
      var decimal' := if c.c == '.' then i else decimal;
      NumberLoopStep(st, c, res, decimal, i, t);
      var next := NextCharF(st);
      NumberLoopSpec(next.1, next.0, res', decimal', i + 1, t);
    }
  }

  lemma NumberLexemeExtends(t: seq<Sym>, i: nat)
    requires i < NumberRun(t)
    ensures var lex := TextOf(t[..NumberRun(t)]);
      TextOf(t[..i + 1]) == TextOf(t[..i]) + [t[i].c] && lex == TextOf(t[..i + 1]) + lex[i + 1..]
  {
    var k := NumberRun(t);
    var lex := TextOf(t[..k]);
    TextOfSnoc(t, i);
    assert lex[..i + 1] == TextOf(t[..i + 1]);
    assert lex == lex[..i + 1] + lex[i + 1..];
  }

  lemma NumberLoopBadDot(st: ScanState, c: Sym, res: nat, decimal: int, i: nat, t: seq<Sym>)
    requires NumberLoopInv(st, c, res, decimal, i, t)
    requires i < NumberRun(t) && c.c == '.' && decimal > -1
    ensures NumberLoopF(st, c, res, decimal, i) == (NumBadDot, st)
    ensures Stream(st) == NumberExpected(t).1 && NumberExpected(t).0 == NumBadDot
  {
    var lex := TextOf(t[..NumberRun(t)]);
    NumberLexemeExtends(t, i);
    var p' := TextOf(t[..i + 1]);
    assert p'[..|p'| - 1] == TextOf(t[..i]);
    assert Dots(p') == 2;
    assert SecondDot(p') == i;
    DotsAppend(p', lex[i + 1..]);
    SecondDotAppend(p', lex[i + 1..]);
  }

  lemma NumberLoopStep(st: ScanState, c: Sym, res: nat, decimal: int, i: nat, t: seq<Sym>)
    requires NumberLoopInv(st, c, res, decimal, i, t)
    requires i < NumberRun(t) && !(c.c == '.' && decimal > -1)
    ensures var res' := if c.c == '.' then res else res * 10 + DigitValue(c.c);
      var decimal' := if c.c == '.' then i else decimal;
      var next := NextCharF(st);
      && NumberLoopF(st, c, res, decimal, i) == NumberLoopF(next.1, next.0, res', decimal', i + 1)
      && NumberLoopInv(next.1, next.0, res', decimal', i + 1, t)
  {
    NumberLoopUnfold(st, c, res, decimal, i);
    NumberInvStep(st, c, res, decimal, i, t);
  }

  /** One round of the number loop: a number character other than a second '.' is
      accumulated and the next symbol is read. */
  lemma NumberLoopUnfold(st: ScanState, c: Sym, res: nat, decimal: int, i: nat)
    requires -1 <= decimal < i || decimal == -1
    requires IsNumberSym(c) && !(c.c == '.' && decimal > -1)
    ensures var next := NextCharF(st);
      NumberLoopF(st, c, res, decimal, i) ==
        NumberLoopF(next.1, next.0, if c.c == '.' then res else res * 10 + DigitValue(c.c),
                    if c.c == '.' then i else decimal, i + 1)
  {
  }

  lemma NumberInvStep(st: ScanState, c: Sym, res: nat, decimal: int, i: nat, t: seq<Sym>)
    requires NumberLoopInv(st, c, res, decimal, i, t)
    requires i < NumberRun(t) && !(c.c == '.' && decimal > -1)
    ensures var res' := if c.c == '.' then res else res * 10 + DigitValue(c.c);
      var decimal' := if c.c == '.' then i else decimal;
      var next := NextCharF(st);
      NumberLoopInv(next.1, next.0, res', decimal', i + 1, t)
  {
    NumberLexemeExtends(t, i);
    var p := TextOf(t[..i]);
    assert |p| == i;
    NumberTextStep(p, c.c, res, decimal);
    NumberStreamStep(st, t, i);
  }

  /** One more character of the literal keeps the loop variables in step with its text. */
  lemma NumberTextStep(p: string, ch: char, res: nat, decimal: int)
    requires AllNumberChars(p) && IsNumberChar(ch) && Dots(p) <= 1
    requires decimal == DotIndex(p) && res == DigitsValue(WithoutDots(p))
    requires !(ch == '.' && decimal > -1)
    ensures var p' := p + [ch];
      && Dots(p') <= 1
      && DotIndex(p') == (if ch == '.' then |p| else decimal)
      && DigitsValue(WithoutDots(p')) == (if ch == '.' then res else res * 10 + DigitValue(ch))
  {
    var p' := p + [ch];
    assert p'[..|p'| - 1] == p;
    assert Dots(p') == Dots(p) + if ch == '.' then 1 else 0;
    assert DotIndex(p') == (if ch == '.' then |p| else decimal);
    WithoutDotsSnoc(p, ch);
  }

  lemma WithoutDotsSnoc(p: string, ch: char)
    requires AllNumberChars(p) && IsNumberChar(ch)
    ensures AllNumberChars(p + [ch])
    ensures DigitsValue(WithoutDots(p + [ch])) ==
      if ch == '.' then DigitsValue(WithoutDots(p)) else DigitsValue(WithoutDots(p)) * 10 + DigitValue(ch)
  {
    var p' := p + [ch];
    assert p'[..|p'| - 1] == p;
    assert AllNumberChars(p') by {
      forall j | 0 <= j < |p'| ensures IsNumberChar(p'[j]) {
        if j < |p| { assert p'[j] == p[j]; }
      }
    }
    var w := WithoutDots(p);
    if ch != '.' {
      assert WithoutDots(p') == w + [ch];
      assert (w + [ch])[..|w|] == w;
    } else {
      assert WithoutDots(p') == w + [];
      assert w + [] == w;
    }
  }

  lemma NumberStreamStep(st: ScanState, t: seq<Sym>, i: nat)
    requires Stream(st) == Drop(t, i + 1)
    ensures NextCharF(st).0 == At(t, i + 1) && Stream(NextCharF(st).1) == Drop(t, i + 2)
  {
    NextCharStream(st);
  }

  lemma {:induction false} DotsAppend(a: string, b: string)
    ensures Dots(a + b) == Dots(a) + Dots(b)
    decreases |b|
  {
    if b == [] {
      assert a + b == a;
    } else {
      assert (a + b)[..|a + b| - 1] == a + b[..|b| - 1];
      DotsAppend(a, b[..|b| - 1]);
    }
  }

  lemma {:induction false} SecondDotAppend(a: string, b: string)
    requires Dots(a) >= 2
    ensures Dots(a + b) >= 2 && SecondDot(a + b) == SecondDot(a)
    decreases |b|
  {
    DotsAppend(a, b);
    if b == [] {
      assert a + b == a;
    } else {
      assert (a + b)[..|a + b| - 1] == a + b[..|b| - 1];
      SecondDotAppend(a, b[..|b| - 1]);
    }
  }

  /** What `scanNumberLiteral(c)` does with the stream `t` that begins with `c`: let the
      literal be the longest run of `[0-9.]` characters. With at most one '.', it yields the
      literal's value and the first character after it is back at the front of the stream.
      With two or more, it fails at the second '.', which is consumed. */
  lemma ScanNumberSpec(st: ScanState, c: char)
    ensures var t := [Ch(c)] + Stream(st);
      && ScanNumberF(st, c).0 == NumberExpected(t).0
      && Stream(ScanNumberF(st, c).1) == NumberExpected(t).1
  {
    var t := [Ch(c)] + Stream(st);
    assert t[..0] == [] && TextOf(t[..0]) == [];
    assert Drop(t, 1) == Stream(st);
    NumberLoopSpec(st, Ch(c), 0, -1, 0, t);
  }

  /** The literal's value is its standard decimal value: integer part plus fraction. */
  lemma NumberValueIsDecimal(a: string, b: string)
    requires AllDigits(a) && AllDigits(b)
    ensures AllNumberChars(a) && Dots(a) == 0 && NumberValue(a) == DigitsValue(a) as real
    ensures AllNumberChars(a + "." + b) && Dots(a + "." + b) == 1
    ensures NumberValue(a + "." + b) == DigitsValue(a) as real + DigitsValue(b) as real / Pow10(|b|) as real
  {
    DigitsHaveNoDots(a);
    DottedNumberValue(a, b);
    DigitsValueAppend(a, b);
    DivideShifted(DigitsValue(a + b), DigitsValue(a), DigitsValue(b), Pow10(|b|));
  }

  lemma DottedNumberValue(a: string, b: string)
    requires AllDigits(a) && AllDigits(b)
    ensures AllNumberChars(a + "." + b) && Dots(a + "." + b) == 1 && AllDigits(a + b)
    ensures NumberValue(a + "." + b) == DigitsValue(a + b) as real / Pow10(|b|) as real
  {
    DecimalNumeralParts(a, b);
  }

  lemma DivideShifted(m: nat, x: nat, y: nat, p: nat)
    requires p >= 1 && m == x * p + y
    ensures m as real / p as real == x as real + y as real / p as real
  {
  }

  lemma DecimalNumeralParts(a: string, b: string)
    requires AllDigits(a) && AllDigits(b)
    ensures var t := a + "." + b;
      && AllNumberChars(t) && Dots(t) == 1 && DotIndex(t) == |a| && WithoutDots(t) == a + b
  {
    DigitsHaveNoDots(a);
    DigitsHaveNoDots(b);
    var t := a + "." + b;
    assert AllNumberChars(t) by {
      forall j | 0 <= j < |t| ensures IsNumberChar(t[j]) {
        if j < |a| { assert t[j] == a[j]; } else if j > |a| { assert t[j] == b[j - |a| - 1]; }
      }
    }
    assert "."[..0] == [];
    DotsAppend(a + ".", b);
    DotsAppend(a, ".");
    WithoutDotsAppend(a + ".", b);
    WithoutDotsAppend(a, ".");
    DotIndexAppend(a + ".", b);
    DotIndexAppend(a, ".");
  }

  lemma {:induction false} DigitsHaveNoDots(a: string)
    requires AllDigits(a)
    ensures AllNumberChars(a) && Dots(a) == 0 && WithoutDots(a) == a
  {
    if a != [] {
      DigitsHaveNoDots(a[..|a| - 1]);
      assert a[..|a| - 1] + [a[|a| - 1]] == a;
    }
  }

  lemma {:induction false} WithoutDotsAppend(a: string, b: string)
    requires AllNumberChars(a) && AllNumberChars(b)
    ensures AllNumberChars(a + b) && WithoutDots(a + b) == WithoutDots(a) + WithoutDots(b)
    decreases |b|
  {
    if b == [] {
      assert a + b == a;
    } else {
      assert (a + b)[..|a + b| - 1] == a + b[..|b| - 1];
      WithoutDotsAppend(a, b[..|b| - 1]);
    }
  }

  lemma {:induction false} DotIndexAppend(a: string, b: string)
    ensures DotIndex(a + b) == if DotIndex(a) != -1 then DotIndex(a)
      else if DotIndex(b) != -1 then |a| + DotIndex(b) else -1
    decreases |b|
  {
    if b == [] {
      assert a + b == a;
    } else {
      assert (a + b)[..|a + b| - 1] == a + b[..|b| - 1];
      DotIndexAppend(a, b[..|b| - 1]);
    }
  }

  // ---------------------------------------------------------------------------------------
  // scanSymbolToken

  /** The result of walking the symbol trie: the value of the deepest node passed that holds
      one, or the characters read when none did. */
  datatype SymOutcome<T> = SymOk(kind: T) | SymUnknown(seen: string)

  /** The loop of `scanSymbolToken`, standing on `node` after reading `seen`, with the last
      value met so far. The symbol that does not extend the path is pushed back. */
  function SymbolLoopF<T>(st: ScanState, node: Trie<T>, seen: string, lastValue: Option<T>): (r: (SymOutcome<T>, ScanState))
    ensures r.1.code == st.code
    decreases Measure(st)
  {
    NextCharMeasure(st);
    var (c, st1) := NextCharF(st);
    if !(c.Ch? && c.c in node.children) then
      (if lastValue.None? then SymUnknown(seen) else SymOk(lastValue.value), PutBackF(st1, c))
    else
      var child := node.children[c.c];
      SymbolLoopF(st1, child, seen + [c.c], if child.value.Some? then child.value else lastValue)
  }

  /** `scanSymbolToken(c)` on the state after `c` was read. */
  function ScanSymbolF<T>(root: Trie<T>, st: ScanState, c: char): (r: (SymOutcome<T>, ScanState))
    ensures r.1.code == st.code
  {
    if c !in root.children then (SymUnknown([c]), st)
    else
      var node := root.children[c];
      SymbolLoopF(st, node, [c], node.value)
  }

  /** How many symbols at the front of `s` spell a path that exists below `node`. */
  function PathLen<T>(node: Trie<T>, s: seq<Sym>): (n: nat)
    ensures n <= |s|
    ensures forall j :: 0 <= j < n ==> s[j].Ch?
  {
    if s != [] && s[0].Ch? && s[0].c in node.children then 1 + PathLen(node.children[s[0].c], s[1..])
    else 0
  }

  /** The path of `PathLen` exists, and no longer one does. */
  lemma {:induction false} PathLenIsLongest<T>(node: Trie<T>, s: seq<Sym>)
    ensures var n := PathLen(node, s);
      && Find(node, TextOf(s[..n])).Some?
      && !(At(s, n).Ch? && At(s, n).c in Find(node, TextOf(s[..n])).value.children)
  {
    var n := PathLen(node, s);
    if n > 0 {
      var child := node.children[s[0].c];
      PathLenIsLongest(child, s[1..]);
      FindStep(node, s, n);
      assert At(s, n) == At(s[1..], n - 1);
    } else {
      assert TextOf(s[..0]) == [];
    }
  }

  /** Following the first symbol of a path, then the rest. */
  lemma FindStep<T>(node: Trie<T>, s: seq<Sym>, j: nat)
    requires 1 <= j <= PathLen(node, s)
    ensures Find(node, TextOf(s[..j])) == Find(node.children[s[0].c], TextOf(s[1..][..j - 1]))
  {
    var p := TextOf(s[..j]);
    assert p[0] == s[0].c;
    assert p[1..] == TextOf(s[1..][..j - 1]);
  }

  /** The value of the longest prefix of `s`, among the first `j` symbols and at least one
      long, that names a node holding a value. */
  ghost function LongestValue<T>(node: Trie<T>, s: seq<Sym>, j: nat): Option<T>
    requires j <= PathLen(node, s)
  {
    if j == 0 then None
    else if Lookup(node, TextOf(s[..j])).Some? then Lookup(node, TextOf(s[..j]))
    else LongestValue(node, s, j - 1)
  }

  /** A longest match below `node` is one below its child, or else the child's own value. */
  lemma {:induction false} LongestValueStep<T>(node: Trie<T>, s: seq<Sym>, j: nat)
    requires 1 <= j <= PathLen(node, s)
    ensures var child := node.children[s[0].c];
      var inner := LongestValue(child, s[1..], j - 1);
      LongestValue(node, s, j) == if inner.Some? then inner else child.value
  {
    var child := node.children[s[0].c];
    FindStep(node, s, j);
    if j == 1 {
      assert TextOf(s[1..][..0]) == [];
    } else {
      LongestValueStep(node, s, j - 1);
    }
  }

  /** What the symbol loop yields on the stream `s`, declaratively: it consumes the longest
      path `n` below `node` and pushes back the symbol after it; its result is the value of the
      longest valued prefix, or the last value met before, or else all the characters read. */
  ghost function SymbolExpected<T>(node: Trie<T>, s: seq<Sym>, seen: string, lastValue: Option<T>): (SymOutcome<T>, seq<Sym>) {
    var n := PathLen(node, s);
    var longest := LongestValue(node, s, n);
    (if longest.Some? then SymOk(longest.value)
     else if lastValue.Some? then SymOk(lastValue.value)
     else SymUnknown(seen + TextOf(s[..n])),
     [At(s, n)] + Drop(s, n + 1))
  }

  lemma {:induction false} SymbolLoopSpec<T>(st: ScanState, node: Trie<T>, seen: string, lastValue: Option<T>)
    ensures SymbolLoopF(st, node, seen, lastValue).0 == SymbolExpected(node, Stream(st), seen, lastValue).0
    ensures Stream(SymbolLoopF(st, node, seen, lastValue).1) == SymbolExpected(node, Stream(st), seen, lastValue).1
    decreases Measure(st)
  {
    NextCharMeasure(st);
    NextCharStream(st);
    var (c, st1) := NextCharF(st);
    if !(c.Ch? && c.c in node.children) {
      SymbolLoopStops(st, node, seen, lastValue);
    } else {
      var child := node.children[c.c];
      var last' := if child.value.Some? then child.value else lastValue;
      SymbolLoopSpec(st1, child, seen + [c.c], last');
      SymbolLoopSteps(st, node, seen, lastValue);
    }
  }

  lemma SymbolLoopStops<T>(st: ScanState, node: Trie<T>, seen: string, lastValue: Option<T>)
    requires var c := NextCharF(st).0; !(c.Ch? && c.c in node.children)
    ensures SymbolLoopF(st, node, seen, lastValue).0 == SymbolExpected(node, Stream(st), seen, lastValue).0
    ensures Stream(SymbolLoopF(st, node, seen, lastValue).1) == SymbolExpected(node, Stream(st), seen, lastValue).1
  {
    var s := Stream(st);
    NextCharStream(st);
    PutBackStream(NextCharF(st).1, NextCharF(st).0);
    assert PathLen(node, s) == 0;
    assert s[..0] == [] && TextOf(s[..0]) == [];
    assert seen + [] == seen;
  }

  lemma SymbolLoopSteps<T>(st: ScanState, node: Trie<T>, seen: string, lastValue: Option<T>)
    requires var c := NextCharF(st).0; c.Ch? && c.c in node.children
    ensures var next := NextCharF(st);
      var c, st1 := next.0, next.1;
      var child := node.children[c.c];
      var last' := if child.value.Some? then child.value else lastValue;
      && SymbolLoopF(st, node, seen, lastValue) == SymbolLoopF(st1, child, seen + [c.c], last')
      && SymbolExpected(node, Stream(st), seen, lastValue) == SymbolExpected(child, Stream(st1), seen + [c.c], last')
  {
    NextCharStream(st);
    SymbolExpectedStep(node, Stream(st), seen, lastValue);
  }

  /** The declarative description follows the first symbol of a path down to the child. */
  lemma SymbolExpectedStep<T>(node: Trie<T>, s: seq<Sym>, seen: string, lastValue: Option<T>)
    requires s != [] && s[0].Ch? && s[0].c in node.children
    ensures var child := node.children[s[0].c];
      var last' := if child.value.Some? then child.value else lastValue;
      SymbolExpected(node, s, seen, lastValue) == SymbolExpected(child, s[1..], seen + [s[0].c], last')
  {
    var child := node.children[s[0].c];
    var n := PathLen(node, s);
    var m := PathLen(child, s[1..]);
    assert n == m + 1;
    LongestValueStep(node, s, n);
    SymbolStreamStep(s, n);
    SymbolTextStep(s, n, seen);
  }

  lemma SymbolStreamStep(s: seq<Sym>, n: nat)
    requires 1 <= n <= |s|
    ensures At(s, n) == At(s[1..], n - 1) && Drop(s, n + 1) == Drop(s[1..], n)
  {
  }

  lemma SymbolTextStep(s: seq<Sym>, n: nat, seen: string)
    requires 1 <= n <= |s| && forall i :: 0 <= i < n ==> s[i].Ch?
    ensures seen + TextOf(s[..n]) == (seen + [s[0].c]) + TextOf(s[1..][..n - 1])
  {
    assert TextOf(s[..n]) == [s[0].c] + TextOf(s[1..][..n - 1]);
  }

  /** What `scanSymbolToken` yields on the stream `t` that begins with a character the trie
      knows: it consumes the longest path `n` spelled by `t`, pushes back the symbol after it,
      and yields the value of the longest prefix of that path that names a token (or the
      whole path read, when none does). */
  ghost function ScanSymbolExpected<T>(root: Trie<T>, t: seq<Sym>): (SymOutcome<T>, seq<Sym>) {
    var n := PathLen(root, t);
    var longest := LongestValue(root, t, n);
    (if longest.Some? then SymOk(longest.value) else SymUnknown(TextOf(t[..n])),
     [At(t, n)] + Drop(t, n + 1))
  }

  lemma ScanSymbolSpec<T>(root: Trie<T>, st: ScanState, c: char)
    requires c in root.children
    ensures PathLen(root, [Ch(c)] + Stream(st)) >= 1
    ensures ScanSymbolF(root, st, c).0 == ScanSymbolExpected(root, [Ch(c)] + Stream(st)).0
    ensures Stream(ScanSymbolF(root, st, c).1) == ScanSymbolExpected(root, [Ch(c)] + Stream(st)).1
  {
    var t := [Ch(c)] + Stream(st);
    var node := root.children[c];
    assert t[0] == Ch(c) && t[1..] == Stream(st);
    SymbolLoopSpec(st, node, [c], node.value);
    SymbolExpectedStep(root, t, [], None);
    assert [] + [c] == [c];
    var n := PathLen(root, t);
    assert [] + TextOf(t[..n]) == TextOf(t[..n]);
  }

  // ---------------------------------------------------------------------------------------
  // What the loops preserve

  /** The number loop consumes what it reads, except the symbol it pushes back. */
  lemma {:induction false} NumberLoopMeasure(st: ScanState, c: Sym, res: nat, decimal: int, i: nat)
    requires -1 <= decimal < i || decimal == -1
    ensures Measure(NumberLoopF(st, c, res, decimal, i).1) <=
      Measure(st) + (if IsNumberSym(c) then 0 else if c.Ch? then 1 else 0)
    decreases Measure(st) + if IsNumberSym(c) then 1 else 0
  {
    if !IsNumberSym(c) {
      assert NumberLoopF(st, c, res, decimal, i).1 == PutBackF(st, c);
      PutBackMeasure(st, c);
    } else if !(c.c == '.' && decimal > -1) {
      var res' := if c.c == '.' then res else res * 10 + DigitValue(c.c);
      var decimal' := if c.c == '.' then i else decimal;
      var next := NextCharF(st);
      var c', st' := next.0, next.1;
      assert Measure(st') + (if c'.Ch? then 1 else 0) == Measure(st) by {
        NextCharMeasure(st);
      }
      assert NumberLoopF(st, c, res, decimal, i) == NumberLoopF(st', c', res', decimal', i + 1) by {
        NumberLoopUnfold(st, c, res, decimal, i);
      }
      NumberLoopMeasure(st', c', res', decimal', i + 1);
    }
  }

  /** The symbol loop consumes what it reads, except the symbol it pushes back. */
  lemma {:induction false} SymbolLoopMeasure<T>(st: ScanState, node: Trie<T>, seen: string, lastValue: Option<T>)
    ensures Measure(SymbolLoopF(st, node, seen, lastValue).1) <= Measure(st)
    decreases Measure(st)
  {
    NextCharMeasure(st);
    var (c, st1) := NextCharF(st);
    if !(c.Ch? && c.c in node.children) {
      PutBackMeasure(st1, c);
    } else {
      var child := node.children[c.c];
      SymbolLoopMeasure(st1, child, seen + [c.c], if child.value.Some? then child.value else lastValue);
    }
  }

  lemma {:induction false} SkipWhitespaceCounters(st: ScanState)
    requires CountersMatch(st)
    ensures CountersMatch(SkipWhitespaceF(st))
    decreases Measure(st)
  {
    NextCharCounters(st);
    NextCharMeasure(st);
    var (c, st1) := NextCharF(st);
    if c != EOF && IsWhitespace(c.c) {
      SkipWhitespaceCounters(st1);
    }
  }

  lemma {:induction false} NumberLoopCounters(st: ScanState, c: Sym, res: nat, decimal: int, i: nat)
    requires -1 <= decimal < i || decimal == -1
    requires CountersMatch(st)
    ensures CountersMatch(NumberLoopF(st, c, res, decimal, i).1)
    decreases Measure(st) + if IsNumberSym(c) then 1 else 0
  {
    if IsNumberSym(c) && !(c.c == '.' && decimal > -1) {
      var res' := if c.c == '.' then res else res * 10 + DigitValue(c.c);
      var decimal' := if c.c == '.' then i else decimal;
      NextCharCounters(st);
      NextCharMeasure(st);
      var (c', st') := NextCharF(st);
      NumberLoopCounters(st', c', res', decimal', i + 1);
    }
  }

  lemma {:induction false} SymbolLoopCounters<T>(st: ScanState, node: Trie<T>, seen: string, lastValue: Option<T>)
    requires CountersMatch(st)
    ensures CountersMatch(SymbolLoopF(st, node, seen, lastValue).1)
    decreases Measure(st)
  {
    NextCharCounters(st);
    NextCharMeasure(st);
    var (c, st1) := NextCharF(st);
    if c.Ch? && c.c in node.children {
      var child := node.children[c.c];
      SymbolLoopCounters(st1, child, seen + [c.c], if child.value.Some? then child.value else lastValue);
    }
  }

  /** Pushing back the symbol after a prefix keeps EOF last. */
  lemma EofOnlyLastPushedBack(t: seq<Sym>, k: nat)
    requires EofOnlyLast(t)
    ensures EofOnlyLast([At(t, k)] + Drop(t, k + 1))
  {
    var u := [At(t, k)] + Drop(t, k + 1);
    if At(t, k) == EOF && k < |t| {
      assert k == |t| - 1;
      assert Drop(t, k + 1) == [];
    }
    forall j | 0 <= j < |u| - 1 ensures u[j].Ch? {
      if j > 0 { assert u[j] == t[k + j]; }
    }
  }
}
