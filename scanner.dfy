/** The newer scanner (src/interpreter/scanning/scanner.ts): a `Scanner` object that reads its
    source once into a token list, kept reversed so that the parser can pop the next token
    from the back. The reading loops are specified by the state-machine functions of
    `CharStream`; this module adds token construction, the whole-source loop and the token
    queue. */
module Scanning {
  import opened Wrappers
  import opened Numerals
  import opened Tries
  import opened Errors
  import opened Tokens
  import opened CharStream

  // ---------------------------------------------------------------------------------------
  // Specification functions

  /** `wrapError`: stamp an error with the scanner's current line and column. */
  function Wrap(e: Error, st: ScanState): (r: Error)
    ensures r.errorCode == e.errorCode && r.msg == e.msg
    ensures r.lineNumber == Some(st.lineCount) && r.columnNumber == Some(st.currentColumn)
  {
    e.(lineNumber := Some(st.lineCount), columnNumber := Some(st.currentColumn))
  }

  /** The type of the token that ends the stream. */
  const EofKind: Kind := Std(TokenType.EOF)

  /** The token `new Token(TokenType.EOF, line, column)`. */
  function EofToken(line: int, column: int): Token {
    Token(EofKind, line, column, None)
  }

  /** `scanNumberLiteral(c)`: the number token, or the error for a second '.', stamped just
      after that '.'. The token is stamped with the position after the character that ended
      the literal: it is read and put back, and putting back does not move the position, so a
      newline after the literal stamps it at column 0 of the next line. */
  function ScanNumberLiteralF(st: ScanState, c: char): (Result<Token, Error>, ScanState) {
    var (o, st1) := ScanNumberF(st, c);
    match o
    case NumOk(v) => (Ok(LiteralToken(Number, st1.lineCount, st1.currentColumn, Num(v))), st1)
    case NumBadDot => (Err(Wrap(InvalidCharacter('.'), st1)), st1)
  }

  /** `scanSymbolToken(c)`: the token of the longest symbol matched, or the error naming the
      characters read. */
  function ScanSymbolTokenF(st: ScanState, c: char): (Result<Token, Error>, ScanState) {
    var (o, st1) := ScanSymbolF(SymbolTokens, st, c);
    match o
    case SymOk(k) => (Ok(Token(k, st1.lineCount, st1.currentColumn, None)), st1)
    case SymUnknown(seen) => (Err(Wrap(UnknownSymbol(seen), st1)), st1)
  }

  /** `scanNext`: skip whitespace, then read one symbol and dispatch on it. */
  function ScanNextF(st: ScanState): (r: (Result<Token, Error>, ScanState))
    ensures r.1.code == st.code
  {
    DispatchF(SkipWhitespaceF(st))
  }

  /** The rest of `scanNext` after the whitespace: EOF, a number, a symbol, or an unknown
      character. */
  function DispatchF(st: ScanState): (r: (Result<Token, Error>, ScanState))
    ensures r.1.code == st.code
  {
    var (c, st2) := NextCharF(st);
    if c == Sym.EOF then (Ok(EofToken(st2.lineCount, st2.currentColumn)), st2)
    else if IsDigit(c.c) then ScanNumberLiteralF(st2, c.c)
    else if c.c in SymbolTokens.children then ScanSymbolTokenF(st2, c.c)
    else (Err(Wrap(UnknownSymbol([c.c]), st2)), st2)
  }

  /** The loop of `scanTokens`: scan and push until the EOF token has been pushed, or stop at
      the first error, keeping what was pushed before it. */
  function ScanLoopF(st: ScanState, acc: seq<Token>): (r: (Option<Error>, seq<Token>, ScanState))
    ensures r.2.code == st.code
    decreases Measure(st)
  {
    ScanNextMeasure(st);
    var (t, st1) := ScanNextF(st);
    match t
    case Err(e) => (Some(e), acc, st1)
    case Ok(tok) =>
      if tok.TokenKind() == EofKind then (None, acc + [tok], st1)
      else ScanLoopF(st1, acc + [tok])
  }

  /** `lookAhead(n)` on the token stack: the token `n` places below its top, or an EOF token
      at the scanner's position when there is none. */
  function LookAheadF(tokens: Option<seq<Token>>, line: int, column: int, n: nat): Token {
    if tokens.None? || |tokens.value| - n - 1 < 0 then EofToken(line, column)
    else tokens.value[|tokens.value| - n - 1]
  }

  /** `advance`: pop the top of the token stack, or an EOF token when it is empty or absent. */
  function AdvanceF(tokens: Option<seq<Token>>, line: int, column: int): (Token, Option<seq<Token>>) {
    if tokens.None? || |tokens.value| == 0 then (EofToken(line, column), tokens)
    else (tokens.value[|tokens.value| - 1], Some(tokens.value[..|tokens.value| - 1]))
  }

  /** The reversed list is a queue in scan order: looking `n` ahead sees the `n`-th scanned
      token, and EOF past the end. */
  lemma LookAheadInScanOrder(scanned: seq<Token>, line: int, column: int, n: nat)
    ensures n < |scanned| ==> LookAheadF(Some(Reverse(scanned)), line, column, n) == scanned[n]
    ensures |scanned| <= n ==> LookAheadF(Some(Reverse(scanned)), line, column, n) == EofToken(line, column)
  {
    if n < |scanned| {
      ReverseIndex(scanned, |scanned| - n - 1);
    }
  }

  /** Advancing dequeues the first scanned token and leaves the rest in scan order. */
  lemma AdvanceDequeues(scanned: seq<Token>, line: int, column: int)
    ensures AdvanceF(Some(Reverse(scanned)), line, column) ==
      if scanned == [] then (EofToken(line, column), Some([]))
      else (scanned[0], Some(Reverse(scanned[1..])))
  {
    if scanned != [] {
      ReverseIndex(scanned, |scanned| - 1);
      ReverseDropLast(scanned);
    }
  }

  /** Before scanning, every query answers EOF at the scanner's position. */
  lemma UnscannedAnswersEof(line: int, column: int, n: nat)
    ensures LookAheadF(None, line, column, n) == EofToken(line, column)
    ensures AdvanceF(None, line, column) == (EofToken(line, column), None)
  {
  }

  // ---------------------------------------------------------------------------------------
  // Properties of scanNext and the scanning loop

  /** `scanNext` never gives back characters: the measure does not grow, and it shrinks unless
      the EOF token is returned. */
  lemma ScanNextMeasure(st: ScanState)
    ensures Measure(ScanNextF(st).1) <= Measure(st)
    ensures ScanNextF(st).0.Ok? && ScanNextF(st).0.value.TokenKind() != EofKind ==>
      Measure(ScanNextF(st).1) < Measure(st)
  {
    var st1 := SkipWhitespaceF(st);
    NextCharMeasure(st1);
    var (c, st2) := NextCharF(st1);
    if c != Sym.EOF {
      if IsDigit(c.c) {
        NumberLoopMeasure(st2, c, 0, -1, 0);
      } else if c.c in SymbolTokens.children {
        var node := SymbolTokens.children[c.c];
        SymbolLoopMeasure(st2, node, [c.c], node.value);
      }
    }
  }

  /** What scanning a token from the stream `t` yields, declaratively, with `st'` the state
      afterwards (whose counters stamp the token or error), and the stream left: the first
      symbol decides. EOF gives the EOF token and ends the stream; a digit gives the literal
      `NumberExpected` describes; a symbol character gives a token of its kind and consumes
      only that character (every symbol has one character); anything else is an unknown
      symbol, consumed. */
  ghost function ScanExpected(t: seq<Sym>, st': ScanState): (Result<Token, Error>, seq<Sym>) {
    var x := At(t, 0);
    if x == Sym.EOF then (Ok(EofToken(st'.lineCount, st'.currentColumn)), [])
    else if IsDigit(x.c) then
      (match NumberExpected(t).0
       case NumOk(v) => Ok(LiteralToken(Number, st'.lineCount, st'.currentColumn, Num(v)))
       case NumBadDot => Err(Wrap(InvalidCharacter('.'), st')),
       NumberExpected(t).1)
    else if SymbolKind(x.c).Some? then
      (Ok(Token(SymbolKind(x.c).value, st'.lineCount, st'.currentColumn, None)), [At(t, 1)] + Drop(t, 2))
    else (Err(Wrap(UnknownSymbol([x.c]), st')), Drop(t, 1))
  }

  /** `scanNext` skips the whitespace run and scans what follows it as `ScanExpected` says. */
  lemma ScanNextSpec(st: ScanState)
    requires EofOnlyLast(Stream(st))
    ensures var s := Stream(st);
      var r := ScanNextF(st);
      (r.0, Stream(r.1)) == ScanExpected(Drop(s, WhitespaceRun(s)), r.1)
  {
    var s := Stream(st);
    var t := Drop(s, WhitespaceRun(s));
    SkipWhitespaceStream(st);
    var st1 := SkipWhitespaceF(st);
    assert At(t, 0) == At(s, WhitespaceRun(s));
    if At(t, 0) == Sym.EOF {
      assert Stream(st1) == [];
      DispatchEof(st1);
    } else {
      assert Stream(st1) == t;
      EofOnlyLastDrop(s, WhitespaceRun(s));
      DispatchSpec(st1);
    }
  }

  lemma DispatchSpec(st: ScanState)
    requires EofOnlyLast(Stream(st))
    ensures var r := DispatchF(st); (r.0, Stream(r.1)) == ScanExpected(Stream(st), r.1)
  {
    var x := At(Stream(st), 0);
    if x == Sym.EOF {
      DispatchEof(st);
    } else if IsDigit(x.c) {
      DispatchNumber(st);
    } else if SymbolKind(x.c).Some? {
      DispatchSymbol(st);
    } else {
      DispatchUnknown(st);
    }
  }

  lemma DispatchEof(st: ScanState)
    requires At(Stream(st), 0) == Sym.EOF && EofOnlyLast(Stream(st))
    ensures var r := DispatchF(st); r.0 == Ok(EofToken(r.1.lineCount, r.1.currentColumn)) && Stream(r.1) == []
  {
    NextCharStream(st);
    var s := Stream(st);
    if s != [] {
      assert |s| == 1;
    }
  }

  lemma DispatchNumber(st: ScanState)
    requires var x := At(Stream(st), 0); x.Ch? && IsDigit(x.c)
    ensures var t := Stream(st);
      var r := DispatchF(st);
      && Stream(r.1) == NumberExpected(t).1
      && r.0 == match NumberExpected(t).0
                case NumOk(v) => Ok(LiteralToken(Number, r.1.lineCount, r.1.currentColumn, Num(v)))
                case NumBadDot => Err(Wrap(InvalidCharacter('.'), r.1))
  {
    NextCharStream(st);
    var (c, st2) := NextCharF(st);
    assert [c] + Stream(st2) == Stream(st);
    ScanNumberSpec(st2, c.c);
  }

  lemma DispatchSymbol(st: ScanState)
    requires var x := At(Stream(st), 0); x.Ch? && SymbolKind(x.c).Some?
    ensures var t := Stream(st);
      var r := DispatchF(st);
      && Stream(r.1) == [At(t, 1)] + Drop(t, 2)
      && r.0 == Ok(Token(SymbolKind(t[0].c).value, r.1.lineCount, r.1.currentColumn, None))
  {
    var t := Stream(st);
    var next := NextCharF(st);
    var c, st2 := next.0.c, next.1;
    assert t == [Ch(c)] + Stream(st2) && c in SymbolTokens.children && !IsDigit(c) by {
      NextCharStream(st);
      SymbolChildren(c);
    }
    var sym := ScanSymbolF(SymbolTokens, st2, c);
    assert sym.0 == SymOk(SymbolKind(c).value) && Stream(sym.1) == [At(t, 1)] + Drop(t, 2) by {
      ScanSymbolSpec(SymbolTokens, st2, c);
      OneCharacterSymbol(t);
      assert ScanSymbolExpected(SymbolTokens, t) == (SymOk(SymbolKind(c).value), [At(t, 1)] + Drop(t, 2));
    }
    assert DispatchF(st) == ScanSymbolTokenF(st2, c);
  }

  lemma DispatchUnknown(st: ScanState)
    requires var x := At(Stream(st), 0); x.Ch? && !IsDigit(x.c) && SymbolKind(x.c).None?
    ensures var t := Stream(st);
      var r := DispatchF(st);
      Stream(r.1) == Drop(t, 1) && r.0 == Err(Wrap(UnknownSymbol([t[0].c]), r.1))
  {
    NextCharStream(st);
    SymbolChildren(At(Stream(st), 0).c);
  }

  /** Every symbol has one character: the trie walk stops after the first one, with its kind. */
  lemma OneCharacterSymbol(t: seq<Sym>)
    requires t != [] && t[0].Ch? && SymbolKind(t[0].c).Some?
    ensures PathLen(SymbolTokens, t) == 1
    ensures LongestValue(SymbolTokens, t, 1) == SymbolKind(t[0].c)
  {
    var c := t[0].c;
    SymbolChildren(c);
    assert PathLen(SymbolTokens.children[c], t[1..]) == 0;
    assert TextOf(t[..1]) == [c];
    SymbolTokensShape([c]);
  }

  /** The scanner invariant: the counters describe the source read so far, and EOF can only
      be the last symbol still to come. */
  ghost predicate Consistent(st: ScanState) {
    CountersMatch(st) && EofOnlyLast(Stream(st))
  }

  lemma InitialConsistent(code: string)
    ensures Consistent(ScanState(code, 0, [], 1, 0))
  {
    InitialCounters(code);
    var st := ScanState(code, 0, [], 1, 0);
    assert Stream(st) == Chars(code);
  }

  lemma DispatchCounters(st: ScanState)
    requires CountersMatch(st)
    ensures CountersMatch(DispatchF(st).1)
  {
    NextCharCounters(st);
    var (c, st2) := NextCharF(st);
    if c != Sym.EOF {
      if IsDigit(c.c) {
        NumberLoopCounters(st2, c, 0, -1, 0);
      } else if c.c in SymbolTokens.children {
        var node := SymbolTokens.children[c.c];
        SymbolLoopCounters(st2, node, [c.c], node.value);
      }
    }
  }

  /** What scanning leaves to come still has EOF last. */
  lemma ScanExpectedEofLast(t: seq<Sym>, st': ScanState)
    requires EofOnlyLast(t)
    ensures EofOnlyLast(ScanExpected(t, st').1)
  {
    var x := At(t, 0);
    if x != Sym.EOF {
      if IsDigit(x.c) {
        var k := NumberRun(t);
        var lex := TextOf(t[..k]);
        if Dots(lex) <= 1 {
          EofOnlyLastPushedBack(t, k);
        } else {
          EofOnlyLastDrop(t, SecondDot(lex) + 1);
        }
      } else if SymbolKind(x.c).Some? {
        EofOnlyLastPushedBack(t, 1);
      } else {
        EofOnlyLastDrop(t, 1);
      }
    }
  }

  /** `scanNext` keeps the scanner invariant. */
  lemma ScanNextConsistent(st: ScanState)
    requires Consistent(st)
    ensures Consistent(ScanNextF(st).1)
  {
    SkipWhitespaceCounters(st);
    DispatchCounters(SkipWhitespaceF(st));
    ScanNextSpec(st);
    var s := Stream(st);
    EofOnlyLastDrop(s, WhitespaceRun(s));
    ScanExpectedEofLast(Drop(s, WhitespaceRun(s)), ScanNextF(st).1);
  }

  /** A token is stamped with the scanner's position when `scanNext` returns, which counts a
      character read ahead and put back. */
  lemma ScanNextStamp(st: ScanState)
    ensures var (r, st') := ScanNextF(st);
      r.Ok? ==> r.value.line == st'.lineCount && r.value.column == st'.currentColumn
    ensures var (r, st') := ScanNextF(st);
      r.Err? ==> r.error.lineNumber == Some(st'.lineCount) && r.error.columnNumber == Some(st'.currentColumn)
  {
  }

  /** A worked case: the `+` is stamped after the newline that was read ahead and put back,
      at line 2, column 0, not at line 1, column 1. */
  lemma SymbolBeforeNewlineStamp()
    ensures ScanNextF(ScanState("+\n", 0, [], 1, 0)).0 == Ok(Token(OpSymbol(Plus), 2, 0, None))
  {
  }

  /** What the scanning loop returns: the tokens pushed before, then the ones it scans; on
      success the last is the EOF token and it is the only one; on error none is. */
  ghost predicate LoopShape(acc: seq<Token>, e: Option<Error>, ts: seq<Token>) {
    && acc <= ts
    && (forall k :: |acc| <= k < |ts| - 1 ==> ts[k].TokenKind() != EofKind)
    && (e.None? ==> |ts| > |acc| && ts[|ts| - 1].TokenKind() == EofKind)
    && (e.Some? ==> forall k :: |acc| <= k < |ts| ==> ts[k].TokenKind() != EofKind)
  }

  lemma {:induction false} ScanLoopShape(st: ScanState, acc: seq<Token>)
    ensures LoopShape(acc, ScanLoopF(st, acc).0, ScanLoopF(st, acc).1)
    decreases Measure(st)
  {
    ScanNextMeasure(st);
    var next := ScanNextF(st);
    var t, st1 := next.0, next.1;
    if t.Err? {
      assert ScanLoopF(st, acc) == (Some(t.error), acc, st1);
    } else if t.value.TokenKind() == EofKind {
      assert ScanLoopF(st, acc) == (None, acc + [t.value], st1);
    } else {
      var acc' := acc + [t.value];
      var r := ScanLoopF(st1, acc');
      assert ScanLoopF(st, acc) == r;
      ScanLoopShape(st1, acc');
      LoopShapeStep(acc, t.value, r.0, r.1);
    }
  }

  lemma LoopShapeStep(acc: seq<Token>, tok: Token, e: Option<Error>, ts: seq<Token>)
    requires tok.TokenKind() != EofKind
    requires LoopShape(acc + [tok], e, ts)
    ensures LoopShape(acc, e, ts)
  {
    assert ts[|acc|] == tok;
    assert ts[..|acc|] == (acc + [tok])[..|acc|] == acc;
  }

  /** The scanning loop keeps the scanner invariant. */
  lemma {:induction false} ScanLoopConsistent(st: ScanState, acc: seq<Token>)
    requires Consistent(st)
    ensures Consistent(ScanLoopF(st, acc).2)
    decreases Measure(st)
  {
    ScanNextMeasure(st);
    ScanNextConsistent(st);
    var next := ScanNextF(st);
    var t, st1 := next.0, next.1;
    if t.Ok? && t.value.TokenKind() != EofKind {
      assert ScanLoopF(st, acc) == ScanLoopF(st1, acc + [t.value]);
      ScanLoopConsistent(st1, acc + [t.value]);
    }
  }

  /** Only the end of the stream yields the EOF token. */
  lemma ScanExpectedEofToken(t: seq<Sym>, st': ScanState)
    ensures var r := ScanExpected(t, st');
      r.0.Ok? && r.0.value.TokenKind() == EofKind ==> At(t, 0) == Sym.EOF && r.1 == []
  {
    var x := At(t, 0);
    if x != Sym.EOF && !IsDigit(x.c) && SymbolKind(x.c).Some? {
      assert SymbolKind(x.c).value != EofKind;
    }
  }

  /** A successful scan reads the whole source and puts nothing back. */
  lemma {:induction false} ScanLoopReadsAll(st: ScanState, acc: seq<Token>)
    requires Consistent(st)
    ensures ScanLoopF(st, acc).0.None? ==> Stream(ScanLoopF(st, acc).2) == []
    decreases Measure(st)
  {
    ScanNextMeasure(st);
    ScanNextConsistent(st);
    var next := ScanNextF(st);
    var t, st1 := next.0, next.1;
    if t.Ok? && t.value.TokenKind() != EofKind {
      var r := ScanLoopF(st1, acc + [t.value]);
      assert ScanLoopF(st, acc) == r;
      ScanLoopReadsAll(st1, acc + [t.value]);
    } else if t.Ok? {
      assert ScanLoopF(st, acc).2 == st1;
      ScanNextSpec(st);
      var s := Stream(st);
      ScanExpectedEofToken(Drop(s, WhitespaceRun(s)), st1);
    }
  }

  // ---------------------------------------------------------------------------------------
  // The scanner object

  class Scanner {
    const code: string
    var putBacks: seq<Sym>
    var curr: nat
    var lineCount: int
    var currentColumn: int
    /** The scanned tokens, last first, once `scanTokens` has run. */
    var tokens: Option<seq<Token>>

    ghost function State(): ScanState
      reads this
    {
      ScanState(code, curr, putBacks, lineCount, currentColumn)
    }

    ghost predicate Valid()
      reads this
    {
      Consistent(State())
    }

    constructor(code: string)
      ensures State() == ScanState(code, 0, [], 1, 0) && tokens == None
      ensures Valid()
    {
      this.code := code;
      putBacks := [];
      curr := 0;
      lineCount := 1;
      currentColumn := 0;
      tokens := None;
      InitialConsistent(code);
    }

    /** `putBack(c)`. */
    method PutBack(c: Sym)
      modifies this
      ensures State() == PutBackF(old(State()), c) && tokens == old(tokens)
    {
      putBacks := putBacks + [c];
    }

    /** `wrapError(error)`. */
    method WrapError(e: Error) returns (r: Error)
      ensures r == Wrap(e, State())
    {
      r := e.(lineNumber := Some(lineCount), columnNumber := Some(currentColumn));
    }

    /** `nextChar()`. */
    method NextChar() returns (c: Sym)
      modifies this
      ensures (c, State()) == NextCharF(old(State())) && tokens == old(tokens)
    {
      if |putBacks| != 0 {
        c := putBacks[|putBacks| - 1];
        putBacks := putBacks[..|putBacks| - 1];
        return;
      }
      if curr >= |code| {
        return Sym.EOF;
      }
      var ch := code[curr];
      curr := curr + 1;
      currentColumn := currentColumn + 1;
      if ch == '\n' {
        lineCount := lineCount + 1;
        currentColumn := 0;
      }
      c := Ch(ch);
    }

    /** `skipWhitespace()`. */
    method SkipWhitespace()
      modifies this
      ensures State() == SkipWhitespaceF(old(State())) && tokens == old(tokens)
    {
      while true
        invariant SkipWhitespaceF(State()) == SkipWhitespaceF(old(State()))
        invariant tokens == old(tokens)
        decreases Measure(State())
      {
        ghost var before := State();
        var c := NextChar();
        NextCharMeasure(before);
        if c == Sym.EOF {
          break;
        }
        if !IsWhitespace(c.c) {
          PutBack(c);
          break;
        }
      }
    }

    /** `scanNumberLiteral(c)`. */
    method ScanNumberLiteral(c: char) returns (r: Result<Token, Error>)
      modifies this
      ensures (r, State()) == ScanNumberLiteralF(old(State()), c) && tokens == old(tokens)
    {
      ghost var goal := ScanNumberF(State(), c);
      var ch := Ch(c);
      var res: nat := 0;
      var decimal := -1;
      var i: nat := 0;
      while IsNumberSym(ch)
        invariant -1 <= decimal < i || decimal == -1
        invariant NumberLoopF(State(), ch, res, decimal, i) == goal
        invariant tokens == old(tokens)
        decreases Measure(State()) + if IsNumberSym(ch) then 1 else 0
      {
        if ch.c == '.' {
          if decimal > -1 {
            var e := WrapError(InvalidCharacter('.'));
            return Err(e);
          }
          decimal := i;
        } else {
          res := res * 10 + DigitValue(ch.c);
        }
        ghost var before := State();
        ch := NextChar();
        NextCharMeasure(before);
        i := i + 1;
      }
      PutBack(ch);
      var value := LiteralValue(res, decimal, i);
      r := Ok(LiteralToken(Number, lineCount, currentColumn, Num(value)));
    }

    /** `scanSymbolToken(c)`. */
    method ScanSymbolToken(c: char) returns (r: Result<Token, Error>)
      modifies this
      ensures (r, State()) == ScanSymbolTokenF(old(State()), c) && tokens == old(tokens)
    {
      if c !in SymbolTokens.children {
        var e := WrapError(UnknownSymbol([c]));
        return Err(e);
      }
      var node := SymbolTokens.children[c];
      var seen := [c];
      var lastValue := node.value;
      while true
        invariant SymbolLoopF(State(), node, seen, lastValue) == ScanSymbolF(SymbolTokens, old(State()), c)
        invariant tokens == old(tokens)
        decreases Measure(State())
      {
        ghost var before := State();
        var ch := NextChar();
        NextCharMeasure(before);
        if !(ch.Ch? && ch.c in node.children) {
          PutBack(ch);
          if lastValue.None? {
            var e := WrapError(UnknownSymbol(seen));
            return Err(e);
          }
          return Ok(Token(lastValue.value, lineCount, currentColumn, None));
        }
        seen := seen + [ch.c];
        node := node.children[ch.c];
        if node.value.Some? {
          lastValue := node.value;
        }
      }
    }

    /** `scanNext()`. */
    method ScanNext() returns (r: Result<Token, Error>)
      modifies this
      ensures (r, State()) == ScanNextF(old(State())) && tokens == old(tokens)
      ensures old(Valid()) ==> Valid()
    {
      if Valid() {
        ScanNextConsistent(State());
      }
      SkipWhitespace();
      var next := NextChar();
      if next == Sym.EOF {
        return Ok(EofToken(lineCount, currentColumn));
      }
      if IsDigit(next.c) {
        r := ScanNumberLiteral(next.c);
        return;
      }
      if next.c in SymbolTokens.children {
        r := ScanSymbolToken(next.c);
        return;
      }
      var e := WrapError(UnknownSymbol([next.c]));
      r := Err(e);
    }

    /** `scanTokens()`: scan once; a second call changes nothing. On success the token list
        holds the scanned tokens last first; on error it keeps those pushed before it. */
    method ScanTokens() returns (err: Option<Error>)
      modifies this
      ensures old(tokens).Some? ==> err.None? && State() == old(State()) && tokens == old(tokens)
      ensures old(tokens).None? ==>
        var r := ScanLoopF(old(State()), []);
        && err == r.0 && State() == r.2
        && tokens == Some(if r.0.Some? then r.1 else Reverse(r.1))
      ensures old(Valid()) ==> Valid()
    {
      if Valid() {
        ScanLoopConsistent(State(), []);
      }
      if tokens.Some? {
        return None;
      }
      ghost var r := ScanLoopF(State(), []);
      tokens := Some([]);
      var done := false;
      while !done
        invariant tokens.Some?
        invariant !done ==> ScanLoopF(State(), tokens.value) == r
        invariant done ==> r == (None, tokens.value, State())
        decreases Measure(State()), if done then 0 else 1
      {
        ghost var before := State();
        var curr := ScanNext();
        ScanNextMeasure(before);
        if curr.Err? {
          return Some(curr.error);
        }
        tokens := Some(tokens.value + [curr.value]);
        done := curr.value.TokenKind() == EofKind;
      }
      ReverseTokens();
      err := None;
    }

    /** The swap loop of `scanTokens`: exchange the i-th token from each end while `i` is
        below half the length, which reverses the list in place. */
    method ReverseTokens()
      requires tokens.Some?
      modifies this
      ensures tokens == Some(Reverse(old(tokens.value))) && State() == old(State())
    {
      ghost var scanned := tokens.value;
      var n := |tokens.value|;
      var i := 0;
      while i * 2 < n
        invariant tokens.Some? && |tokens.value| == n == |scanned|
        invariant 0 <= i && i * 2 <= n + 1
        invariant forall k :: 0 <= k < i ==> tokens.value[k] == scanned[n - 1 - k]
        invariant forall k :: 0 <= k < i ==> tokens.value[n - 1 - k] == scanned[k]
        invariant forall k :: i <= k < n - i ==> tokens.value[k] == scanned[k]
        invariant State() == old(State())
      {
        var temp := tokens.value[n - i - 1];
        tokens := Some(tokens.value[n - i - 1 := tokens.value[i]]);
        tokens := Some(tokens.value[i := temp]);
        i := i + 1;
      }
      forall k | 0 <= k < n
        ensures tokens.value[k] == Reverse(scanned)[k]
      {
        ReverseIndex(scanned, k);
      }
      assert tokens.value == Reverse(scanned);
    }

    /** `lookAhead(n)`. */
    method LookAhead(n: nat) returns (t: Token)
      ensures t == LookAheadF(tokens, lineCount, currentColumn, n)
    {
      if tokens.None? {
        return EofToken(lineCount, currentColumn);
      }
      var k := |tokens.value| - n - 1;
      if k < 0 {
        return EofToken(lineCount, currentColumn);
      }
      t := tokens.value[k];
    }

    /** `peek()`. */
    method Peek() returns (t: Token)
      ensures t == LookAheadF(tokens, lineCount, currentColumn, 0)
    {
      t := LookAhead(0);
    }

    /** `advance()`. */
    method Advance() returns (t: Token)
      modifies this
      ensures (t, tokens) == AdvanceF(old(tokens), lineCount, currentColumn)
      ensures State() == old(State())
    {
      if tokens.None? {
        return EofToken(lineCount, currentColumn);
      }
      if |tokens.value| == 0 {
        return EofToken(lineCount, currentColumn);
      }
      t := tokens.value[|tokens.value| - 1];
      tokens := Some(tokens.value[..|tokens.value| - 1]);
    }
  }
}
