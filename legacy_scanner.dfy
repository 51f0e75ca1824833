/** The older scanner (src/interpreter/scanner.ts): the same character state machine as the
    newer one, without the token list, with tokens that carry no position, and with a symbol
    trie that lacks `;`. Its reading loops are those of `CharStream`; the lemmas here show
    that it reads exactly what the newer scanner reads, and differs only in the tokens it
    builds and in rejecting `;`. */
module LegacyScanning {
  import opened Wrappers
  import opened Numerals
  import opened Tries
  import opened Errors
  import opened LegacyTokens
  import opened CharStream
  import Tokens
  import Scanning

  // ---------------------------------------------------------------------------------------
  // Specification functions

  /** `scanNumberLiteral(c)`: a `Literal` with no position, or the error for a second '.'. */
  function ScanNumberLiteralF(st: ScanState, c: char): (Result<Token, Error>, ScanState) {
    var (o, st1) := ScanNumberF(st, c);
    match o
    case NumOk(v) => (Ok(LiteralToken(Number, Tokens.Num(v))), st1)
    case NumBadDot => (Err(Scanning.Wrap(InvalidCharacter('.'), st1)), st1)
  }

  /** `scanSymbolToken(c)` over the older trie. */
  function ScanSymbolTokenF(st: ScanState, c: char): (Result<Token, Error>, ScanState) {
    var (o, st1) := ScanSymbolF(SymbolTokens, st, c);
    match o
    case SymOk(k) => (Ok(Token(k, None)), st1)
    case SymUnknown(seen) => (Err(Scanning.Wrap(UnknownSymbol(seen), st1)), st1)
  }

  /** `scanNext`: skip whitespace, then read one symbol and dispatch on it. */
  function ScanNextF(st: ScanState): (r: (Result<Token, Error>, ScanState))
    ensures r.1.code == st.code
  {
    DispatchF(SkipWhitespaceF(st))
  }

  /** The rest of `scanNext` after the whitespace; the EOF token carries no position. */
  function DispatchF(st: ScanState): (r: (Result<Token, Error>, ScanState))
    ensures r.1.code == st.code
  {
    var (c, st2) := NextCharF(st);
    if c == Sym.EOF then (Ok(Token(TokenType.EOF, None)), st2)
    else if IsDigit(c.c) then ScanNumberLiteralF(st2, c.c)
    else if c.c in SymbolTokens.children then ScanSymbolTokenF(st2, c.c)
    else (Err(Scanning.Wrap(UnknownSymbol([c.c]), st2)), st2)
  }

  // ---------------------------------------------------------------------------------------
  // The older scanner against the newer one

  /** The older token type a newer token type corresponds to; `;` and the `BinaryOp` marker
      have none. */
  function LegacyType(k: Tokens.PlainKind): Option<PlainType> {
    if k == Tokens.Std(Tokens.TokenType.EOF) then Some(TokenType.EOF)
    else if k == Tokens.OpSymbol(Tokens.Plus) then Some(Plus)
    else if k == Tokens.OpSymbol(Tokens.Minus) then Some(Minus)
    else if k == Tokens.OpSymbol(Tokens.Asterisk) then Some(Asterisk)
    else if k == Tokens.OpSymbol(Tokens.Slash) then Some(Slash)
    else None
  }

  /** A newer token with its position dropped, as the older scanner would build it. */
  function Erase(t: Tokens.Token): Option<Token> {
    match t
    case Token(k, _, _, v) => if LegacyType(k).Some? then Some(Token(LegacyType(k).value, v)) else None
    case BinaryOpToken(_, _, _) => None
    case LiteralToken(lt, _, _, v) => Some(LiteralToken(if lt == Tokens.Number then Number else Identifier, v))
  }

  /** The two scanners agree on `r` and `r2` (older and newer result): the same error, or
      tokens equal up to position. */
  predicate SameOutcome(r: Result<Token, Error>, r2: Result<Tokens.Token, Error>) {
    match r
    case Err(e) => r2 == Err(e)
    case Ok(t) => r2.Ok? && Erase(r2.value) == Some(t)
  }

  /** A one-character symbol on a leaf of the trie: the walk reads one more symbol, puts it
      back, and yields the leaf's value. */
  lemma LeafSymbol<T>(root: Trie<T>, st: ScanState, c: char)
    requires c in root.children && root.children[c].children == map[]
    ensures var leaf := root.children[c];
      var next := NextCharF(st);
      ScanSymbolF(root, st, c) ==
        (if leaf.value.Some? then SymOk(leaf.value.value) else SymUnknown([c]), PutBackF(next.1, next.0))
  {
  }

  /** After whitespace the two scanners read the same characters and end in the same state,
      with the same error or the same token up to position, except on `;`: the newer scanner
      reads it as a `Semicolon` token and puts back the symbol after it, while the older one
      rejects it as an unknown symbol right after reading it. */
  lemma DispatchAgrees(st: ScanState)
    ensures var r := DispatchF(st);
      var r2 := Scanning.DispatchF(st);
      var next := NextCharF(st);
      if next.0 == Ch(';') then
        && r == (Err(Scanning.Wrap(UnknownSymbol(";"), next.1)), next.1)
        && r2.0 == Ok(Tokens.Token(Tokens.Std(Tokens.Semicolon), r2.1.lineCount, r2.1.currentColumn, None))
        && r2.1 == PutBackF(NextCharF(next.1).1, NextCharF(next.1).0)
      else
        r.1 == r2.1 && SameOutcome(r.0, r2.0)
  {
    var c := NextCharF(st).0;
    if c == Ch(';') {
      SemicolonDiffers(st);
    } else if c == Sym.EOF {
      assert DispatchF(st).1 == Scanning.DispatchF(st).1;
    } else if IsDigit(c.c) {
      NumberAgrees(st);
    } else if c.c in SymbolTokens.children {
      OperatorAgrees(st);
    } else {
      UnknownAgrees(st);
    }
  }

  lemma NumberAgrees(st: ScanState)
    requires var c := NextCharF(st).0; c.Ch? && IsDigit(c.c)
    ensures var r := DispatchF(st);
      var r2 := Scanning.DispatchF(st);
      r.1 == r2.1 && SameOutcome(r.0, r2.0)
  {
    var next := NextCharF(st);
    var c, st2 := next.0.c, next.1;
    assert DispatchF(st) == ScanNumberLiteralF(st2, c);
    assert Scanning.DispatchF(st) == Scanning.ScanNumberLiteralF(st2, c);
  }

  lemma UnknownAgrees(st: ScanState)
    requires var c := NextCharF(st).0;
      c.Ch? && !IsDigit(c.c) && c.c !in SymbolTokens.children && c.c != ';'
    ensures var r := DispatchF(st);
      var r2 := Scanning.DispatchF(st);
      r.1 == r2.1 && SameOutcome(r.0, r2.0)
  {
    var c := NextCharF(st).0.c;
    assert c !in Tokens.SymbolTokens.children by {
      LegacyTokens.SymbolChildren(c);
      Tokens.SymbolChildren(c);
    }
  }

  lemma OperatorAgrees(st: ScanState)
    requires var c := NextCharF(st).0; c.Ch? && c.c in SymbolTokens.children
    ensures var r := DispatchF(st);
      var r2 := Scanning.DispatchF(st);
      r.1 == r2.1 && SameOutcome(r.0, r2.0)
  {
    var next := NextCharF(st);
    var c, st2 := next.0.c, next.1;
    LegacyTokens.SymbolChildren(c);
    Tokens.SymbolChildren(c);
    assert !IsDigit(c);
    LeafSymbol(SymbolTokens, st2, c);
    LeafSymbol(Tokens.SymbolTokens, st2, c);
    var after := NextCharF(st2);
    var st3 := PutBackF(after.1, after.0);
    var k := OperatorNamed([c]).value;
    assert DispatchF(st) == (Ok(Token(k, None)), st3);
    assert Scanning.DispatchF(st) == (Ok(Tokens.Token(Tokens.SymbolKind(c).value, st3.lineCount, st3.currentColumn, None)), st3);
  }

  lemma SemicolonDiffers(st: ScanState)
    requires NextCharF(st).0 == Ch(';')
    ensures var r := DispatchF(st);
      var r2 := Scanning.DispatchF(st);
      var next := NextCharF(st);
      && r == (Err(Scanning.Wrap(UnknownSymbol(";"), next.1)), next.1)
      && r2.0 == Ok(Tokens.Token(Tokens.Std(Tokens.Semicolon), r2.1.lineCount, r2.1.currentColumn, None))
      && r2.1 == PutBackF(NextCharF(next.1).1, NextCharF(next.1).0)
  {
    var st2 := NextCharF(st).1;
    LegacyTokens.SymbolChildren(';');
    Tokens.SymbolChildren(';');
    LeafSymbol(Tokens.SymbolTokens, st2, ';');
  }

  /** `scanNext` of the two scanners, from the same state: `DispatchAgrees` after the
      same whitespace skip. */
  lemma ScanNextAgrees(st: ScanState)
    ensures var s := SkipWhitespaceF(st);
      var r := ScanNextF(st);
      var r2 := Scanning.ScanNextF(st);
      NextCharF(s).0 != Ch(';') ==> r.1 == r2.1 && SameOutcome(r.0, r2.0)
  {
    DispatchAgrees(SkipWhitespaceF(st));
  }

  /** `scanNext` keeps the scanner invariant of the newer scanner, which the two share. */
  lemma ScanNextConsistent(st: ScanState)
    requires Scanning.Consistent(st)
    ensures Scanning.Consistent(ScanNextF(st).1)
  {
    var s := SkipWhitespaceF(st);
    DispatchAgrees(s);
    if NextCharF(s).0 == Ch(';') {
      SkipWhitespaceCounters(st);
      SkipWhitespaceStream(st);
      NextCharCounters(s);
      NextCharStream(s);
      var u := Stream(st);
      EofOnlyLastDrop(u, WhitespaceRun(u));
      EofOnlyLastDrop(Stream(s), 1);
    } else {
      Scanning.ScanNextConsistent(st);
    }
  }

  // ---------------------------------------------------------------------------------------
  // The scanner object

  class Scanner {
    const code: string
    var putBacks: seq<Sym>
    var curr: nat
    var lineCount: int
    var currentColumn: int

    ghost function State(): ScanState
      reads this
    {
      ScanState(code, curr, putBacks, lineCount, currentColumn)
    }

    constructor(code: string)
      ensures State() == ScanState(code, 0, [], 1, 0)
      ensures Scanning.Consistent(State())
    {
      this.code := code;
      putBacks := [];
      curr := 0;
      lineCount := 1;
      currentColumn := 0;
      Scanning.InitialConsistent(code);
    }

    /** `putBack(c)`. */
    method PutBack(c: Sym)
      modifies this
      ensures State() == PutBackF(old(State()), c)
    {
      putBacks := putBacks + [c];
    }

    /** `wrapError(error)`. */
    method WrapError(e: Error) returns (r: Error)
      ensures r == Scanning.Wrap(e, State())
    {
      r := e.(lineNumber := Some(lineCount), columnNumber := Some(currentColumn));
    }

    /** `nextChar()`. */
    method NextChar() returns (c: Sym)
      modifies this
      ensures (c, State()) == NextCharF(old(State()))
    {
      if |putBacks| != 0 {
        c := putBacks[|putBacks| - 1];
        putBacks := putBacks[..|putBacks| - 1];
        return;
      }
      if curr >= |code| {
        return Sym.EOF;
      }
      var ch := code[curr];
      curr := curr + 1;
      currentColumn := currentColumn + 1;
      if ch == '\n' {
        lineCount := lineCount + 1;
        currentColumn := 0;
      }
      c := Ch(ch);
    }

    /** `skipWhitespace()`. */
    method SkipWhitespace()
      modifies this
      ensures State() == SkipWhitespaceF(old(State()))
    {
      while true
        invariant SkipWhitespaceF(State()) == SkipWhitespaceF(old(State()))
        decreases Measure(State())
      {
        ghost var before := State();
        var c := NextChar();
        NextCharMeasure(before);
        if c == Sym.EOF {
          break;
        }
        if !IsWhitespace(c.c) {
          PutBack(c);
          break;
        }
      }
    }

    /** `scanNumberLiteral(c)`. */
    method ScanNumberLiteral(c: char) returns (r: Result<Token, Error>)
      modifies this
      ensures (r, State()) == ScanNumberLiteralF(old(State()), c)
    {
      ghost var goal := ScanNumberF(State(), c);
      var ch := Ch(c);
      var res: nat := 0;
      var decimal := -1;
      var i: nat := 0;
      while IsNumberSym(ch)
        invariant -1 <= decimal < i || decimal == -1
        invariant NumberLoopF(State(), ch, res, decimal, i) == goal
        decreases Measure(State()) + if IsNumberSym(ch) then 1 else 0
      {
        if ch.c == '.' {
          if decimal > -1 {
            var e := WrapError(InvalidCharacter('.'));
            return Err(e);
          }
          decimal := i;
        } else {
          res := res * 10 + DigitValue(ch.c);
        }
        ghost var before := State();
        ch := NextChar();
        NextCharMeasure(before);
        i := i + 1;
      }
      PutBack(ch);
      var value := LiteralValue(res, decimal, i);
      r := Ok(LiteralToken(Number, Tokens.Num(value)));
    }

    /** `scanSymbolToken(c)`. */
    method ScanSymbolToken(c: char) returns (r: Result<Token, Error>)
      modifies this
      ensures (r, State()) == ScanSymbolTokenF(old(State()), c)
    {
      if c !in SymbolTokens.children {
        var e := WrapError(UnknownSymbol([c]));
        return Err(e);
      }
      var node := SymbolTokens.children[c];
      var seen := [c];
      var lastValue := node.value;
      while true
        invariant SymbolLoopF(State(), node, seen, lastValue) == ScanSymbolF(SymbolTokens, old(State()), c)
        decreases Measure(State())
      {
        ghost var before := State();
        var ch := NextChar();
        NextCharMeasure(before);
        if !(ch.Ch? && ch.c in node.children) {
          PutBack(ch);
          if lastValue.None? {
            var e := WrapError(UnknownSymbol(seen));
            return Err(e);
          }
          return Ok(Token(lastValue.value, None));
        }
        seen := seen + [ch.c];
        node := node.children[ch.c];
        if node.value.Some? {
          lastValue := node.value;
        }
      }
    }

    /** `scanNext()`. */
    method ScanNext() returns (r: Result<Token, Error>)
      modifies this
      ensures (r, State()) == ScanNextF(old(State()))
    {
      SkipWhitespace();
      var next := NextChar();
      if next == Sym.EOF {
        return Ok(Token(TokenType.EOF, None));
      }
      if IsDigit(next.c) {
        r := ScanNumberLiteral(next.c);
        return;
      }
      if next.c in SymbolTokens.children {
        r := ScanSymbolToken(next.c);
        return;
      }
      var e := WrapError(UnknownSymbol([next.c]));
      r := Err(e);
    }
  }
}
