/** The expression parser (src/interpreter/parsing/parser.ts): precedence climbing over the
    scanner's token queue. The parser object holds its scanner and the current token; its
    methods are specified by functions over a `Cursor`, the parser's view of that state, and
    the grammar properties are proved about those functions. */
module Parsing {
  import opened Wrappers
  import opened Errors
  import opened Tokens
  import opened Ast
  import opened CharStream
  import Scanning

  // ---------------------------------------------------------------------------------------
  // The parser's view of its state

  /** The current token, the tokens still queued in scan order (absent before scanning) and
      the scanner position that EOF tokens are stamped with. */
  datatype Cursor = Cursor(current: Token, queue: Option<seq<Token>>, line: int, column: int)

  /** The scanner keeps its tokens reversed; the parser sees them in scan order. */
  function QueueOf(stack: Option<seq<Token>>): Option<seq<Token>> {
    if stack.None? then None else Some(Reverse(stack.value))
  }

  /** The token `n` places into the queue, or an EOF token when there is none. */
  function Front(c: Cursor, n: nat): Token {
    if c.queue.Some? && n < |c.queue.value| then c.queue.value[n]
    else Scanning.EofToken(c.line, c.column)
  }

  /** The current token is the front of the queue, or an EOF token (the placeholder the
      constructor leaves when scanning failed). */
  predicate Synced(c: Cursor) {
    c.current.TokenKind() == Scanning.EofKind || c.current == Front(c, 0)
  }

  function Remaining(c: Cursor): nat {
    if c.queue.None? then 0 else |c.queue.value|
  }

  /** Shrinks with every token consumed. */
  function Size(c: Cursor): nat {
    2 * Remaining(c) + if c.current.TokenKind() == Scanning.EofKind then 0 else 1
  }

  /** `next`: the current token becomes the one after the front, and the front is consumed
      and returned. */
  function NextF(c: Cursor): (r: (Token, Cursor))
    ensures Synced(r.1)
    ensures r.1.line == c.line && r.1.column == c.column
    ensures c.current.TokenKind() != Scanning.EofKind ==> Size(r.1) < Size(c)
  {
    var rest := if c.queue.Some? && c.queue.value != [] then Some(c.queue.value[1..]) else c.queue;
    (Front(c, 0), Cursor(Front(c, 1), rest, c.line, c.column))
  }

  /** Looking into the reversed stack from its top is looking into the queue from its front. */
  lemma FrontOnStack(current: Token, stack: Option<seq<Token>>, line: int, column: int, n: nat)
    ensures Front(Cursor(current, QueueOf(stack), line, column), n) ==
      Scanning.LookAheadF(stack, line, column, n)
  {
    if stack.Some? && n < |stack.value| {
      ReverseIndex(stack.value, n);
    }
  }

  /** `next` on the parser's view is `lookAhead(1)` followed by `advance` on the scanner's
      stack. */
  lemma NextOnStack(current: Token, stack: Option<seq<Token>>, line: int, column: int)
    ensures NextF(Cursor(current, QueueOf(stack), line, column)) ==
      var popped := Scanning.AdvanceF(stack, line, column);
      (popped.0, Cursor(Scanning.LookAheadF(stack, line, column, 1), QueueOf(popped.1), line, column))
  {
    FrontOnStack(current, stack, line, column, 0);
    FrontOnStack(current, stack, line, column, 1);
    if stack.Some? && stack.value != [] {
      var s := stack.value;
      assert Reverse(s)[1..] == Reverse(s[..|s| - 1]);
    }
  }

  lemma {:induction false} ReverseTwice<X>(s: seq<X>)
    ensures Reverse(Reverse(s)) == s
  {
    forall i | 0 <= i < |s|
      ensures Reverse(Reverse(s))[i] == s[i]
    {
      ReverseIndex(Reverse(s), i);
      ReverseIndex(s, |s| - 1 - i);
    }
  }

  // ---------------------------------------------------------------------------------------
  // Specification of the parsing functions

  /** `wrapError`: stamp an error with the current token's line and column. */
  function WrapAt(e: Error, token: Token): (r: Error)
    ensures r.errorCode == e.errorCode && r.msg == e.msg
    ensures r.lineNumber == Some(token.line) && r.columnNumber == Some(token.column)
  {
    e.(lineNumber := Some(token.line), columnNumber := Some(token.column))
  }

  /** `getPrecedence`: the table value of an operator token's operator, whether the operator
      is carried as a `BinaryOpToken` or, as the scanner builds them, as the token type. */
  function GetPrecedence(token: Token): (p: Option<nat>)
    ensures p.Some? <==> token.BinaryOpToken? || token.TokenKind().OpSymbol?
    ensures token.BinaryOpToken? ==> p == Some(Precedence(token.binaryOp))
    ensures token.TokenKind().OpSymbol? ==> p == Some(Precedence(token.TokenKind().op))
  {
    if token.BinaryOpToken? then Some(Precedence(token.binaryOp))
    else if token.TokenKind().OpSymbol? then Some(Precedence(token.TokenKind().op))
    else None
  }

  /** The tokens that end an expression. */
  const ExprFlags: seq<TokenType> := [TokenType.EOF, Semicolon]

  /** `parseTerminalNode`: a literal current token is consumed and becomes a literal node;
      anything else is an UnexpectedToken error stamped with the token's position. */
  function ParseTerminalF(c: Cursor): (r: (Result<ASTNode, Error>, Cursor))
    requires Synced(c)
    ensures Synced(r.1)
    ensures r.0.Err? ==> r.1 == c
    ensures r.0.Ok? ==> c.current.LiteralToken? && r.0.value == ASTLiteral(c.current.literalType, c.current.literal)
    ensures r.0.Ok? ==> r.1 == NextF(c).1 && Size(r.1) < Size(c)
    ensures r.0.Err? ==>
      r.0.error == WrapAt(UnexpectedToken(KindName(c.current.TokenKind()), [KindName(Std(TokenType.Literal))]), c.current)
  {
    if !c.current.Expect([TokenType.Literal]) then
      (Err(WrapAt(UnexpectedToken(KindName(c.current.TokenKind()), [KindName(Std(TokenType.Literal))]), c.current)), c)
    else
      var next := NextF(c);
      assert next.0 == c.current;
      (Ok(ASTLiteral(c.current.literalType, next.0.TokenValue().value)), next.1)
  }

  /** `parseExpression(prev)`: a terminal, then, while the current token is an operator
      binding tighter than `prev`, that operator and a right operand parsed at the operator's
      own precedence. (The source also tests the precedence for truthiness; with `prev` at
      least 0, a precedence above `prev` is never 0.) */
  function ParseExpressionF(c: Cursor, prev: nat): (r: (Result<ASTNode, Error>, Cursor))
    requires Synced(c)
    ensures Synced(r.1) && Size(r.1) <= Size(c)
    decreases Size(c), 1
  {
    var term := ParseTerminalF(c);
    var c1 := term.1;
    if term.0.Err? || !c1.current.BinaryOpToken? || c1.current.Expect(ExprFlags) then term
    else ParseLoopF(term.0.value, c1, prev)
  }

  /** The loop of `parseExpression`, entered with the operator token current. */
  function ParseLoopF(left: ASTNode, c: Cursor, prev: nat): (r: (Result<ASTNode, Error>, Cursor))
    requires Synced(c) && c.current.BinaryOpToken?
    ensures Synced(r.1) && Size(r.1) <= Size(c)
    decreases Size(c), 0
  {
    var token := c.current;
    var p := GetPrecedence(token);
    if p.None? || p.value <= prev then (Ok(left), c)
    else
      var right := ParseExpressionF(NextF(c).1, p.value);
      var c2 := right.1;
      if right.0.Err? then right
      else
        var joined := ASTNode.BinaryOp(token.binaryOp, left, right.0.value);
        if c2.current.Expect(ExprFlags) || !c2.current.BinaryOpToken? then (Ok(joined), c2)
        else ParseLoopF(joined, c2, prev)
  }

  // ---------------------------------------------------------------------------------------
  // What a parse consumes

  /** The token `t` is the one the lexeme `l` was read from. */
  predicate Spells(t: Token, l: Lexeme) {
    match l
    case LitLex(lt, v) => t.LiteralToken? && t.literalType == lt && t.literal == v
    case OpLex(op) => t.BinaryOpToken? && t.binaryOp == op
  }

  predicate SpelledBy(ts: seq<Token>, ls: seq<Lexeme>) {
    |ts| == |ls| && forall i :: 0 <= i < |ts| ==> Spells(ts[i], ls[i])
  }

  /** Going from `c` to `d` consumed exactly the front tokens spelling `ls`. */
  predicate Consumes(c: Cursor, d: Cursor, ls: seq<Lexeme>) {
    c.queue.Some? && d.queue.Some? && |ls| <= |c.queue.value| &&
    d.queue.value == c.queue.value[|ls|..] && SpelledBy(c.queue.value[..|ls|], ls)
  }

  lemma ConsumesThen(a: Cursor, b: Cursor, d: Cursor, l1: seq<Lexeme>, l2: seq<Lexeme>)
    requires Consumes(a, b, l1) && Consumes(b, d, l2)
    ensures Consumes(a, d, l1 + l2)
  {
    var q := a.queue.value;
    var n := |l1|;
    assert d.queue.value == q[n + |l2|..];
    forall i | 0 <= i < n + |l2|
      ensures Spells(q[..n + |l2|][i], (l1 + l2)[i])
    {
      if i >= n {
        assert q[..n + |l2|][i] == b.queue.value[..|l2|][i - n];
      } else {
        assert q[..n + |l2|][i] == q[..n][i];
      }
    }
  }

  /** Consuming the current token when it is the front of the queue. */
  lemma NextConsumes(c: Cursor, l: Lexeme)
    requires Synced(c) && c.current.TokenKind() != Scanning.EofKind && Spells(c.current, l)
    ensures Consumes(c, NextF(c).1, [l])
  {
    assert c.current == Front(c, 0);
  }

  /** A successful parse consumed exactly the tokens it read, in order: reading the tree
      left to right spells the tokens taken from the front of the queue, and nothing else
      was taken. */
  lemma {:induction false} ParseExpressionConsumes(c: Cursor, prev: nat)
    requires Synced(c)
    ensures var r := ParseExpressionF(c, prev);
      r.0.Ok? ==> Consumes(c, r.1, InOrder(r.0.value))
    decreases Size(c), 1
  {
    var term := ParseTerminalF(c);
    if term.0.Ok? {
      var lit := term.0.value;
      NextConsumes(c, LitLex(lit.literalType, lit.value));
      var c1 := term.1;
      if c1.current.BinaryOpToken? && !c1.current.Expect(ExprFlags) {
        ParseLoopConsumes(lit, c1, prev);
        var r := ParseLoopF(lit, c1, prev);
        if r.0.Ok? {
          var t := r.0.value;
          var k := |InOrder(lit)|;
          ConsumesThen(c, c1, r.1, InOrder(lit), InOrder(t)[k..]);
          assert InOrder(lit) + InOrder(t)[k..] == InOrder(t);
        }
      }
    }
  }

  /** Going from `c` to `d` turned the tree `left` into `t` by reading on from the tokens
      at the front of `c`'s queue. */
  predicate Extends(left: ASTNode, t: ASTNode, c: Cursor, d: Cursor) {
    var k := |InOrder(left)|;
    k <= |InOrder(t)| && InOrder(t)[..k] == InOrder(left) && Consumes(c, d, InOrder(t)[k..])
  }

  lemma ExtendsThen(left: ASTNode, mid: ASTNode, t: ASTNode, c: Cursor, c2: Cursor, d: Cursor)
    requires Extends(left, mid, c, c2) && Extends(mid, t, c2, d)
    ensures Extends(left, t, c, d)
  {
    var k := |InOrder(left)|;
    var j := |InOrder(mid)|;
    ConsumesThen(c, c2, d, InOrder(mid)[k..], InOrder(t)[j..]);
    assert InOrder(t)[..j][..k] == InOrder(t)[..k];
    assert InOrder(t)[k..] == InOrder(mid)[k..] + InOrder(t)[j..];
  }

  /** One turn of the loop: the operator and the right operand are read, in that order. */
  lemma JoinExtends(left: ASTNode, c: Cursor, right: ASTNode, c2: Cursor)
    requires Synced(c) && c.current.BinaryOpToken?
    requires Consumes(NextF(c).1, c2, InOrder(right))
    ensures Extends(left, ASTNode.BinaryOp(c.current.binaryOp, left, right), c, c2)
  {
    var op := c.current.binaryOp;
    NextConsumes(c, OpLex(op));
    ConsumesThen(c, NextF(c).1, c2, [OpLex(op)], InOrder(right));
    var joined := ASTNode.BinaryOp(op, left, right);
    var k := |InOrder(left)|;
    assert InOrder(joined) == InOrder(left) + ([OpLex(op)] + InOrder(right));
    assert InOrder(joined)[..k] == InOrder(left);
    assert InOrder(joined)[k..] == [OpLex(op)] + InOrder(right);
  }

  lemma {:induction false} ParseLoopConsumes(left: ASTNode, c: Cursor, prev: nat)
    requires Synced(c) && c.current.BinaryOpToken?
    ensures var r := ParseLoopF(left, c, prev);
      r.0.Ok? ==> Extends(left, r.0.value, c, r.1)
    decreases Size(c), 0
  {
    var token := c.current;
    var p := GetPrecedence(token);
    if p.None? || p.value <= prev {
      var k := |InOrder(left)|;
      assert InOrder(left)[k..] == [] && InOrder(left)[..k] == InOrder(left);
      assert c.queue.Some? by {
        assert c.current == Front(c, 0);
      }
    } else {
      var c1 := NextF(c).1;
      ParseExpressionConsumes(c1, p.value);
      var right := ParseExpressionF(c1, p.value);
      if right.0.Ok? {
        var c2 := right.1;
        var joined := ASTNode.BinaryOp(token.binaryOp, left, right.0.value);
        JoinExtends(left, c, right.0.value, c2);
        if !(c2.current.Expect(ExprFlags) || !c2.current.BinaryOpToken?) {
          ParseLoopConsumes(joined, c2, prev);
          var r := ParseLoopF(joined, c2, prev);
          if r.0.Ok? {
            ExtendsThen(left, joined, r.0.value, c, c2, r.1);
          }
        }
      }
    }
  }

  // ---------------------------------------------------------------------------------------
  // The shape of a parse

  /** Precedence climbing's nesting: a left operand binds at least as tightly as its
      operator (equal precedence groups to the left), a right operand strictly tighter. */
  predicate Nested(n: ASTNode) {
    match n
    case ASTLiteral(_, _) => true
    case BinaryOp(op, l, r) =>
      Nested(l) && Nested(r) &&
      (l.BinaryOp? ==> Precedence(l.op) >= Precedence(op)) &&
      (r.BinaryOp? ==> Precedence(r.op) > Precedence(op))
  }

  /** The root operator, if any, binds tighter than `prev`. */
  predicate Above(n: ASTNode, prev: nat) {
    n.BinaryOp? ==> Precedence(n.op) > prev
  }

  /** The parse stopped at a token it could not continue with: an operator token left current
      does not bind tighter than `prev`. */
  predicate StopsFor(c: Cursor, prev: nat) {
    c.current.BinaryOpToken? ==> Precedence(c.current.binaryOp) <= prev
  }

  /** The parse failed at the token `d` left current: it is not a literal, and the error is
      that token's UnexpectedToken, stamped at it. */
  predicate FailedAt(e: Error, d: Cursor) {
    !d.current.LiteralToken? &&
    e == WrapAt(UnexpectedToken(KindName(d.current.TokenKind()), [KindName(Std(TokenType.Literal))]), d.current)
  }

  /** A successful `parseExpression(prev)` builds a tree nested by precedence whose root
      binds tighter than `prev`, and stops at a token it cannot continue with; a failure is
      the UnexpectedToken error of the terminal that failed, passed up unchanged. */
  lemma {:induction false} ParseExpressionShape(c: Cursor, prev: nat)
    requires Synced(c)
    ensures var r := ParseExpressionF(c, prev);
      (r.0.Ok? ==> Nested(r.0.value) && Above(r.0.value, prev) && StopsFor(r.1, prev)) &&
      (r.0.Err? ==> r.0.error.errorCode == "UNEXP_TOKEN" && FailedAt(r.0.error, r.1))
    decreases Size(c), 1
  {
    var term := ParseTerminalF(c);
    if term.0.Ok? {
      var c1 := term.1;
      if c1.current.BinaryOpToken? && !c1.current.Expect(ExprFlags) {
        ParseLoopShape(term.0.value, c1, prev);
      }
    }
  }

  lemma {:induction false} ParseLoopShape(left: ASTNode, c: Cursor, prev: nat)
    requires Synced(c) && c.current.BinaryOpToken?
    requires Nested(left) && Above(left, prev)
    requires left.BinaryOp? ==> Precedence(c.current.binaryOp) <= Precedence(left.op)
    ensures var r := ParseLoopF(left, c, prev);
      (r.0.Ok? ==> Nested(r.0.value) && Above(r.0.value, prev) && StopsFor(r.1, prev)) &&
      (r.0.Err? ==> r.0.error.errorCode == "UNEXP_TOKEN" && FailedAt(r.0.error, r.1))
    decreases Size(c), 0
  {
    var token := c.current;
    var p := GetPrecedence(token);
    if p.Some? && p.value > prev {
      var c1 := NextF(c).1;
      ParseExpressionShape(c1, p.value);
      var right := ParseExpressionF(c1, p.value);
      if right.0.Ok? {
        var c2 := right.1;
        var joined := ASTNode.BinaryOp(token.binaryOp, left, right.0.value);
        if !(c2.current.Expect(ExprFlags) || !c2.current.BinaryOpToken?) {
          ParseLoopShape(joined, c2, prev);
        }
      }
    }
  }

  /** A literal followed by a token the expression cannot continue with is parsed alone: the
      literal is consumed and the stopping token is left current. This is how parsing stops
      at EOF, at `;`, at a non-operator token, and at an operator that does not bind tighter
      than `prev`. */
  lemma TerminalThenStop(c: Cursor, prev: nat)
    requires Synced(c) && c.current.LiteralToken? && StopsFor(NextF(c).1, prev)
    ensures ParseExpressionF(c, prev) == (Ok(ASTLiteral(c.current.literalType, c.current.literal)), NextF(c).1)
  {
    var c1 := NextF(c).1;
    if c1.current.BinaryOpToken? && !c1.current.Expect(ExprFlags) {
      assert ParseLoopF(ASTLiteral(c.current.literalType, c.current.literal), c1, prev).1 == c1;
    }
  }

  /** A literal followed by an operator token enters the loop with that operator current. */
  lemma TerminalThenOperator(c: Cursor, prev: nat)
    requires Synced(c) && c.current.LiteralToken? && NextF(c).1.current.BinaryOpToken?
    ensures ParseExpressionF(c, prev) == ParseLoopF(ASTLiteral(c.current.literalType, c.current.literal), NextF(c).1, prev)
  {
    assert NextF(c).1.current.TokenKind() == Std(TokenType.BinaryOp);
  }

  /** Operator tokens as the newer scanner builds them (a plain `Token` whose type is the
      operator) are not `BinaryOpToken`s, so the expression ends after its first literal and
      the operator is left current. */
  lemma ScannerOperatorEndsExpression(c: Cursor, prev: nat)
    requires Synced(c) && c.current.LiteralToken?
    requires Front(c, 1).Token? && Front(c, 1).kind.OpSymbol?
    ensures ParseExpressionF(c, prev) ==
      (Ok(ASTLiteral(c.current.literalType, c.current.literal)), NextF(c).1)
    ensures NextF(c).1.current == Front(c, 1)
  {
  }

  // ---------------------------------------------------------------------------------------
  // Two worked examples

  function NumTok(x: real): Token {
    LiteralToken(Number, 0, 0, Num(x))
  }

  function OpTok(op: BinaryOpType): Token {
    BinaryOpToken(op, 0, 0)
  }

  function NumNode(x: real): ASTNode {
    ASTLiteral(Number, Num(x))
  }

  /** The parser's view once the first `k` tokens of `q` have been consumed, with the
      scanner at 0:0. */
  function After(q: seq<Token>, k: nat): Cursor
    requires k <= |q|
  {
    Cursor(if k < |q| then q[k] else Scanning.EofToken(0, 0), Some(q[k..]), 0, 0)
  }

  lemma NextAfter(q: seq<Token>, k: nat)
    requires k < |q|
    ensures NextF(After(q, k)) == (q[k], After(q, k + 1))
  {
    assert q[k..][1..] == q[k + 1..];
  }

  /** `1+2*3` groups as `1+(2*3)`. */
  lemma TighterOperatorGroupsFirst()
    ensures var q := [NumTok(1.0), OpTok(Plus), NumTok(2.0), OpTok(Asterisk), NumTok(3.0)];
      ParseExpressionF(After(q, 0), 0).0 ==
        Ok(ASTNode.BinaryOp(Plus, NumNode(1.0), ASTNode.BinaryOp(Asterisk, NumNode(2.0), NumNode(3.0))))
  {
    var q := [NumTok(1.0), OpTok(Plus), NumTok(2.0), OpTok(Asterisk), NumTok(3.0)];
    NextAfter(q, 0);
    NextAfter(q, 1);
    NextAfter(q, 2);
    NextAfter(q, 3);
    NextAfter(q, 4);
    var product := ASTNode.BinaryOp(Asterisk, NumNode(2.0), NumNode(3.0));
    TerminalThenStop(After(q, 4), 9);
    TerminalThenOperator(After(q, 2), 8);
    assert ParseLoopF(NumNode(2.0), After(q, 3), 8) == (Ok(product), After(q, 5));
    TerminalThenOperator(After(q, 0), 0);
    assert ParseLoopF(NumNode(1.0), After(q, 1), 0).0 == Ok(ASTNode.BinaryOp(Plus, NumNode(1.0), product));
  }

  /** `1-2-3` groups as `(1-2)-3`. */
  lemma EqualOperatorsGroupLeft()
    ensures var q := [NumTok(1.0), OpTok(Minus), NumTok(2.0), OpTok(Minus), NumTok(3.0)];
      ParseExpressionF(After(q, 0), 0).0 ==
        Ok(ASTNode.BinaryOp(Minus, ASTNode.BinaryOp(Minus, NumNode(1.0), NumNode(2.0)), NumNode(3.0)))
  {
    var q := [NumTok(1.0), OpTok(Minus), NumTok(2.0), OpTok(Minus), NumTok(3.0)];
    NextAfter(q, 0);
    NextAfter(q, 1);
    NextAfter(q, 2);
    NextAfter(q, 3);
    NextAfter(q, 4);
    var difference := ASTNode.BinaryOp(Minus, NumNode(1.0), NumNode(2.0));
    TerminalThenStop(After(q, 2), 8);
    TerminalThenStop(After(q, 4), 8);
    assert ParseLoopF(difference, After(q, 3), 0).0 == Ok(ASTNode.BinaryOp(Minus, difference, NumNode(3.0)));
    TerminalThenOperator(After(q, 0), 0);
    assert ParseLoopF(NumNode(1.0), After(q, 1), 0).0 == Ok(ASTNode.BinaryOp(Minus, difference, NumNode(3.0)));
  }

  // ---------------------------------------------------------------------------------------
  // The parser object

  class Parser {
    const scanner: Scanning.Scanner
    var currentToken: Token
    var error: Option<Error>

    /** The parser's view of itself and its scanner. */
    ghost function View(): Cursor
      reads this, scanner
    {
      Cursor(currentToken, QueueOf(scanner.tokens), scanner.lineCount, scanner.currentColumn)
    }

    ghost predicate Valid()
      reads this, scanner
    {
      Synced(View())
    }

    /** Scans the whole source; on failure the error is kept and the current token is an
        EOF token at 0:0, otherwise the current token is the first token scanned. */
    constructor(s: Scanning.Scanner)
      modifies s
      ensures scanner == s && Valid()
      ensures error == if old(s.tokens).None? then Scanning.ScanLoopF(old(s.State()), []).0 else None
      ensures error.Some? ==> currentToken == Scanning.EofToken(0, 0)
      ensures error.None? ==> currentToken == Front(View(), 0)
      ensures old(s.tokens).None? && error.None? ==> View().queue == Some(Scanning.ScanLoopF(old(s.State()), []).1)
    {
      scanner := s;
      currentToken := Scanning.EofToken(0, 0);
      error := None;
      new;
      var err := s.ScanTokens();
      if err.Some? {
        error := err;
      } else {
        currentToken := s.Peek();
        FrontOnStack(currentToken, s.tokens, s.lineCount, s.currentColumn, 0);
        if old(s.tokens).None? {
          ReverseTwice(Scanning.ScanLoopF(old(s.State()), []).1);
        }
      }
    }

    /** `next`: returns the token consumed and makes the following one current. */
    method Next() returns (t: Token)
      modifies this, scanner
      ensures (t, View()) == NextF(old(View()))
      ensures error == old(error) && scanner.State() == old(scanner.State())
    {
      currentToken := scanner.LookAhead(1);
      t := scanner.Advance();
      NextOnStack(old(currentToken), old(scanner.tokens), scanner.lineCount, scanner.currentColumn);
    }

    /** `wrapError`: stamps the error with the current token's position. */
    method WrapError(e: Error) returns (r: Error)
      ensures r == WrapAt(e, currentToken)
    {
      r := e.(columnNumber := Some(currentToken.column));
      r := r.(lineNumber := Some(currentToken.line));
    }

    method ParseTerminalNode() returns (r: Result<ASTNode, Error>)
      requires Valid()
      modifies this, scanner
      ensures Valid()
      ensures (r, View()) == ParseTerminalF(old(View()))
      ensures error == old(error) && scanner.State() == old(scanner.State())
    {
      if !currentToken.Expect([TokenType.Literal]) {
        var e := WrapError(UnexpectedToken(KindName(currentToken.TokenKind()), [KindName(Std(TokenType.Literal))]));
        return Err(e);
      }
      var literalType := currentToken.literalType;
      var t := Next();
      return Ok(ASTLiteral(literalType, t.TokenValue().value));
    }

    method ParseExpression(prev: nat) returns (r: Result<ASTNode, Error>)
      requires Valid()
      modifies this, scanner
      ensures Valid()
      ensures (r, View()) == ParseExpressionF(old(View()), prev)
      ensures error == old(error) && scanner.State() == old(scanner.State())
      decreases Size(View())
    {
      ghost var goal := ParseExpressionF(View(), prev);
      ghost var start := Size(View());
      var left := ParseTerminalNode();
      if left.Err? {
        return left;
      }
      var token := currentToken;
      if !token.BinaryOpToken? {
        return left;
      }
      if token.Expect(ExprFlags) {
        return left;
      }
      var tree := left.value;
      while GetPrecedence(token).Some? && GetPrecedence(token).value > prev
        invariant Valid() && token == currentToken && token.BinaryOpToken?
        invariant Size(View()) < start
        invariant ParseLoopF(tree, View(), prev) == goal
        invariant error == old(error) && scanner.State() == old(scanner.State())
        decreases Size(View())
      {
        ghost var here := View();
        var _ := Next();
        var right := ParseExpression(GetPrecedence(token).value);
        if right.Err? {
          return right;
        }
        tree := ASTNode.BinaryOp(token.binaryOp, tree, right.value);
        if currentToken.Expect(ExprFlags) {
          return Ok(tree);
        }
        token := currentToken;
        if !token.BinaryOpToken? {
          return Ok(tree);
        }
      }
      return Ok(tree);
    }
  }
}
