/** The expression printer (src/interpreter/parsing/astprinter.ts): `astToString` writes a
    tree fully parenthesised, one pair of parentheses per operator node. */
module Printer {
  import opened Tokens
  import opened Ast

  /** The node kinds `astToString` handles: the two kinds of `ASTNode` and a unary operator
      node, which the printer handles although the tree module defines no such node. */
  datatype PrintNode =
    | PLiteral(value: Value)
    | PBinary(op: BinaryOpType, left: PrintNode, right: PrintNode)
    | PUnary(unaryOp: string, child: PrintNode)

  /** An expression tree as the printer sees it. */
  function FromAst(n: ASTNode): (p: PrintNode)
    ensures n.ASTLiteral? <==> p.PLiteral?
  {
    match n
    case ASTLiteral(_, v) => PLiteral(v)
    case BinaryOp(op, l, r) => PBinary(op, FromAst(l), FromAst(r))
  }

  /** `value.toString()`: a string is itself; a number is written by `numStr`, which stands
      for JavaScript's number formatting. */
  function ValueString(v: Value, numStr: real -> string): string {
    match v
    case Str(s) => s
    case Num(x) => numStr(x)
  }

  /** `astToString`. */
  function AstToString(n: PrintNode, numStr: real -> string): (s: string)
    ensures !n.PLiteral? ==> |s| >= 2 && s[0] == '(' && s[|s| - 1] == ')'
  {
    match n
    case PLiteral(v) => ValueString(v, numStr)
    case PBinary(op, l, r) =>
      "(" + AstToString(l, numStr) + " " + Symbol(op) + " " + AstToString(r, numStr) + ")"
    case PUnary(op, c) => "(" + op + AstToString(c, numStr) + ")"
  }

  // ---------------------------------------------------------------------------------------
  // Parentheses

  function Count(ch: char, s: string): nat {
    if s == [] then 0 else (if s[0] == ch then 1 else 0) + Count(ch, s[1..])
  }

  lemma {:induction false} CountAppend(ch: char, a: string, b: string)
    ensures Count(ch, a + b) == Count(ch, a) + Count(ch, b)
  {
    if a == [] {
      assert a + b == b;
    } else {
      assert (a + b)[1..] == a[1..] + b;
      CountAppend(ch, a[1..], b);
    }
  }

  lemma SymbolHasNoParens(op: BinaryOpType, ch: char)
    requires ch == '(' || ch == ')' || ch == ' '
    ensures Count(ch, Symbol(op)) == 0
  {
    assert Symbol(op)[1..] == [];
  }

  function OperatorNodes(n: PrintNode): nat {
    match n
    case PLiteral(_) => 0
    case PBinary(_, l, r) => OperatorNodes(l) + 1 + OperatorNodes(r)
    case PUnary(_, c) => 1 + OperatorNodes(c)
  }

  /** How often `ch` occurs in the texts the printer copies: literal values and unary
      operator names. */
  function CopiedCount(ch: char, n: PrintNode, numStr: real -> string): nat {
    match n
    case PLiteral(v) => Count(ch, ValueString(v, numStr))
    case PBinary(_, l, r) => CopiedCount(ch, l, numStr) + CopiedCount(ch, r, numStr)
    case PUnary(op, c) => Count(ch, op) + CopiedCount(ch, c, numStr)
  }

  /** Each operator node adds one opening and one closing parenthesis; every other
      parenthesis in the output was copied from a literal or an operator name. */
  lemma {:induction false} ParenthesesPerOperator(n: PrintNode, numStr: real -> string)
    ensures Count('(', AstToString(n, numStr)) == OperatorNodes(n) + CopiedCount('(', n, numStr)
    ensures Count(')', AstToString(n, numStr)) == OperatorNodes(n) + CopiedCount(')', n, numStr)
  {
    match n
    case PLiteral(_) =>
    case PBinary(op, l, r) =>
      ParenthesesPerOperator(l, numStr);
      ParenthesesPerOperator(r, numStr);
      var a, b := AstToString(l, numStr), AstToString(r, numStr);
      SymbolHasNoParens(op, '(');
      SymbolHasNoParens(op, ')');
      CountsOfBinary(a, Symbol(op), b);
    case PUnary(op, c) =>
      ParenthesesPerOperator(c, numStr);
      CountsOfUnary(op, AstToString(c, numStr));
  }

  lemma CountsOfBinary(a: string, op: string, b: string)
    ensures Count('(', "(" + a + " " + op + " " + b + ")") == 1 + Count('(', a) + Count('(', op) + Count('(', b)
    ensures Count(')', "(" + a + " " + op + " " + b + ")") == 1 + Count(')', a) + Count(')', op) + Count(')', b)
  {
    forall ch: char | ch == '(' || ch == ')'
      ensures Count(ch, "(" + a + " " + op + " " + b + ")") ==
        Count(ch, "(") + Count(ch, a) + Count(ch, " ") + Count(ch, op) + Count(ch, " ") + Count(ch, b) + Count(ch, ")")
    {
      CountAppend(ch, "(" + a + " " + op + " " + b, ")");
      CountAppend(ch, "(" + a + " " + op + " ", b);
      CountAppend(ch, "(" + a + " " + op, " ");
      CountAppend(ch, "(" + a + " ", op);
      CountAppend(ch, "(" + a, " ");
      CountAppend(ch, "(", a);
    }
  }

  lemma CountsOfUnary(op: string, a: string)
    ensures Count('(', "(" + op + a + ")") == 1 + Count('(', op) + Count('(', a)
    ensures Count(')', "(" + op + a + ")") == 1 + Count(')', op) + Count(')', a)
  {
    forall ch: char | ch == '(' || ch == ')'
      ensures Count(ch, "(" + op + a + ")") == Count(ch, "(") + Count(ch, op) + Count(ch, a) + Count(ch, ")")
    {
      CountAppend(ch, "(" + op + a, ")");
      CountAppend(ch, "(" + op, a);
      CountAppend(ch, "(", op);
    }
  }

  /** Parentheses opened minus parentheses closed. */
  function Net(s: string): int {
    Count('(', s) - Count(')', s)
  }

  /** Read from depth `d`, no prefix of `s` closes more parentheses than are open. */
  predicate NeverBelow(d: int, s: string) {
    forall k :: 0 <= k <= |s| ==> d + Net(s[..k]) >= 0
  }

  /** Every `)` closes an earlier `(`, and every `(` is closed. */
  predicate Balanced(s: string) {
    Net(s) == 0 && NeverBelow(0, s)
  }

  /** With no parenthesis in any literal or operator name, the output is balanced: one pair
      per operator node, and the pairs nest. */
  lemma {:induction false} BalancedWhenLiteralsAreClean(n: PrintNode, numStr: real -> string)
    requires CopiedCount('(', n, numStr) == 0 && CopiedCount(')', n, numStr) == 0
    ensures Count('(', AstToString(n, numStr)) == Count(')', AstToString(n, numStr)) == OperatorNodes(n)
    ensures Balanced(AstToString(n, numStr))
  {
    ParenthesesPerOperator(n, numStr);
    match n
    case PLiteral(v) =>
      ParenFree(ValueString(v, numStr));
    case PBinary(op, l, r) =>
      BalancedWhenLiteralsAreClean(l, numStr);
      BalancedWhenLiteralsAreClean(r, numStr);
      var a, b := AstToString(l, numStr), AstToString(r, numStr);
      SymbolHasNoParens(op, '(');
      SymbolHasNoParens(op, ')');
      ParenFree(Symbol(op));
      ParenFree(" ");
      var inner := a + " " + Symbol(op) + " " + b;
      BalancedConcat(a, " ");
      BalancedConcat(a + " ", Symbol(op));
      BalancedConcat(a + " " + Symbol(op), " ");
      BalancedConcat(a + " " + Symbol(op) + " ", b);
      Wrapped(inner);
      assert "(" + inner + ")" == AstToString(n, numStr);
    case PUnary(op, c) =>
      BalancedWhenLiteralsAreClean(c, numStr);
      ParenFree(op);
      BalancedConcat(op, AstToString(c, numStr));
      Wrapped(op + AstToString(c, numStr));
      assert "(" + (op + AstToString(c, numStr)) + ")" == AstToString(n, numStr);
  }

  lemma NetAppend(a: string, b: string)
    ensures Net(a + b) == Net(a) + Net(b)
  {
    CountAppend('(', a, b);
    CountAppend(')', a, b);
  }

  lemma NeverBelowConcat(d: int, a: string, b: string)
    requires NeverBelow(d, a) && NeverBelow(d + Net(a), b)
    ensures NeverBelow(d, a + b)
  {
    forall k | 0 <= k <= |a + b|
      ensures d + Net((a + b)[..k]) >= 0
    {
      if k <= |a| {
        assert (a + b)[..k] == a[..k];
      } else {
        var j := k - |a|;
        assert (a + b)[..k] == a + b[..j];
        NetAppend(a, b[..j]);
        assert d + Net(a) + Net(b[..j]) >= 0;
      }
    }
  }

  lemma BalancedConcat(a: string, b: string)
    requires Balanced(a) && Balanced(b)
    ensures Balanced(a + b)
  {
    NetAppend(a, b);
    NeverBelowConcat(0, a, b);
  }

  /** A balanced text inside one more pair of parentheses is balanced. */
  lemma Wrapped(inner: string)
    requires Balanced(inner)
    ensures Balanced("(" + inner + ")")
  {
    assert Count('(', "(") == 1 && Count(')', "(") == 0 by { assert "("[1..] == []; }
    assert Count('(', ")") == 0 && Count(')', ")") == 1 by { assert ")"[1..] == []; }
    assert NeverBelow(0, "(") by {
      assert forall k | 0 <= k <= 1 :: "("[..k] == if k == 0 then [] else "(";
    }
    assert NeverBelow(1, inner);
    NeverBelowConcat(0, "(", inner);
    NetAppend("(", inner);
    assert NeverBelow(1, ")") by {
      assert forall k | 0 <= k <= 1 :: ")"[..k] == if k == 0 then [] else ")";
    }
    NeverBelowConcat(0, "(" + inner, ")");
    NetAppend("(" + inner, ")");
  }

  /** A text with no parentheses is balanced. */
  lemma ParenFree(s: string)
    requires Count('(', s) == 0 && Count(')', s) == 0
    ensures Balanced(s)
  {
    forall k | 0 <= k <= |s|
      ensures Net(s[..k]) >= 0
    {
      assert s == s[..k] + s[k..];
      CountAppend('(', s[..k], s[k..]);
      CountAppend(')', s[..k], s[k..]);
    }
  }

  // ---------------------------------------------------------------------------------------
  // Reading order

  /** The output with its parentheses and spaces removed. */
  function Erase(s: string): string {
    if s == [] then []
    else (if s[0] in {'(', ')', ' '} then [] else [s[0]]) + Erase(s[1..])
  }

  lemma {:induction false} EraseAppend(a: string, b: string)
    ensures Erase(a + b) == Erase(a) + Erase(b)
  {
    if a == [] {
      assert a + b == b;
    } else {
      assert (a + b)[1..] == a[1..] + b;
      EraseAppend(a[1..], b);
    }
  }

  /** The text of a lexeme as the printer writes it. */
  function LexemeText(l: Lexeme, numStr: real -> string): string {
    match l
    case LitLex(_, v) => ValueString(v, numStr)
    case OpLex(op) => Symbol(op)
  }

  function Spelling(ls: seq<Lexeme>, numStr: real -> string): string {
    if ls == [] then [] else LexemeText(ls[0], numStr) + Spelling(ls[1..], numStr)
  }

  lemma {:induction false} SpellingAppend(a: seq<Lexeme>, b: seq<Lexeme>, numStr: real -> string)
    ensures Spelling(a + b, numStr) == Spelling(a, numStr) + Spelling(b, numStr)
  {
    if a == [] {
      assert a + b == b;
    } else {
      assert (a + b)[1..] == a[1..] + b;
      SpellingAppend(a[1..], b, numStr);
    }
  }

  /** No literal of the tree prints a parenthesis or a space. */
  predicate CleanLiterals(t: ASTNode, numStr: real -> string) {
    match t
    case ASTLiteral(_, v) => Erase(ValueString(v, numStr)) == ValueString(v, numStr)
    case BinaryOp(_, l, r) => CleanLiterals(l, numStr) && CleanLiterals(r, numStr)
  }

  /** Erasing the parentheses and spaces of a printed tree gives back its literals and
      operators in the order the parser read them, left operand first. */
  lemma {:induction false} PrintedInReadingOrder(t: ASTNode, numStr: real -> string)
    requires CleanLiterals(t, numStr)
    ensures Erase(AstToString(FromAst(t), numStr)) == Spelling(InOrder(t), numStr)
  {
    match t
    case ASTLiteral(lt, v) =>
      assert Spelling([LitLex(lt, v)], numStr) == ValueString(v, numStr) + Spelling([], numStr);
    case BinaryOp(op, l, r) =>
      PrintedInReadingOrder(l, numStr);
      PrintedInReadingOrder(r, numStr);
      ReadingOrderStep(op, l, r, numStr);
  }

  lemma ReadingOrderStep(op: BinaryOpType, l: ASTNode, r: ASTNode, numStr: real -> string)
    requires Erase(AstToString(FromAst(l), numStr)) == Spelling(InOrder(l), numStr)
    requires Erase(AstToString(FromAst(r), numStr)) == Spelling(InOrder(r), numStr)
    ensures Erase(AstToString(FromAst(ASTNode.BinaryOp(op, l, r)), numStr)) == Spelling(InOrder(ASTNode.BinaryOp(op, l, r)), numStr)
  {
    var a, b := AstToString(FromAst(l), numStr), AstToString(FromAst(r), numStr);
    assert Erase(AstToString(FromAst(ASTNode.BinaryOp(op, l, r)), numStr)) == Erase(a) + Symbol(op) + Erase(b) by {
      assert AstToString(FromAst(ASTNode.BinaryOp(op, l, r)), numStr) == "(" + a + " " + Symbol(op) + " " + b + ")";
      ErasedBinary(a, Symbol(op), b);
      assert Erase(Symbol(op)) == Symbol(op) by {
        assert Symbol(op)[1..] == [];
      }
    }
    SpelledBinary(InOrder(l), op, InOrder(r), numStr);
  }

  lemma ErasedBinary(a: string, op: string, b: string)
    ensures Erase("(" + a + " " + op + " " + b + ")") == Erase(a) + Erase(op) + Erase(b)
  {
    var s1 := "(" + a;
    var s2 := s1 + " ";
    var s3 := s2 + op;
    var s4 := s3 + " ";
    var s5 := s4 + b;
    assert Erase(s1) == Erase(a) by {
      EraseAppend("(", a);
      ErasedMark('(');
    }
    assert Erase(s2) == Erase(a) by {
      EraseAppend(s1, " ");
      ErasedMark(' ');
    }
    assert Erase(s3) == Erase(a) + Erase(op) by {
      EraseAppend(s2, op);
    }
    assert Erase(s4) == Erase(a) + Erase(op) by {
      EraseAppend(s3, " ");
      ErasedMark(' ');
    }
    assert Erase(s5) == Erase(a) + Erase(op) + Erase(b) by {
      EraseAppend(s4, b);
    }
    assert Erase(s5 + ")") == Erase(s5) by {
      EraseAppend(s5, ")");
      ErasedMark(')');
    }
  }

  lemma ErasedMark(ch: char)
    requires ch in {'(', ')', ' '}
    ensures Erase([ch]) == []
  {
    assert [ch][1..] == [];
  }

  lemma SpelledBinary(l: seq<Lexeme>, op: BinaryOpType, r: seq<Lexeme>, numStr: real -> string)
    ensures Spelling(l + [OpLex(op)] + r, numStr) == Spelling(l, numStr) + Symbol(op) + Spelling(r, numStr)
  {
    var tail := [OpLex(op)] + r;
    assert l + [OpLex(op)] + r == l + tail;
    SpellingAppend(l, tail, numStr);
    assert Spelling(tail, numStr) == Symbol(op) + Spelling(r, numStr) by {
      assert tail[0] == OpLex(op) && tail[1..] == r;
    }
  }
}
