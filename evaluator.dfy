/** The evaluator (src/interpreter/eval/evaluator.ts): `eval` and `evalBinaryOp` walk an
    expression tree, and `next` parses one expression with the parser and evaluates it. */
module Evaluation {
  import opened Wrappers
  import opened Errors
  import opened Tokens
  import opened Ast
  import opened Parsing

  /** A value the evaluator computes. `HostOnly` stands for the results that only JavaScript's
      number semantics can give: NaN or Infinity (a division by zero), and the coercions between
      numbers and strings (`"2" * 3`, `1 + "a"`). */
  datatype RtValue = NumVal(x: real) | StrVal(s: string) | HostOnly

  function FromValue(v: Value): (r: RtValue)
    ensures v.Num? <==> r.NumVal?
    ensures r != HostOnly
  {
    match v
    case Num(x) => NumVal(x)
    case Str(s) => StrVal(s)
  }

  /** `a ** k` for a natural exponent. */
  function Pow(a: real, k: nat): real {
    if k == 0 then 1.0 else a * Pow(a, k - 1)
  }

  /** The `switch (node.op)` of `evalBinaryOp`, keyed by the operator's symbol: `*`, `/`, `-`,
      `+` and `**` combine the operands, and any other symbol gives 0. */
  function ApplyOp(sym: string, l: RtValue, r: RtValue): (v: RtValue)
    ensures sym !in {"*", "/", "-", "+", "**"} ==> v == NumVal(0.0)
    ensures sym in {"*", "/", "-", "**"} && v != HostOnly ==> v.NumVal? && l.NumVal? && r.NumVal?
    ensures sym == "/" && r == NumVal(0.0) ==> v == HostOnly
  {
    match sym
    case "*" => if l.NumVal? && r.NumVal? then NumVal(l.x * r.x) else HostOnly
    case "/" => if l.NumVal? && r.NumVal? && r.x != 0.0 then NumVal(l.x / r.x) else HostOnly
    case "-" => if l.NumVal? && r.NumVal? then NumVal(l.x - r.x) else HostOnly
    case "+" =>
      if l.NumVal? && r.NumVal? then NumVal(l.x + r.x)
      else if l.StrVal? && r.StrVal? then StrVal(l.s + r.s)
      else HostOnly
    case "**" =>
      if l.NumVal? && r.NumVal? && r.x >= 0.0 && r.x == r.x.Floor as real then NumVal(Pow(l.x, r.x.Floor))
      else HostOnly
    case _ => NumVal(0.0)
  }

  /** `eval`: a literal is its stored value; an operator node evaluates its left child, then its
      right child, and combines the two. */
  function Eval(n: ASTNode): (v: RtValue)
    ensures n.ASTLiteral? ==> v == FromValue(n.value)
  {
    match n
    case ASTLiteral(_, value) => FromValue(value)
    case BinaryOp(op, l, r) => ApplyOp(Symbol(op), Eval(l), Eval(r))
  }

  // ---------------------------------------------------------------------------------------
  // Reference arithmetic

  /** Every literal of the tree is a number. */
  predicate NumericTree(n: ASTNode) {
    match n
    case ASTLiteral(_, value) => value.Num?
    case BinaryOp(_, l, r) => NumericTree(l) && NumericTree(r)
  }

  /** One operator on two arithmetic results, `None` standing for a failed division. */
  function Combine(op: BinaryOpType, a: Option<real>, b: Option<real>): Option<real> {
    if a.None? || b.None? then None
    else match op
      case Plus => Some(a.value + b.value)
      case Minus => Some(a.value - b.value)
      case Asterisk => Some(a.value * b.value)
      case Slash => if b.value == 0.0 then None else Some(a.value / b.value)
  }

  /** The arithmetic value of a numeric tree, defined on the operator type itself; `None` when
      some division has a zero divisor. */
  function Arithmetic(n: ASTNode): Option<real>
    requires NumericTree(n)
  {
    match n
    case ASTLiteral(_, value) => Some(value.n)
    case BinaryOp(op, l, r) => Combine(op, Arithmetic(l), Arithmetic(r))
  }

  function AsValue(a: Option<real>): RtValue {
    if a.Some? then NumVal(a.value) else HostOnly
  }

  /** Each operator symbol reaches its own case of the switch. */
  lemma OperatorStep(op: BinaryOpType, a: Option<real>, b: Option<real>)
    ensures ApplyOp(Symbol(op), AsValue(a), AsValue(b)) == AsValue(Combine(op, a, b))
  {
    match op
    case Plus => assert Symbol(op) == "+";
    case Minus => assert Symbol(op) == "-";
    case Asterisk => assert Symbol(op) == "*";
    case Slash => assert Symbol(op) == "/";
  }

  /** Every operator the trees can hold reaches its own case of the switch, never the fallback:
      on numbers, `eval` is ordinary arithmetic, and it is a number unless a divisor is 0. */
  lemma {:induction false} EvalIsArithmetic(n: ASTNode)
    requires NumericTree(n)
    ensures Eval(n) == AsValue(Arithmetic(n))
  {
    match n
    case ASTLiteral(_, _) =>
    case BinaryOp(op, l, r) =>
      EvalIsArithmetic(l);
      EvalIsArithmetic(r);
      OperatorStep(op, Arithmetic(l), Arithmetic(r));
  }

  /** `+` on two strings concatenates them, left operand first. */
  lemma StringsConcatenate(a: string, b: string, lt: LiteralType)
    ensures Eval(ASTNode.BinaryOp(Plus, ASTLiteral(lt, Str(a)), ASTLiteral(lt, Str(b)))) == StrVal(a + b)
  {
  }

  /** `**` with a natural exponent is repeated multiplication; a negative or fractional
      exponent is left to the host. */
  lemma ExponentIsPow(a: real, k: nat, b: real)
    ensures ApplyOp("**", NumVal(a), NumVal(k as real)) == NumVal(Pow(a, k))
    ensures b < 0.0 || b != b.Floor as real ==> ApplyOp("**", NumVal(a), NumVal(b)) == HostOnly
  {
    assert (k as real).Floor == k;
  }

  /** A symbol that no case names falls through to `return 0`, whatever the operands; so does
      `%`, which the switch does not name. `a ** 2` is `a * a`. */
  lemma ExponentAndFallback(a: real, sym: string, l: RtValue, r: RtValue)
    ensures ApplyOp("**", NumVal(a), NumVal(2.0)) == NumVal(a * a)
    ensures sym !in {"*", "/", "-", "+", "**"} ==> ApplyOp(sym, l, r) == NumVal(0.0)
    ensures ApplyOp("%", l, r) == NumVal(0.0)
  {
    ExponentIsPow(a, 2, 0.0);
    assert Pow(a, 1) == a * 1.0;
    assert Pow(a, 2) == a * Pow(a, 1);
  }

  /** Parsed and evaluated, `1+2*3` is 7. */
  lemma ParsedSumOfProduct()
    ensures var q := [NumTok(1.0), OpTok(Plus), NumTok(2.0), OpTok(Asterisk), NumTok(3.0)];
      var p := ParseExpressionF(After(q, 0), 0).0;
      p.Ok? && Eval(p.value) == NumVal(7.0)
  {
    TighterOperatorGroupsFirst();
    var product := ASTNode.BinaryOp(Asterisk, NumNode(2.0), NumNode(3.0));
    OperatorStep(Asterisk, Some(2.0), Some(3.0));
    assert Eval(product) == NumVal(6.0);
    OperatorStep(Plus, Some(1.0), Some(6.0));
    assert Eval(ASTNode.BinaryOp(Plus, NumNode(1.0), product)) == NumVal(7.0);
  }

  /** Parsed and evaluated, `1-2-3` is -4. */
  lemma ParsedDifferences()
    ensures var q := [NumTok(1.0), OpTok(Minus), NumTok(2.0), OpTok(Minus), NumTok(3.0)];
      var p := ParseExpressionF(After(q, 0), 0).0;
      p.Ok? && Eval(p.value) == NumVal(-4.0)
  {
    EqualOperatorsGroupLeft();
    var difference := ASTNode.BinaryOp(Minus, NumNode(1.0), NumNode(2.0));
    OperatorStep(Minus, Some(1.0), Some(2.0));
    assert Eval(difference) == NumVal(-1.0);
    OperatorStep(Minus, Some(-1.0), Some(3.0));
    assert Eval(ASTNode.BinaryOp(Minus, difference, NumNode(3.0))) == NumVal(-4.0);
  }

  // ---------------------------------------------------------------------------------------
  // The case labels as written

  /** A member of the `TokenType` enum the evaluator imports, looked up by name: the enum has
      `Literal`, `EOF`, `Semicolon` and `BinaryOpType`, and any other member reads as
      `undefined` (`None`). */
  function TokenTypeMember(name: string): (m: Option<string>)
    ensures name in {"Asterisk", "Slash", "Minus", "Plus", "Asterisk2"} ==> m.None?
  {
    match name
    case "Literal" => Some("Literal")
    case "EOF" => Some("EOF")
    case "Semicolon" => Some(";")
    case "BinaryOpType" => Some("BinaryOp")
    case _ => None
  }

  /** The switch with the labels written in the file, `TokenType.Asterisk` and so on: `case`
      compares the operator with each label's value and falls through to `return 0`. */
  function ApplyOpAsWritten(sym: string, l: RtValue, r: RtValue): (v: RtValue)
    ensures v == NumVal(0.0)
  {
    if Some(sym) == TokenTypeMember("Asterisk") then ApplyOp("*", l, r)
    else if Some(sym) == TokenTypeMember("Slash") then ApplyOp("/", l, r)
    else if Some(sym) == TokenTypeMember("Minus") then ApplyOp("-", l, r)
    else if Some(sym) == TokenTypeMember("Plus") then ApplyOp("+", l, r)
    else if Some(sym) == TokenTypeMember("Asterisk2") then ApplyOp("**", l, r)
    else NumVal(0.0)
  }

  /** `eval` with that switch: literals are their values, and every operator node is 0. */
  function EvalAsWritten(n: ASTNode): (v: RtValue)
    ensures n.ASTLiteral? ==> v == FromValue(n.value)
    ensures n.BinaryOp? ==> v == NumVal(0.0)
  {
    match n
    case ASTLiteral(_, value) => FromValue(value)
    case BinaryOp(op, l, r) => ApplyOpAsWritten(Symbol(op), EvalAsWritten(l), EvalAsWritten(r))
  }

  /** As written, no label matches any operator, so every operator node evaluates to 0:
      `1+2*3` gives 0 where `Eval` gives 7. */
  lemma AsWrittenOperatorsGiveZero(n: ASTNode)
    requires n.BinaryOp?
    ensures EvalAsWritten(n) == NumVal(0.0)
    ensures EvalAsWritten(n) != Eval(n) <==> Eval(n) != NumVal(0.0)
    ensures EvalAsWritten(ASTNode.BinaryOp(Plus, NumNode(1.0), ASTNode.BinaryOp(Asterisk, NumNode(2.0), NumNode(3.0)))) == NumVal(0.0)
    ensures Eval(ASTNode.BinaryOp(Plus, NumNode(1.0), ASTNode.BinaryOp(Asterisk, NumNode(2.0), NumNode(3.0)))) == NumVal(7.0)
  {
  }

  // ---------------------------------------------------------------------------------------
  // The evaluator object

  class Evaluator {
    const parser: Parser

    constructor(parser: Parser)
      ensures this.parser == parser
    {
      this.parser := parser;
    }

    /** `next`: parses one expression; a parse error is returned as it is, otherwise the
        expression's value. */
    method Next() returns (r: Result<RtValue, Error>)
      requires parser.Valid()
      modifies parser, parser.scanner
      ensures parser.Valid()
      ensures var (p, c) := ParseExpressionF(old(parser.View()), 0);
        parser.View() == c && r == if p.Err? then Err(p.error) else Ok(Eval(p.value))
    {
      var ast := parser.ParseExpression(0);
      if ast.Err? {
        return Err(ast.error);
      }
      var v := EvalNode(ast.value);
      return Ok(v);
    }

    /** `eval`, with `evalBinaryOp` inlined: the left child first, then the right. */
    method EvalNode(root: ASTNode) returns (v: RtValue)
      ensures v == Eval(root)
    {
      match root
      case ASTLiteral(_, value) =>
        v := FromValue(value);
      case BinaryOp(op, l, r) =>
        var left := EvalNode(l);
        var right := EvalNode(r);
        v := ApplyOp(Symbol(op), left, right);
    }
  }
}
