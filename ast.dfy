/** Expression trees built by the parser (src/interpreter/parsing/astnodes.ts). A node's fields
    are set once by its constructor and never changed, so a node is a value. */
module Ast {
  import opened Tokens

  /** The `ASTNodeType` tag. */
  datatype NodeType = LiteralNode | BinaryOpNode

  /** `ASTLiteral` and `BinaryOp`; `children = [left, right]`. */
  datatype ASTNode =
    | ASTLiteral(literalType: LiteralType, value: Value)
    | BinaryOp(op: BinaryOpType, left: ASTNode, right: ASTNode)
  {
    /** The `nodeType` field each constructor passes to `super`. */
    function Tag(): (t: NodeType)
      ensures t == LiteralNode <==> ASTLiteral?
      ensures t == BinaryOpNode <==> BinaryOp?
    {
      if ASTLiteral? then LiteralNode else BinaryOpNode
    }

    /** The `children` pair of a `BinaryOp`, in argument order. */
    function Children(): (cs: seq<ASTNode>)
      requires BinaryOp?
      ensures |cs| == 2 && cs[0] == left && cs[1] == right
    {
      [left, right]
    }
  }

  /** Number of operator nodes. */
  function OperatorCount(n: ASTNode): nat {
    match n
    case ASTLiteral(_, _) => 0
    case BinaryOp(_, l, r) => OperatorCount(l) + 1 + OperatorCount(r)
  }

  /** What the tree reads as, left to right: a literal, or an operator between its operands. */
  datatype Lexeme = LitLex(literalType: LiteralType, value: Value) | OpLex(op: BinaryOpType)

  function InOrder(n: ASTNode): (s: seq<Lexeme>)
    ensures |s| == 2 * OperatorCount(n) + 1
  {
    match n
    case ASTLiteral(lt, v) => [LitLex(lt, v)]
    case BinaryOp(op, l, r) => InOrder(l) + [OpLex(op)] + InOrder(r)
  }

  /** An in-order reading alternates operands and operators: it starts and ends with a
      literal, and the operators sit exactly at the odd positions. */
  lemma {:induction false} InOrderAlternates(n: ASTNode)
    ensures forall i :: 0 <= i < |InOrder(n)| ==> (InOrder(n)[i].OpLex? <==> i % 2 == 1)
  {
    match n
    case ASTLiteral(_, _) =>
    case BinaryOp(op, l, r) =>
      InOrderAlternates(l);
      InOrderAlternates(r);
      var left, right := InOrder(l), InOrder(r);
      var s := left + [OpLex(op)] + right;
      assert InOrder(n) == s;
      var a := |left|;
      forall i | 0 <= i < |s|
        ensures s[i].OpLex? <==> i % 2 == 1
      {
        if i < a {
          assert s[i] == left[i];
        } else if i == a {
          assert s[i] == OpLex(op);
          OddShift(0, OperatorCount(l));
        } else {
          var j := i - a - 1;
          assert s[i] == right[j];
          OddShift(j, OperatorCount(l) + 1);
        }
      }
  }

  lemma OddShift(j: int, k: int)
    ensures (j + 2 * k) % 2 == j % 2
    ensures (2 * k + 1) % 2 == 1
  {
  }
}
