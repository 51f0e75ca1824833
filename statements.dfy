/** Statement records (src/interpreter/parsing/statements.ts). Each class only stores its
    constructor's arguments and a fixed `statementType` tag, so statements are values. */
module Statements {
  import opened Wrappers
  import opened Tokens
  import opened Ast

  /** The `StatementType` tag. */
  datatype StatementType = PrintStmt | ExpressionStmt | VarStmt | BlockStmt | IfStmt | WhileStmt | RepeatStmt

  /** `Block`: the statement list of a block. */
  datatype Block = Block(statements: seq<Statement>)

  /** One `{condition, block}` entry of an `If`'s else-if list. */
  datatype ElseIf = ElseIf(condition: ASTNode, block: Block)

  datatype Statement =
    | Expression(expr: ASTNode)
    | Print(expr: ASTNode)
    | Var(init: Option<ASTNode>, name: Value, isConst: bool, line: Option<int>, column: Option<int>)
    | BlockStatement(block: Block)
    | If(condition: ASTNode, thenBlock: Block, elseIfBlocks: Option<seq<ElseIf>>, elseBlock: Option<Block>)
    | While(condition: ASTNode, body: Block)
    | Repeat(repeatBody: Block, repeatCondition: ASTNode)
  {
    /** The tag each constructor passes to `super`. */
    function Tag(): (t: StatementType)
      ensures t == ExpressionStmt <==> Expression?
      ensures t == PrintStmt <==> Print?
      ensures t == VarStmt <==> Var?
      ensures t == BlockStmt <==> BlockStatement?
      ensures t == IfStmt <==> If?
      ensures t == WhileStmt <==> While?
      ensures t == RepeatStmt <==> Repeat?
    {
      match this
      case Expression(_) => ExpressionStmt
      case Print(_) => PrintStmt
      case Var(_, _, _, _, _) => VarStmt
      case BlockStatement(_) => BlockStmt
      case If(_, _, _, _) => IfStmt
      case While(_, _) => WhileStmt
      case Repeat(_, _) => RepeatStmt
    }
  }

  /** `new Var(name, isConst, init, line, column)`: the name is the literal token's value. */
  function NewVar(name: Token, isConst: bool, init: Option<ASTNode>, line: Option<int>, column: Option<int>): (s: Statement)
    requires name.LiteralToken?
    ensures s.Tag() == VarStmt
    ensures s.name == name.TokenValue().value
    ensures s.isConst == isConst && s.init == init && s.line == line && s.column == column
  {
    Var(init, name.literal, isConst, line, column)
  }

  /** `new Block()`: a block statement with no statements yet. */
  function NewBlock(): (s: Statement)
    ensures s.Tag() == BlockStmt && s.block.statements == []
  {
    BlockStatement(Block([]))
  }

  /** `new If(...)`: the else-if list is kept entry for entry (the copy `slice()` makes is a
      value here), and an absent list stays absent. */
  function NewIf(condition: ASTNode, thenBlock: Block, elseIfBlocks: Option<seq<ElseIf>>, elseBlock: Option<Block>): (s: Statement)
    ensures s.Tag() == IfStmt
    ensures s.condition == condition && s.thenBlock == thenBlock && s.elseBlock == elseBlock
    ensures s.elseIfBlocks == elseIfBlocks
  {
    If(condition, thenBlock, elseIfBlocks, elseBlock)
  }

  /** `new While(condition, body)` and `new Repeat(body, condition)` keep both parts, each
      under its own name, in the order given. */
  lemma LoopStatementsKeepParts(condition: ASTNode, body: Block)
    ensures While(condition, body).Tag() == WhileStmt && Repeat(body, condition).Tag() == RepeatStmt
    ensures While(condition, body).condition == Repeat(body, condition).repeatCondition == condition
    ensures While(condition, body).body == Repeat(body, condition).repeatBody == body
  {
  }
}
