/** Tokens of the newer scanner: token kinds, `expect`, the operator precedence table and
    the symbol trie (src/interpreter/scanning/tokens.ts). */
module Tokens {
  import opened Wrappers
  import opened Tries

  /** The `TokenType` enum. */
  datatype TokenType = Literal | EOF | Semicolon | BinaryOp

  datatype LiteralType = Number | Identifier

  datatype BinaryOpType = Plus | Minus | Asterisk | Slash

  /** What a token's `tokenType` field can hold: a `TokenType` member or, for the operator
      tokens the scanner builds from the symbol trie, an operator symbol. */
  datatype Kind = Std(t: TokenType) | OpSymbol(op: BinaryOpType)

  /** A plain `Token` is never built with type Literal: only `Literal` passes that type. */
  type PlainKind = k: Kind | k != Std(Literal) witness Std(EOF)

  /** A token value (`string|number`). */
  datatype Value = Num(n: real) | Str(s: string)

  /** `Token` and its two subclasses `BinaryOpToken` and `Literal`. */
  datatype Token =
    | Token(kind: PlainKind, line: int, column: int, value: Option<Value>)
    | BinaryOpToken(binaryOp: BinaryOpType, line: int, column: int)
    | LiteralToken(literalType: LiteralType, line: int, column: int, literal: Value)
  {
    /** The `tokenType` field. */
    function TokenKind(): (k: Kind)
      ensures BinaryOpToken? ==> k == Std(BinaryOp)
      ensures LiteralToken? ==> k == Std(Literal)
      ensures Token? ==> k == kind
    {
      match this
      case Token(k, _, _, _) => k
      case BinaryOpToken(_, _, _) => Std(BinaryOp)
      case LiteralToken(_, _, _, _) => Std(Literal)
    }

    /** The `value` field. */
    function TokenValue(): Option<Value> {
      match this
      case Token(_, _, _, v) => v
      case BinaryOpToken(_, _, _) => None
      case LiteralToken(_, _, _, v) => Some(v)
    }

    /** `expect(expected)`: whether the token's type is one of `expected`. */
    predicate Expect(expected: seq<TokenType>)
    {
      AnyIs(expected, TokenKind())
    }
  }

  /** `expected.some(t => t === kind)`. */
  predicate AnyIs(expected: seq<TokenType>, kind: Kind)
    ensures AnyIs(expected, kind) <==> exists i :: 0 <= i < |expected| && Std(expected[i]) == kind
  {
    if expected == [] then false
    else Std(expected[0]) == kind || AnyIs(expected[1..], kind)
  }

  function Symbol(op: BinaryOpType): string {
    match op
    case Plus => "+"
    case Minus => "-"
    case Asterisk => "*"
    case Slash => "/"
  }

  /** The string a token type stands for, as error messages show it. */
  function KindName(k: Kind): string {
    match k
    case Std(Literal) => "Literal"
    case Std(EOF) => "EOF"
    case Std(Semicolon) => ";"
    case Std(BinaryOp) => "BinaryOp"
    case OpSymbol(op) => Symbol(op)
  }

  /** `OPERATOR_PRECEDENCE`: `*` and `/` bind at 9, `+` and `-` at 8. */
  function Precedence(op: BinaryOpType): (p: nat)
    ensures p == 8 || p == 9
    ensures p == 9 <==> op == Asterisk || op == Slash
  {
    match op
    case Plus => 8
    case Minus => 8
    case Asterisk => 9
    case Slash => 9
  }

  /** `SYMBOL_TOKENS`. */
  const SymbolEntries: seq<(string, PlainKind)> := [
    ("+", OpSymbol(Plus)),
    ("-", OpSymbol(Minus)),
    ("*", OpSymbol(Asterisk)),
    ("/", OpSymbol(Slash)),
    (";", Std(Semicolon))
  ]

  /** `SymbolTokens = buildTrie(SYMBOL_TOKENS)`, written out as the tree that call builds
      (`SymbolTokensBuilt`): a root without value whose children are five leaves. */
  const SymbolTokens: Trie<PlainKind> := Node(None, map[
    '+' := Leaf<PlainKind>(OpSymbol(Plus)),
    '-' := Leaf<PlainKind>(OpSymbol(Minus)),
    '*' := Leaf<PlainKind>(OpSymbol(Asterisk)),
    '/' := Leaf<PlainKind>(OpSymbol(Slash)),
    ';' := Leaf<PlainKind>(Std(Semicolon))
  ])

  /** The kind each one-character symbol stands for. */
  function SymbolKind(c: char): Option<PlainKind> {
    match c
    case '+' => Some(OpSymbol(Plus))
    case '-' => Some(OpSymbol(Minus))
    case '*' => Some(OpSymbol(Asterisk))
    case '/' => Some(OpSymbol(Slash))
    case ';' => Some(Std(Semicolon))
    case _ => None
  }

  /** Inserting the entries one after another, as `buildTrie` does, gives that tree. */
  lemma SymbolTokensBuilt()
    ensures BuildTrieSpec(SymbolEntries) == SymbolTokens
  {
    var e: seq<(string, PlainKind)> := SymbolEntries;
    assert e[..4][..3] == e[..3] && e[..3][..2] == e[..2] && e[..2][..1] == e[..1] && e[..1][..0] == [];
    InsertFreshChar(Empty<PlainKind>(), '+', OpSymbol(Plus));
    var t1: Trie<PlainKind> := Node(None, map['+' := Leaf<PlainKind>(OpSymbol(Plus))]);
    assert BuildTrieSpec(e[..1]) == t1;
    InsertFreshChar(t1, '-', OpSymbol(Minus));
    var t2: Trie<PlainKind> := Node(None, t1.children['-' := Leaf<PlainKind>(OpSymbol(Minus))]);
    assert BuildTrieSpec(e[..2]) == t2;
    InsertFreshChar(t2, '*', OpSymbol(Asterisk));
    var t3: Trie<PlainKind> := Node(None, t2.children['*' := Leaf<PlainKind>(OpSymbol(Asterisk))]);
    assert BuildTrieSpec(e[..3]) == t3;
    InsertFreshChar(t3, '/', OpSymbol(Slash));
    var t4: Trie<PlainKind> := Node(None, t3.children['/' := Leaf<PlainKind>(OpSymbol(Slash))]);
    assert BuildTrieSpec(e[..4]) == t4;
    InsertFreshChar(t4, ';', Std(Semicolon));
    assert BuildTrieSpec(e) == Node(None, t4.children[';' := Leaf<PlainKind>(Std(Semicolon))]);
  }

  /** The symbol trie holds exactly the five one-character symbols, each under its own kind:
      no value at the root and no path longer than one. */
  lemma SymbolTokensShape(path: string)
    ensures SymbolTokens.value.None?
    ensures Lookup(SymbolTokens, path) == (if |path| == 1 then SymbolKind(path[0]) else None)
    ensures |path| >= 2 ==> Find(SymbolTokens, path).None?
    ensures |path| == 1 ==> (Find(SymbolTokens, path).Some? <==> SymbolKind(path[0]).Some?)
  {
    if |path| >= 1 && path[0] in SymbolTokens.children {
      var leaf := SymbolTokens.children[path[0]];
      assert Find(SymbolTokens, path) == Find(leaf, path[1..]);
      if |path| >= 2 {
        assert path[1..][0] !in leaf.children;
      }
    }
  }

  /** Each key answers the value of the last `SYMBOL_TOKENS` entry with that key, as a trie
      built from the entries must. */
  lemma SymbolTokensAnswerEntries(path: string)
    ensures Lookup(SymbolTokens, path) == LastValue(SymbolEntries, path)
  {
    SymbolTokensBuilt();
    BuildTrieLookup(SymbolEntries, path);
  }

  lemma LastValueSymbols(path: string)
    ensures LastValue(SymbolEntries, path) == (if |path| == 1 then SymbolKind(path[0]) else None)
  {
    SymbolTokensAnswerEntries(path);
    SymbolTokensShape(path);
  }

  /** The root's children are exactly the five symbol characters, each a leaf with its kind. */
  lemma SymbolChildren(c: char)
    ensures c in SymbolTokens.children <==> SymbolKind(c).Some?
    ensures c in SymbolTokens.children ==>
      SymbolTokens.children[c].children == map[] && SymbolTokens.children[c].value == SymbolKind(c)
  {
  }
}
