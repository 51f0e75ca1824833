/** Tokens of the older scanner, whose operator token types are the operator symbols
    themselves (src/interpreter/tokens.ts). */
module LegacyTokens {
  import opened Wrappers
  import opened Tries
  import Tokens

  /** The older `TokenType` enum. */
  datatype TokenType = Literal | EOF | Plus | Minus | Asterisk | Slash {
    predicate IsOperator() {
      Plus? || Minus? || Asterisk? || Slash?
    }
  }

  /** The string value of each `TokenType` member. */
  function Name(t: TokenType): (s: string)
    ensures t.IsOperator() ==> |s| == 1
  {
    match t
    case Literal => "Literal"
    case EOF => "EOF"
    case Plus => "+"
    case Minus => "-"
    case Asterisk => "*"
    case Slash => "/"
  }

  datatype LiteralType = Number | Identifier

  type PlainType = t: TokenType | t != Literal witness EOF

  /** `Token` (type and optional value, no position) and its subclass `Literal`. */
  datatype Token =
    | Token(tokenType': PlainType, value: Option<Tokens.Value>)
    | LiteralToken(literalType: LiteralType, literal: Tokens.Value)
  {
    function TokenType(): (t: TokenType)
      ensures LiteralToken? ==> t == Literal
      ensures Token? ==> t == tokenType'
    {
      if LiteralToken? then Literal else tokenType'
    }

    function TokenValue(): (v: Option<Tokens.Value>)
      ensures LiteralToken? ==> v == Some(literal)
      ensures Token? ==> v == value
    {
      if LiteralToken? then Some(literal) else value
    }
  }

  /** `SYMBOL_TOKENS`. */
  const SymbolEntries: seq<(string, PlainType)> := [
    ("+", Plus),
    ("-", Minus),
    ("*", Asterisk),
    ("/", Slash)
  ]

  /** `symbolTokens = buildTrie(SYMBOL_TOKENS)`, written out as the tree that call builds
      (`SymbolTokensBuilt`): a root without value whose children are four leaves. */
  const SymbolTokens: Trie<PlainType> := Node(None, map[
    '+' := Leaf<PlainType>(Plus),
    '-' := Leaf<PlainType>(Minus),
    '*' := Leaf<PlainType>(Asterisk),
    '/' := Leaf<PlainType>(Slash)
  ])

  /** The operator token type whose symbol is `s`, if any. */
  function OperatorNamed(s: string): (r: Option<TokenType>)
    ensures r.Some? ==> r.value.IsOperator() && Name(r.value) == s
  {
    if |s| != 1 then None
    else match s[0]
      case '+' => Some(Plus)
      case '-' => Some(Minus)
      case '*' => Some(Asterisk)
      case '/' => Some(Slash)
      case _ => None
  }

  /** The operator types are named by exactly their symbols. */
  lemma OperatorNamesRoundTrip(t: TokenType)
    ensures t.IsOperator() <==> OperatorNamed(Name(t)) == Some(t)
  {
  }

  /** Inserting the entries one after another, as `buildTrie` does, gives that tree. */
  lemma SymbolTokensBuilt()
    ensures BuildTrieSpec(SymbolEntries) == SymbolTokens
  {
    var e: seq<(string, PlainType)> := SymbolEntries;
    assert e[..3][..2] == e[..2] && e[..2][..1] == e[..1] && e[..1][..0] == [];
    InsertFreshChar(Empty<PlainType>(), '+', Plus);
    var t1: Trie<PlainType> := Node(None, map['+' := Leaf<PlainType>(Plus)]);
    assert BuildTrieSpec(e[..1]) == t1;
    InsertFreshChar(t1, '-', Minus);
    var t2: Trie<PlainType> := Node(None, t1.children['-' := Leaf<PlainType>(Minus)]);
    assert BuildTrieSpec(e[..2]) == t2;
    InsertFreshChar(t2, '*', Asterisk);
    var t3: Trie<PlainType> := Node(None, t2.children['*' := Leaf<PlainType>(Asterisk)]);
    assert BuildTrieSpec(e[..3]) == t3;
    InsertFreshChar(t3, '/', Slash);
    assert BuildTrieSpec(e) == Node(None, t3.children['/' := Leaf<PlainType>(Slash)]);
  }

  /** The trie maps each of the four one-character operators to the type with the same
      symbol, and nothing else: no value at the root and no longer path. */
  lemma SymbolTokensShape(path: string)
    ensures Lookup(SymbolTokens, path) == OperatorNamed(path)
    ensures |path| != 1 ==> Lookup(SymbolTokens, path).None?
    ensures |path| >= 2 ==> Find(SymbolTokens, path).None?
    ensures |path| == 1 ==> (Find(SymbolTokens, path).Some? <==> OperatorNamed(path).Some?)
  {
    if |path| >= 1 && path[0] in SymbolTokens.children {
      var leaf := SymbolTokens.children[path[0]];
      assert Find(SymbolTokens, path) == Find(leaf, path[1..]);
      if |path| >= 2 {
        assert path[1..][0] !in leaf.children;
      }
    }
  }

  /** Each key answers the value of the last `SYMBOL_TOKENS` entry with that key, as a trie
      built from the entries must. */
  lemma SymbolTokensAnswerEntries(path: string)
    ensures Lookup(SymbolTokens, path) == LastValue(SymbolEntries, path)
  {
    SymbolTokensBuilt();
    BuildTrieLookup(SymbolEntries, path);
  }

  lemma LastValueSymbols(path: string)
    ensures LastValue(SymbolEntries, path) == OperatorNamed(path)
  {
    SymbolTokensAnswerEntries(path);
    SymbolTokensShape(path);
  }

  /** The root's children are exactly the four operator characters, each a leaf. */
  lemma SymbolChildren(c: char)
    ensures c in SymbolTokens.children <==> OperatorNamed([c]).Some?
    ensures c in SymbolTokens.children ==>
      SymbolTokens.children[c].children == map[] && SymbolTokens.children[c].value == OperatorNamed([c])
  {
  }
}
