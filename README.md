# graphqy interpreter core in Dafny

This project models the interpreter core of graphqy, a small TypeScript interpreter for an
expression language. The modelled chain runs from characters to a value:

- **Tries** (`trie.dfy`): the prefix tree that `buildTrie` fills from a list of
  `[key, value]` entries. Both scanners use it to recognise operator symbols.
- **Tokens** (`tokens.dfy`, `legacy_tokens.dfy`): the token records and the precedence table
  of the newer scanner, plus the older token set.
  - Each module holds its symbol trie, written out and proved equal to what `buildTrie`
    builds from the module's entry list.
- **CharStream** (`char_stream.dfy`): the character state machine both scanners share.
  - The state is the source text, a read cursor, a LIFO stack of put-back characters, and a
    line and column counter.
  - `nextChar`, `putBack`, `skipWhitespace`, the number-literal loop and the symbol-trie
    walk are functions over that state.
  - The lemmas state what each one delivers from the stream of characters still to come.
- **Scanning** (`scanner.dfy`): the newer `Scanner` class.
  - Its fields are the source's fields.
  - Every method is proved to change them exactly as a specification function says.
  - `scanTokens` fills the token list once and reverses it in place. `peek`, `lookAhead`
    and `advance` then read it as a queue in scan order.
- **LegacyScanning** (`legacy_scanner.dfy`): the older `Scanner` class. It has no token list
  and builds tokens without positions.
  - Lemmas show that it reads exactly what the newer scanner reads and builds the same
    tokens up to position.
  - The one exception is `;`, which only the newer trie knows.
- **Ast, Statements** (`ast.dfy`, `statements.dfy`): the expression tree nodes and the
  statement records. Both are immutable once built, so they are values.
- **Parsing** (`parser.dfy`): the `Parser` class, which climbs precedence over the scanner's
  token queue.
  - Its methods are proved against functions over a `Cursor`, the parser's view of its own
    state and the scanner's state.
  - A successful parse consumes exactly the tokens that spell the tree in reading order.
  - Trees are nested by precedence: `*` and `/` group before `+` and `-`, and operators of
    equal precedence group to the left.
- **Printer** (`printer.dfy`): `astToString`, which puts one pair of parentheses around each
  operator node; when no literal contains a parenthesis, the output is balanced. Erasing
  parentheses and spaces from the output gives the tokens back in reading order.
- **Environments** (`environment.dfy`): the flat variable table.
  - Its errors are VarDNE (unknown name), VarExists (name declared twice) and ConstVar.
  - A constant declared without a value may be written once.
- **Evaluation** (`evaluator.dfy`): `eval` over trees, and `Evaluator.next`, which parses one
  expression and evaluates it.
- **Errors** (`errors.dfy`): the error records, their fixed codes and messages, and
  `fmtString`.

Numbers are Dafny `real`s. A token or literal value is `Num(real)` or `Str(string)`. The
symbol `EOF` that `nextChar` returns is a separate `Sym.EOF` value, not a string.

The newer scanner builds operator tokens as plain `Token`s whose type is the operator symbol
(`Kind.OpSymbol`). The parser only continues an expression at a `BinaryOpToken`
(src/interpreter/parsing/parser.ts:50 and :69). On the scanner's own output, a parse
therefore stops after the first literal (`Parsing.ScannerOperatorEndsExpression`). The
parser's functions are defined over any token sequence, `BinaryOpToken`s included, and the
precedence results are proved for those.

## Model

| member | source | states |
|---|---|---|
| `Tries.Empty` | src/utils/trie.ts:5-8 | `new Trie()` has no value and no children |
| `Tries.Insert` | src/utils/trie.ts:15-24 | inserting one key keeps every existing child except the one on the key's path and keeps the root value unless the key is empty, where the value is set |
| `Tries.InsertLookup` | src/utils/trie.ts:15-24 | after inserting `key` with `v`, looking up `key` gives `v` and every other key gives what it gave before |
| `Tries.InsertNodes` | src/utils/trie.ts:17-22 | insertion creates exactly the nodes of the key's prefixes that were missing, and no others |
| `Tries.EmptyFindsOnlyRoot` | src/utils/trie.ts:12 | a fresh trie has the root node and nothing below it |
| `Tries.BuildTrie` | src/utils/trie.ts:11-28 | the `forEach` loop over the entries yields the trie of all entries inserted in list order |
| `Tries.BuildTrieLookup` | src/utils/trie.ts:11-28 | every key answers the value of the last entry with that key, and keys that are not entries answer nothing |
| `Tries.BuildTrieNodes` | src/utils/trie.ts:11-28 | a node exists exactly for the root and for every prefix of an entry's key |
| `Tries.EmptyKeyOnRoot` | src/utils/trie.ts:24 | an entry with the empty key stores its value on the root |
| `Numerals.NatToStringRoundTrip` | src/interpreter/scanning/scanner.ts:189 | reading back the digits of a printed natural number as `res * 10 + d` gives the number |
| `Numerals.DigitsValueAppend` | src/interpreter/scanning/scanner.ts:189 | the accumulation `res * 10 + d` is positional: appending digits shifts the value by a power of ten |
| `Numerals.IntToString` | src/interpreter/error.ts:23 | a negative position prints with a leading `-` before the digits of its magnitude |
| `Errors.NewError` | src/interpreter/error.ts:12-15 | a fresh error has the given code and message and no line or column |
| `Errors.FmtStringParts` | src/interpreter/error.ts:22-24 | `fmtString` is the code, `": "`, the message, then the position `(line:col)` with an absent position read as 0 |
| `Errors.FreshErrorPrintsZeroPosition` | src/interpreter/error.ts:22-24 | an error that was never stamped prints `(0:0)` |
| `Errors.Join` | src/interpreter/error.ts:45 | `join` gives the empty string for no items, the item itself for one, and starts with the first item and the separator for more |
| `Errors.JoinSnoc` | src/interpreter/error.ts:45 | appending an item to a non-empty list appends the separator and the item; with the base cases, every item appears in order with the separator between each two |
| `Errors.ExpectedList` | src/interpreter/error.ts:45 | no expected type gives the empty string, one is named bare, and several are `one of: ` followed by all of them joined with `, ` |
| `Errors.ExpectedListSpelled` | src/interpreter/error.ts:45 | two or three expected types read `one of: a, b` and `one of: a, b, c` |
| `Errors.InvalidCharacter` | src/interpreter/error.ts:28-32 | code `INVALID_CHAR`, message quoting the character, no position |
| `Errors.InvalidToken` | src/interpreter/error.ts:33-37 | code `INVALID_TOKEN`, message quoting the token type, no position |
| `Errors.UnknownSymbol` | src/interpreter/error.ts:38-42 | code `UNKNOWN_SYMBOL`, message quoting the symbol, no position |
| `Errors.UnexpectedToken` | src/interpreter/error.ts:43-47 | code `UNEXP_TOKEN`, message naming the received type and the expected list, no position |
| `Errors.TokenExpected` | src/interpreter/error.ts:48-52 | code `TOKEN_EXP`, message naming the expected type |
| `Errors.ExpectedTerminal` | src/interpreter/error.ts:53-57 | code `EXP_TERM`, message naming the received type |
| `Errors.UnknownEscape` | src/interpreter/error.ts:58-62 | code `UNKKNOWN_ESCAPE` (spelled as in the source), message showing the escape sequence |
| `Errors.UnexpectedType` | src/interpreter/error.ts:63-67 | code `UNEXP_TYPE`, message naming both types |
| `Errors.DivideByZero` | src/interpreter/error.ts:68-72 | code `DIV_BY_ZERO` and its fixed message |
| `Errors.BadComparison` | src/interpreter/error.ts:73-77 | code `BAD_CMP`, message naming both operand types |
| `Errors.VarExists` | src/interpreter/error.ts:78-82 | code `VAR_EXISTS`, message naming the variable |
| `Errors.VarDNE` | src/interpreter/error.ts:83-87 | code `VAR_DNE`, message naming the variable |
| `Errors.BadAssignmentTarget` | src/interpreter/error.ts:88-92 | code `BAD_ASSG_TRG` and its fixed message |
| `Errors.ConstVar` | src/interpreter/error.ts:93-97 | code `CONST_VAR`, message naming the variable |
| `Errors.VariableErrorsNameTheVariable` | src/interpreter/error.ts:78-97 | the three variable errors carry the name right after `Variable ` and have pairwise different codes |
| `Errors.CodesDistinct` | src/interpreter/error.ts:27-97 | the fourteen error codes are pairwise distinct |
| `Tokens.Token.TokenKind` | src/interpreter/scanning/tokens.ts:22-63 | a `BinaryOpToken` has type `BinaryOp`, a `Literal` has type `Literal`, and a plain token has the type it was built with |
| `Tokens.AnyIs` | src/interpreter/scanning/tokens.ts:41-43 | `expect` holds exactly when some listed type equals the token's type |
| `Tokens.Precedence` | src/interpreter/scanning/tokens.ts:65-70 | `*` and `/` have precedence 9, `+` and `-` have 8 |
| `Tokens.SymbolTokensBuilt` | src/interpreter/scanning/tokens.ts:72-80 | `buildTrie(SYMBOL_TOKENS)` is the root with five leaves `+ - * / ;` |
| `Tokens.SymbolTokensShape` | src/interpreter/scanning/tokens.ts:72-80 | the trie answers each one-character symbol with its kind, and no key of any other length answers anything |
| `Tokens.SymbolTokensAnswerEntries` | src/interpreter/scanning/tokens.ts:72-80 | every key answers the last `SYMBOL_TOKENS` entry with that key |
| `Tokens.LastValueSymbols` | src/interpreter/scanning/tokens.ts:72-78 | the entry list names each of the five symbols once, with its kind |
| `Tokens.SymbolChildren` | src/interpreter/scanning/tokens.ts:72-80 | the root's children are exactly the five symbol characters, each a leaf |
| `LegacyTokens.Name` | src/interpreter/tokens.ts:3-10 | each operator member's string is its one-character symbol |
| `LegacyTokens.Token.TokenType` | src/interpreter/tokens.ts:17-34 | a `Literal` has type `Literal`; a plain token has the type it was built with |
| `LegacyTokens.Token.TokenValue` | src/interpreter/tokens.ts:17-34 | a `Literal` always has its value; a plain token has the optional value it was built with |
| `LegacyTokens.OperatorNamed` | src/interpreter/tokens.ts:3-10 | an operator type is found only by its own symbol |
| `LegacyTokens.OperatorNamesRoundTrip` | src/interpreter/tokens.ts:3-10 | a type is an operator exactly when looking up its name gives it back |
| `LegacyTokens.SymbolTokensBuilt` | src/interpreter/tokens.ts:36-43 | `buildTrie(SYMBOL_TOKENS)` is the root with four leaves `+ - * /` |
| `LegacyTokens.SymbolTokensShape` | src/interpreter/tokens.ts:36-43 | the trie maps each operator symbol to the type of the same name and nothing else to anything |
| `LegacyTokens.SymbolTokensAnswerEntries` | src/interpreter/tokens.ts:36-43 | every key answers the last entry with that key |
| `LegacyTokens.LastValueSymbols` | src/interpreter/tokens.ts:36-41 | the entry list pairs each operator symbol with the type of the same name |
| `LegacyTokens.SymbolChildren` | src/interpreter/tokens.ts:36-43 | the root's children are exactly the four operator characters, each a leaf |
| `CharStream.NextCharF` | src/interpreter/scanning/scanner.ts:113-130 | `nextChar` never changes the source text |
| `CharStream.NextCharStream` | src/interpreter/scanning/scanner.ts:113-130 | `nextChar` delivers the first symbol still to come (put-backs last-in first-out, then the source, then EOF forever) and leaves the rest |
| `CharStream.NextCharMeasure` | src/interpreter/scanning/scanner.ts:113-130 | delivering a character consumes it; delivering EOF consumes nothing |
| `CharStream.NextCharCounters` | src/interpreter/scanning/scanner.ts:122-127 | after each character read from the source, the line is 1 plus the newlines read and the column is the count of characters since the last newline |
| `CharStream.InitialCounters` | src/interpreter/scanning/scanner.ts:10-12 | the initial counters (line 1, column 0) describe an empty prefix |
| `CharStream.PutBackF` | src/interpreter/scanning/scanner.ts:91-93 | `putBack` changes neither the source position nor the counters |
| `CharStream.PutBackStream` | src/interpreter/scanning/scanner.ts:91-93 | a put-back symbol is the next one delivered, ahead of everything else |
| `CharStream.PutBackMeasure` | src/interpreter/scanning/scanner.ts:91-93 | putting back a character makes one more character to come |
| `CharStream.SkipWhitespaceF` | src/interpreter/scanning/scanner.ts:136-145 | skipping whitespace never adds characters to come |
| `CharStream.SkipWhitespaceStream` | src/interpreter/scanning/scanner.ts:136-145 | after the skip, exactly the leading whitespace run is gone, and what comes next is EOF or a non-whitespace character |
| `CharStream.SkipWhitespaceCounters` | src/interpreter/scanning/scanner.ts:136-145 | the skip keeps the line and column counters in step with the text read |
| `CharStream.EofOnlyLastDrop` | src/interpreter/scanning/scanner.ts:113-130 | reading never brings EOF in front of a character |
| `CharStream.NumberLoopF` | src/interpreter/scanning/scanner.ts:182-195 | the number loop never changes the source text |
| `CharStream.NumberLoopSpec` | src/interpreter/scanning/scanner.ts:178-203 | from its invariant, the loop ends as the declarative reading says: a second `.` is an error, otherwise the value of the longest number run, with the first symbol after it put back |
| `CharStream.ScanNumberSpec` | src/interpreter/scanning/scanner.ts:178-203 | `scanNumberLiteral(c)` reads the longest run of `[0-9.]` starting at `c`, yields its decimal value or the error for a second `.`, and puts back what follows |
| `CharStream.NumberValueIsDecimal` | src/interpreter/scanning/scanner.ts:189-200 | the value is the integer part plus the fraction digits over a power of ten, as `res / 10^(i - decimal - 1)` computes |
| `CharStream.NumberLoopMeasure` | src/interpreter/scanning/scanner.ts:182-195 | the number loop consumes what it reads except the symbol it puts back |
| `CharStream.NumberLoopCounters` | src/interpreter/scanning/scanner.ts:182-195 | the number loop keeps the counters in step with the text read |
| `CharStream.DotIndex` | src/interpreter/scanning/scanner.ts:183-187 | the recorded `decimal` is the index of the first `.`, or -1 exactly when there is none |
| `CharStream.SymbolLoopF` | src/interpreter/scanning/scanner.ts:218-234 | the trie walk never changes the source text |
| `CharStream.PathLenIsLongest` | src/interpreter/scanning/scanner.ts:218-234 | the walk follows the longest prefix of the input that is a path of the trie |
| `CharStream.SymbolLoopSpec` | src/interpreter/scanning/scanner.ts:218-234 | the walk yields the value of the longest matched prefix that holds one, or UnknownSymbol with every character seen, and puts back the first character that does not match |
| `CharStream.ScanSymbolSpec` | src/interpreter/scanning/scanner.ts:211-236 | `scanSymbolToken(c)` is that walk started at the child for `c` |
| `CharStream.SymbolLoopMeasure` | src/interpreter/scanning/scanner.ts:218-234 | the trie walk consumes what it reads except the symbol it puts back |
| `CharStream.SymbolLoopCounters` | src/interpreter/scanning/scanner.ts:218-234 | the trie walk keeps the counters in step with the text read |
| `Scanning.Wrap` | src/interpreter/scanning/scanner.ts:101-106 | `wrapError` keeps code and message and stamps the current line and column |
| `Scanning.ScanNextF` | src/interpreter/scanning/scanner.ts:152-170 | `scanNext` never changes the source text |
| `Scanning.LookAheadInScanOrder` | src/interpreter/scanning/scanner.ts:78-84 | on the reversed token list, `lookAhead(n)` is the `n`-th token scanned, or an EOF token at the current position past the end |
| `Scanning.AdvanceDequeues` | src/interpreter/scanning/scanner.ts:62-69 | `advance` returns the first token scanned and leaves the rest in scan order, or an EOF token when none is left |
| `Scanning.UnscannedAnswersEof` | src/interpreter/scanning/scanner.ts:62-84 | before `scanTokens`, `lookAhead` and `advance` answer an EOF token at the current position |
| `Scanning.ScanNextMeasure` | src/interpreter/scanning/scanner.ts:152-170 | `scanNext` never gives characters back, and every token but EOF consumes at least one |
| `Scanning.ScanNextSpec` | src/interpreter/scanning/scanner.ts:152-170 | `scanNext` skips the whitespace run, then yields EOF, a number, a symbol or UnknownSymbol, as the declarative reading of what follows says |
| `Scanning.DispatchEof` | src/interpreter/scanning/scanner.ts:156-157 | at the end of input the EOF token is stamped with the current position and nothing is left |
| `Scanning.DispatchNumber` | src/interpreter/scanning/scanner.ts:160-162 | a digit starts a number literal |
| `Scanning.DispatchSymbol` | src/interpreter/scanning/scanner.ts:165-167 | a symbol character yields the token of its kind, with the next character put back; the stamp is the position after that next character, since putting back does not move the position |
| `Scanning.DispatchUnknown` | src/interpreter/scanning/scanner.ts:169 | any other character is UnknownSymbol naming it, stamped with the position after it |
| `Scanning.OneCharacterSymbol` | src/interpreter/scanning/tokens.ts:72-80 | every symbol has one character: the walk stops after it, with its kind |
| `Scanning.InitialConsistent` | src/interpreter/scanning/scanner.ts:8-17 | a new scanner satisfies the scanner invariant |
| `Scanning.ScanNextConsistent` | src/interpreter/scanning/scanner.ts:152-170 | `scanNext` keeps the scanner invariant (counters match the text read; EOF only at the end of what is to come) |
| `Scanning.ScanNextStamp` | src/interpreter/scanning/scanner.ts:157-202 | every token and every error is stamped with the scanner's position when `scanNext` returns, which counts a character read ahead and put back |
| `Scanning.SymbolBeforeNewlineStamp` | src/interpreter/scanning/scanner.ts:122-127 | scanning `+` followed by a newline from line 1, column 0 stamps the `+` at line 2, column 0 |
| `Scanning.ScanLoopShape` | src/interpreter/scanning/scanner.ts:32-36 | the loop stops at the first error, or right after pushing the EOF token, which is the only EOF token pushed |
| `Scanning.ScanLoopConsistent` | src/interpreter/scanning/scanner.ts:32-36 | the scanning loop keeps the scanner invariant |
| `Scanning.ScanExpectedEofToken` | src/interpreter/scanning/scanner.ts:156-157 | only the end of input yields the EOF token |
| `Scanning.ScanLoopReadsAll` | src/interpreter/scanning/scanner.ts:32-36 | a scan without error reads the whole source and puts nothing back |
| `Scanning.Scanner.constructor` | src/interpreter/scanning/scanner.ts:8-17 | a new scanner is at the start of its text, line 1, column 0, with no put-backs and no token list |
| `Scanning.Scanner.PutBack` | src/interpreter/scanning/scanner.ts:91-93 | pushes the symbol onto the put-back stack |
| `Scanning.Scanner.WrapError` | src/interpreter/scanning/scanner.ts:101-106 | returns the error stamped with the current line and column |
| `Scanning.Scanner.NextChar` | src/interpreter/scanning/scanner.ts:113-130 | the loop-free step: state and result as `nextChar`'s specification says |
| `Scanning.Scanner.SkipWhitespace` | src/interpreter/scanning/scanner.ts:136-145 | the loop ends in the state its specification gives |
| `Scanning.Scanner.ScanNumberLiteral` | src/interpreter/scanning/scanner.ts:178-203 | the loop yields the literal, stamped with the position after the character that ended it (read and put back), or the InvalidCharacter error for a second `.`, stamped just after that `.` |
| `Scanning.Scanner.ScanSymbolToken` | src/interpreter/scanning/scanner.ts:211-236 | the trie walk yields the longest symbol's token, or a stamped UnknownSymbol |
| `Scanning.Scanner.ScanNext` | src/interpreter/scanning/scanner.ts:152-170 | result and state as `scanNext`'s specification says; keeps the scanner invariant (counters match the text read, EOF only at the end) |
| `Scanning.Scanner.ScanTokens` | src/interpreter/scanning/scanner.ts:24-44 | a second call changes nothing; the first scans until EOF or the first error, keeps the pushed tokens on error, and otherwise stores them reversed; keeps the scanner invariant |
| `Scanning.Scanner.ReverseTokens` | src/interpreter/scanning/scanner.ts:39-43 | the in-place swap loop leaves the list reversed |
| `Scanning.Scanner.LookAhead` | src/interpreter/scanning/scanner.ts:78-84 | the token `n` below the top of the stack, or an EOF token at the current position |
| `Scanning.Scanner.Peek` | src/interpreter/scanning/scanner.ts:52-54 | `peek` is `lookAhead(0)` |
| `Scanning.Scanner.Advance` | src/interpreter/scanning/scanner.ts:62-69 | pops the top token, or returns an EOF token and changes nothing |
| `LegacyScanning.ScanNextF` | src/interpreter/scanner.ts:86-104 | the older `scanNext` never changes the source text |
| `LegacyScanning.DispatchAgrees` | src/interpreter/scanner.ts:86-104 | after whitespace, the older scanner ends in the newer one's state with the same error or the same token up to position; on `;` the older one reports UnknownSymbol and the newer one yields a Semicolon token |
| `LegacyScanning.NumberAgrees` | src/interpreter/scanner.ts:112-137 | both scanners read a number literal alike |
| `LegacyScanning.OperatorAgrees` | src/interpreter/scanner.ts:145-169 | both scanners read an operator symbol alike |
| `LegacyScanning.UnknownAgrees` | src/interpreter/scanner.ts:101-103 | both scanners reject an unknown character alike |
| `LegacyScanning.SemicolonDiffers` | src/interpreter/tokens.ts:36-41 | `;` is missing from the older trie, so the older scanner rejects it where the newer one builds a Semicolon token |
| `LegacyScanning.LeafSymbol` | src/interpreter/scanner.ts:145-169 | a symbol on a leaf of the trie reads one more character, puts it back and yields the leaf's value |
| `LegacyScanning.ScanNextAgrees` | src/interpreter/scanner.ts:86-104 | from the same state, the two `scanNext`s agree except on `;` |
| `LegacyScanning.ScanNextConsistent` | src/interpreter/scanner.ts:86-104 | the older `scanNext` keeps the shared scanner invariant |
| `LegacyScanning.Scanner.constructor` | src/interpreter/scanner.ts:14-18 | a new scanner is at the start of its text, line 1, column 0, with no put-backs |
| `LegacyScanning.Scanner.PutBack` | src/interpreter/scanner.ts:25-27 | pushes the symbol onto the put-back stack |
| `LegacyScanning.Scanner.WrapError` | src/interpreter/scanner.ts:35-40 | returns the error stamped with the current line and column |
| `LegacyScanning.Scanner.NextChar` | src/interpreter/scanner.ts:47-64 | state and result as `nextChar`'s specification says |
| `LegacyScanning.Scanner.SkipWhitespace` | src/interpreter/scanner.ts:70-79 | the loop ends in the state its specification gives |
| `LegacyScanning.Scanner.ScanNumberLiteral` | src/interpreter/scanner.ts:112-137 | the loop yields a position-free literal, or the stamped InvalidCharacter error |
| `LegacyScanning.Scanner.ScanSymbolToken` | src/interpreter/scanner.ts:145-169 | the trie walk yields the operator token, or a stamped UnknownSymbol |
| `LegacyScanning.Scanner.ScanNext` | src/interpreter/scanner.ts:86-104 | result and state as the older `scanNext`'s specification says |
| `Ast.ASTNode.Tag` | src/interpreter/parsing/astnodes.ts:3-38 | `nodeType` is Literal exactly for literal nodes and BinaryOp exactly for operator nodes |
| `Ast.ASTNode.Children` | src/interpreter/parsing/astnodes.ts:32-37 | `children` is `[left, right]` in argument order |
| `Ast.InOrder` | src/interpreter/parsing/astnodes.ts:16-38 | a tree reads as one more literal than it has operators |
| `Ast.InOrderAlternates` | src/interpreter/parsing/astnodes.ts:16-38 | the reading alternates literals and operators, operators exactly at odd positions |
| `Statements.Statement.Tag` | src/interpreter/parsing/statements.ts:4-106 | each statement kind carries its own `StatementType`, and no two kinds share one |
| `Statements.NewVar` | src/interpreter/parsing/statements.ts:40-56 | a `Var` takes its name from the literal token's value and keeps the flag, initialiser and position |
| `Statements.NewBlock` | src/interpreter/parsing/statements.ts:58-66 | a new block statement has no statements |
| `Statements.NewIf` | src/interpreter/parsing/statements.ts:68-82 | an `If` keeps its condition, blocks and else-if list entry for entry, and an absent list stays absent |
| `Statements.LoopStatementsKeepParts` | src/interpreter/parsing/statements.ts:84-106 | `While` and `Repeat` keep condition and body under their own names |
| `Parsing.NextF` | src/interpreter/parsing/parser.ts:35-38 | `next` keeps the current token the front of the queue and consumes one token unless at EOF |
| `Parsing.FrontOnStack` | src/interpreter/scanning/scanner.ts:78-84 | looking into the scanner's stack from the top is looking into the parser's queue from the front |
| `Parsing.NextOnStack` | src/interpreter/parsing/parser.ts:35-38 | `next` as written (`lookAhead(1)`, then `advance`) is `next` on the parser's view |
| `Parsing.WrapAt` | src/interpreter/parsing/parser.ts:108-113 | `wrapError` keeps code and message and stamps the current token's line and column |
| `Parsing.GetPrecedence` | src/interpreter/parsing/parser.ts:94-100 | a precedence exists exactly for operator tokens, by operator field or by type, and is the table's value |
| `Parsing.ParseTerminalF` | src/interpreter/parsing/parser.ts:80-86 | a literal current token is consumed and becomes a literal node; anything else is UnexpectedToken naming its type and `Literal`, stamped at it, with nothing consumed |
| `Parsing.ParseExpressionF` | src/interpreter/parsing/parser.ts:44-73 | a parse never un-consumes tokens and leaves the view synchronised |
| `Parsing.ParseLoopF` | src/interpreter/parsing/parser.ts:57-70 | the loop never un-consumes tokens and leaves the view synchronised |
| `Parsing.ParseExpressionConsumes` | src/interpreter/parsing/parser.ts:44-73 | a successful parse consumed exactly the tokens that spell the tree in reading order |
| `Parsing.ParseLoopConsumes` | src/interpreter/parsing/parser.ts:57-70 | each loop turn reads an operator then its right operand, extending the tree by exactly those tokens |
| `Parsing.ParseExpressionShape` | src/interpreter/parsing/parser.ts:44-73 | a successful `parseExpression(prev)` builds a tree nested by precedence whose root binds tighter than `prev`, and stops at a token it cannot continue with; a failure is the UnexpectedToken error of the non-literal token left current, stamped at that token |
| `Parsing.ParseLoopShape` | src/interpreter/parsing/parser.ts:57-70 | the loop keeps the nesting by precedence and stops where the climbing says; a failure is the UnexpectedToken error of the non-literal token left current, stamped at that token |
| `Parsing.TerminalThenStop` | src/interpreter/parsing/parser.ts:45-55 | a literal followed by a token that ends the expression is parsed alone |
| `Parsing.TerminalThenOperator` | src/interpreter/parsing/parser.ts:45-57 | a literal followed by an operator token enters the loop with that operator current |
| `Parsing.ScannerOperatorEndsExpression` | src/interpreter/parsing/parser.ts:50 | an operator token as the newer scanner builds it (not a `BinaryOpToken`) ends the expression after one literal |
| `Parsing.TighterOperatorGroupsFirst` | src/interpreter/parsing/parser.ts:57-70 | `1+2*3` parses as `1+(2*3)` |
| `Parsing.EqualOperatorsGroupLeft` | src/interpreter/parsing/parser.ts:57-70 | `1-2-3` parses as `(1-2)-3` |
| `Parsing.Parser.constructor` | src/interpreter/parsing/parser.ts:12-19 | scans once; on error keeps it with an EOF token at 0:0 current, otherwise the first scanned token is current and the queue holds the scan |
| `Parsing.Parser.Next` | src/interpreter/parsing/parser.ts:35-38 | returns the consumed token and moves as `next` on the view says, touching no scanner character state |
| `Parsing.Parser.WrapError` | src/interpreter/parsing/parser.ts:108-113 | returns the error stamped at the current token |
| `Parsing.Parser.ParseTerminalNode` | src/interpreter/parsing/parser.ts:80-86 | result and new view as `ParseTerminalF` says |
| `Parsing.Parser.ParseExpression` | src/interpreter/parsing/parser.ts:44-73 | the recursive loop yields result and new view as `ParseExpressionF` says |
| `Printer.FromAst` | src/interpreter/parsing/astprinter.ts:12-21 | the printer sees literals as literals and operator nodes as operator nodes |
| `Printer.AstToString` | src/interpreter/parsing/astprinter.ts:12-21 | every non-literal node prints wrapped in one pair of parentheses |
| `Printer.ParenthesesPerOperator` | src/interpreter/parsing/astprinter.ts:16-19 | the output has one `(` and one `)` per operator node, plus those copied from literals and operator names |
| `Printer.BalancedWhenLiteralsAreClean` | src/interpreter/parsing/astprinter.ts:12-21 | with no parentheses in literals or operator names, the output has one `(` and one `)` per operator node and is balanced: no prefix closes more than it has opened |
| `Printer.PrintedInReadingOrder` | src/interpreter/parsing/astprinter.ts:12-21 | removing parentheses and spaces from the output gives the literals and operators in reading order |
| `Environments.GetF` | src/interpreter/eval/environment.ts:22-30 | an undeclared name is VarDNE; a declared one gives its value, `None` (the source's `null`) while unset |
| `Environments.SetF` | src/interpreter/eval/environment.ts:39-46 | `set` succeeds exactly on a declared binding that is not a constant holding a value; it fails with VarDNE or ConstVar and then changes nothing |
| `Environments.NewVarF` | src/interpreter/eval/environment.ts:55-62 | `newVar` fails with VarExists exactly on a declared name, and then changes nothing |
| `Environments.SetIsolation` | src/interpreter/eval/environment.ts:41-45 | a successful `set` is seen by `get` on that key only, and keeps every name and every const flag |
| `Environments.NewVarIsolation` | src/interpreter/eval/environment.ts:58-61 | a fresh `newVar` adds exactly its own binding with the given flag and value |
| `Environments.RedeclarationFails` | src/interpreter/eval/environment.ts:56 | declaring a name twice fails the second time with VarExists and changes nothing |
| `Environments.ConstWrittenOnce` | src/interpreter/eval/environment.ts:42-45 | a constant declared unset stays open while written with no value, takes one value, then refuses every write with ConstVar |
| `Environments.MutableRewrite` | src/interpreter/eval/environment.ts:42-45 | a non-constant can be rewritten; the last write wins |
| `Environments.Environment.constructor` | src/interpreter/eval/environment.ts:12-14 | a new environment has no bindings |
| `Environments.Environment.Get` | src/interpreter/eval/environment.ts:22-30 | result as `GetF` says |
| `Environments.Environment.Set` | src/interpreter/eval/environment.ts:39-46 | error and new table as `SetF` says |
| `Environments.Environment.NewVar` | src/interpreter/eval/environment.ts:55-62 | error and new table as `NewVarF` says |
| `Evaluation.FromValue` | src/interpreter/eval/evaluator.ts:38-39 | a literal's value is a number or a string, never an undefined result |
| `Evaluation.ApplyOp` | src/interpreter/eval/evaluator.ts:53-66 | a symbol no case names gives 0; the arithmetic cases give numbers only from numbers; a zero divisor gives no finite number |
| `Evaluation.Eval` | src/interpreter/eval/evaluator.ts:34-41 | a literal evaluates to its stored value; an operator node goes through the symbol-keyed switch of `ApplyOp`, the corrected dispatch of the Findings row |
| `Evaluation.OperatorStep` | src/interpreter/eval/evaluator.ts:53-64 | each operator the trees can hold reaches its own case of the switch |
| `Evaluation.EvalIsArithmetic` | src/interpreter/eval/evaluator.ts:49-66 | on numeric trees `eval` is ordinary arithmetic on the operator type, left child before right, and a number unless a divisor is 0 |
| `Evaluation.StringsConcatenate` | src/interpreter/eval/evaluator.ts:60-61 | `+` on two strings concatenates them, left first |
| `Evaluation.ExponentIsPow` | src/interpreter/eval/evaluator.ts:62-63 | `**` with any natural exponent `k` is `a` multiplied `k` times; a negative or fractional exponent is left to the host (`HostOnly`) |
| `Evaluation.ExponentAndFallback` | src/interpreter/eval/evaluator.ts:53-66 | every symbol no case names, `%` among them, gives 0 whatever the operands; `a ** 2` is `a * a` |
| `Evaluation.ParsedSumOfProduct` | src/interpreter/eval/evaluator.ts:19-26 | `1+2*3`, parsed and evaluated, is 7 |
| `Evaluation.ParsedDifferences` | src/interpreter/eval/evaluator.ts:19-26 | `1-2-3`, parsed and evaluated, is -4 |
| `Evaluation.TokenTypeMember` | src/interpreter/scanning/tokens.ts:3-8 | the `TokenType` enum has no member named `Asterisk`, `Slash`, `Minus`, `Plus` or `Asterisk2` |
| `Evaluation.ApplyOpAsWritten` | src/interpreter/eval/evaluator.ts:49-66 | with the case labels as written, no case matches any operator and the switch returns 0 |
| `Evaluation.EvalAsWritten` | src/interpreter/eval/evaluator.ts:34-66 | `eval` as written: a literal is its value and every operator node is 0 |
| `Evaluation.AsWrittenOperatorsGiveZero` | src/interpreter/eval/evaluator.ts:53-66 | with the case labels as written, every operator node evaluates to 0 |
| `Evaluation.Evaluator.constructor` | src/interpreter/eval/evaluator.ts:7-12 | the evaluator holds the parser it was given |
| `Evaluation.Evaluator.Next` | src/interpreter/eval/evaluator.ts:19-26 | `next` parses one expression at precedence 0, returns a parse error unchanged, and otherwise returns the tree's value under the corrected dispatch (`Eval`) |
| `Evaluation.Evaluator.EvalNode` | src/interpreter/eval/evaluator.ts:34-67 | the left-then-right recursive walk computes `Eval`, the corrected dispatch; the walk as written is `EvalAsWritten` |

## Findings

| source | as written | input that shows it | evidently intended | confidence | as-written member | corrected member |
|---|---|---|---|---|---|---|
| src/interpreter/eval/evaluator.ts:53-64 | the case labels `TokenType.Asterisk`, `Slash`, `Minus`, `Plus` and `Asterisk2` name members the imported `TokenType` (src/interpreter/scanning/tokens.ts:3-8) does not have, so each label is `undefined` and no operator matches | the tree of `1+2*3` evaluates to 0 | dispatch on the operator symbols `*`, `/`, `-`, `+`, `**`, so `1+2*3` is 7 | not executed; the TypeScript type checker rejects the labels, so the file runs only through a transpiler that skips type checking | `Evaluation.AsWrittenOperatorsGiveZero` | `Evaluation.EvalIsArithmetic` |

## Left out

- User interface (`src/App.tsx`, `src/components/`): React components, not interpreter logic.
- `src/interpreter/eval/globals.ts` and `src/interpreter/eval/dataTypes.ts`: the native functions wrap `console.log` and `Date`, which are host calls.
- Console output: `printAST` (src/interpreter/parsing/astprinter.ts:8-10) and the logging in the older scanner's constructor (src/interpreter/scanner.ts:17).
- JavaScript numbers are modelled as exact reals. Rounding in `res * 10 + d`, in `Math.pow` and in the division by a power of ten is not modelled.
- Evaluation.ApplyOp: results that only IEEE-754 or JavaScript's coercions produce are the single value `HostOnly`. These are Infinity or NaN from a zero divisor, `**` with a non-natural exponent, and arithmetic between strings and numbers.
- Printer.ValueString: a number's `toString()` is a parameter `numStr`, because number formatting belongs to the host.
- Scanning.Scanner.LookAhead: `n` is a natural number. A negative `n` would index past the top of the stack and is not modelled.
- Parsing.Parser.ParseExpression: `prev` is a natural number, because every caller passes 0 or a table precedence.
- `getError` (src/interpreter/parsing/parser.ts:26-28) is the read of the parser's `error` field, which the constructor's contract states.
- Tries.Insert: the trie is a value. `buildTrie`'s walk through shared node objects is modelled as rebuilding the path, so node identity is not captured.
- Both `wrapError` methods return a stamped copy of the error instead of mutating the object they were given. No other reference to that object is ever used.
- Environments.Environment.Set: the in-place update of the stored `VarData` record is a replacement of the map entry. The record is reachable only through the map.
- CharStream.NextCharF: the text is a sequence of Unicode scalar values, not of UTF-16 code units as JavaScript indexes `this.code[this.curr]`. A character outside the Basic Multilingual Plane (such as an emoji) is one character here. The source reads it as two surrogate halves and reports UnknownSymbol for the lone high surrogate. The model reports it for the whole character. Columns past such a character count it once instead of twice.
- Evaluation.Evaluator: `Next` and `EvalNode` use the corrected, symbol-keyed switch (`ApplyOp`, `Eval`), not the case labels as written. The code as written is `EvalAsWritten`, where every operator node is 0; see Findings.
- The regular expressions `\s`, `[0-9]` and `[0-9.]` are explicit character predicates. `\s` uses JavaScript's whitespace set.
- The `UnaryOp` case of the printer exists only in the printer's own node type, because the tree module defines no unary node.
