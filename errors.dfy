/** The interpreter's error records, their fixed codes and messages, and the display format. */
module Errors {
  import opened Wrappers
  import opened Numerals

  /** An error: a fixed code, a message, and a position stamped later (absent when fresh). */
  datatype Error = Error(errorCode: string, msg: string, lineNumber: Option<int>, columnNumber: Option<int>)

  /** The base constructor: code and message, no position yet. */
  function NewError(errorCode: string, msg: string): (e: Error)
    ensures e.errorCode == errorCode && e.msg == msg
    ensures e.lineNumber.None? && e.columnNumber.None?
  {
    Error(errorCode, msg, None, None)
  }

  /** `n || 0` for an optional number: an absent position reads as 0. */
  function OrZero(n: Option<int>): int {
    n.GetOr(0)
  }

  /** `"<code>: <msg> (<line>:<col>)"`. */
  function FmtString(e: Error): string {
    e.errorCode + ": " + e.msg + " (" + IntToString(OrZero(e.lineNumber)) + ":"
      + IntToString(OrZero(e.columnNumber)) + ")"
  }

  /** The formatted string starts with the code and message and ends with the position in
      parentheses, whose two numbers read back as the line and the column (0 when unset). */
  lemma FmtStringParts(e: Error, line: nat, column: nat)
    requires OrZero(e.lineNumber) == line && OrZero(e.columnNumber) == column
    ensures var s := FmtString(e);
      var head := e.errorCode + ": " + e.msg + " (";
      var l := NatToString(line);
      var c := NatToString(column);
      && s == head + l + ":" + c + ")"
      && AllDigits(l) && DigitsValue(l) == line
      && AllDigits(c) && DigitsValue(c) == column
  {
    NatToStringRoundTrip(line);
    NatToStringRoundTrip(column);
  }

  /** A freshly constructed error prints its position as `(0:0)`. */
  lemma {:induction false} FreshErrorPrintsZeroPosition(code: string, msg: string)
    ensures FmtString(NewError(code, msg)) == code + ": " + msg + " (0:0)"
  {
    var e := NewError(code, msg);
    assert NatToString(0) == "0";
    calc {
      FmtString(e);
      code + ": " + msg + " (" + IntToString(0) + ":" + IntToString(0) + ")";
      code + ": " + msg + " (" + "0" + ":" + "0" + ")";
    }
  }

  /** `xs.join(sep)`. */
  function Join(xs: seq<string>, sep: string): (r: string)
    ensures |xs| == 0 ==> r == ""
    ensures |xs| == 1 ==> r == xs[0]
    ensures |xs| >= 2 ==> xs[0] + sep <= r
  {
    if |xs| == 0 then ""
    else if |xs| == 1 then xs[0]
    else
      xs[0] + sep + Join(xs[1..], sep)
  }

  /** Appending an item to a non-empty list appends the separator and the item: with the two
      base cases this fixes `Join` as every item in order, the separator between each two. */
  lemma {:induction false} JoinSnoc(xs: seq<string>, x: string, sep: string)
    requires |xs| >= 1
    ensures Join(xs + [x], sep) == Join(xs, sep) + sep + x
  {
    var ys := xs + [x];
    assert ys[1..] == xs[1..] + [x];
    if |xs| == 1 {
      assert ys[1..] == [x];
      assert Join(ys, sep) == xs[0] + sep + x;
    } else {
      JoinSnoc(xs[1..], x, sep);
      calc {
        Join(ys, sep);
        xs[0] + sep + Join(xs[1..] + [x], sep);
        xs[0] + sep + (Join(xs[1..], sep) + sep + x);
        (xs[0] + sep + Join(xs[1..], sep)) + sep + x;
        Join(xs, sep) + sep + x;
      }
    }
  }

  // The ErrorType constructors: each fixes its code and builds its message.

  function InvalidCharacter(received: char): (e: Error)
    ensures e.errorCode == "INVALID_CHAR" && e.msg == "Received '" + [received] + "'"
    ensures e.lineNumber.None? && e.columnNumber.None?
  {
    NewError("INVALID_CHAR", "Received '" + [received] + "'")
  }

  function InvalidToken(received: string): (e: Error)
    ensures e.errorCode == "INVALID_TOKEN" && e.msg == "Received '" + received + "'"
    ensures e.lineNumber.None? && e.columnNumber.None?
  {
    NewError("INVALID_TOKEN", "Received '" + received + "'")
  }

  function UnknownSymbol(received: string): (e: Error)
    ensures e.errorCode == "UNKNOWN_SYMBOL" && e.msg == "Received '" + received + "'"
    ensures e.lineNumber.None? && e.columnNumber.None?
  {
    NewError("UNKNOWN_SYMBOL", "Received '" + received + "'")
  }

  /** What an UnexpectedToken message says it expected. */
  function ExpectedList(expected: seq<string>): (r: string)
    ensures |expected| == 0 ==> r == ""
    ensures |expected| == 1 ==> r == expected[0]
    ensures |expected| > 1 ==> r == "one of: " + Join(expected, ", ")
    ensures |expected| > 1 ==> "one of: " + expected[0] + ", " <= r
  {
    if |expected| > 1 then "one of: " + Join(expected, ", ") else Join(expected, "")
  }

  /** Two or three expected types are listed in order after `one of: `, separated by `, `. */
  lemma ExpectedListSpelled(a: string, b: string, c: string)
    ensures ExpectedList([a, b]) == "one of: " + a + ", " + b
    ensures ExpectedList([a, b, c]) == "one of: " + a + ", " + b + ", " + c
  {
    var sep := ", ";
    var two, three := [a, b], [a, b, c];
    assert Join(two, sep) == a + sep + b by {
      assert [a] + [b] == two;
      JoinSnoc([a], b, sep);
    }
    assert Join(three, sep) == a + sep + b + sep + c by {
      assert two + [c] == three;
      JoinSnoc(two, c, sep);
    }
  }

  /** Names a single expected type bare, and several as "one of: a, b, ...". */
  function UnexpectedToken(received: string, expected: seq<string>): (e: Error)
    ensures e.errorCode == "UNEXP_TOKEN"
    ensures e.msg == "Received '" + received + "' but expected " + ExpectedList(expected)
    ensures e.lineNumber.None? && e.columnNumber.None?
  {
    NewError("UNEXP_TOKEN", "Received '" + received + "' but expected " + ExpectedList(expected))
  }

  function TokenExpected(expected: string): (e: Error)
    ensures e.errorCode == "TOKEN_EXP" && e.msg == "Expected " + expected
    ensures e.lineNumber.None? && e.columnNumber.None?
  {
    NewError("TOKEN_EXP", "Expected " + expected)
  }

  function ExpectedTerminal(received: string): (e: Error)
    ensures e.errorCode == "EXP_TERM"
    ensures e.msg == "Received '" + received + "' but expected a terminal value"
    ensures e.lineNumber.None? && e.columnNumber.None?
  {
    NewError("EXP_TERM", "Received '" + received + "' but expected a terminal value")
  }

  /** The code keeps the source's spelling, with the doubled K. */
  function UnknownEscape(received: char): (e: Error)
    ensures e.errorCode == "UNKKNOWN_ESCAPE"
    ensures e.msg == "Unknown escape sequence '\\" + [received] + "'"
    ensures e.lineNumber.None? && e.columnNumber.None?
  {
    NewError("UNKKNOWN_ESCAPE", "Unknown escape sequence '\\" + [received] + "'")
  }

  function UnexpectedType(received: string, expected: string): (e: Error)
    ensures e.errorCode == "UNEXP_TYPE"
    ensures e.msg == "Received a " + received + " but expected " + expected
    ensures e.lineNumber.None? && e.columnNumber.None?
  {
    NewError("UNEXP_TYPE", "Received a " + received + " but expected " + expected)
  }

  function DivideByZero(): (e: Error)
    ensures e.errorCode == "DIV_BY_ZERO" && e.msg == "Attempted to divide by zero"
    ensures e.lineNumber.None? && e.columnNumber.None?
  {
    NewError("DIV_BY_ZERO", "Attempted to divide by zero")
  }

  function BadComparison(leftType: string, rightType: string): (e: Error)
    ensures e.errorCode == "BAD_CMP"
    ensures e.msg == "Can't compare " + leftType + " and " + rightType
    ensures e.lineNumber.None? && e.columnNumber.None?
  {
    NewError("BAD_CMP", "Can't compare " + leftType + " and " + rightType)
  }

  function VarExists(name: string): (e: Error)
    ensures e.errorCode == "VAR_EXISTS" && e.msg == "Variable " + name + " already exists"
    ensures e.lineNumber.None? && e.columnNumber.None?
  {
    NewError("VAR_EXISTS", "Variable " + name + " already exists")
  }

  function VarDNE(name: string): (e: Error)
    ensures e.errorCode == "VAR_DNE" && e.msg == "Variable " + name + " does not exist"
    ensures e.lineNumber.None? && e.columnNumber.None?
  {
    NewError("VAR_DNE", "Variable " + name + " does not exist")
  }

  function BadAssignmentTarget(): (e: Error)
    ensures e.errorCode == "BAD_ASSG_TRG" && e.msg == "Can't assign to target"
    ensures e.lineNumber.None? && e.columnNumber.None?
  {
    NewError("BAD_ASSG_TRG", "Can't assign to target")
  }

  function ConstVar(name: string): (e: Error)
    ensures e.errorCode == "CONST_VAR"
    ensures e.msg == "Variable " + name + " is constant and can't be reassigned"
    ensures e.lineNumber.None? && e.columnNumber.None?
  {
    NewError("CONST_VAR", "Variable " + name + " is constant and can't be reassigned")
  }

  /** The variable errors name the variable right after "Variable ", so the name can be read
      back from the message; and each variable error is told apart by its code. */
  lemma VariableErrorsNameTheVariable(name: string)
    ensures VarExists(name).msg[9..9 + |name|] == name
    ensures VarDNE(name).msg[9..9 + |name|] == name
    ensures ConstVar(name).msg[9..9 + |name|] == name
    ensures VarExists(name).errorCode != VarDNE(name).errorCode
    ensures VarDNE(name).errorCode != ConstVar(name).errorCode
    ensures VarExists(name).errorCode != ConstVar(name).errorCode
  {
  }

  /** The codes of the fourteen error kinds named by the interpreter are pairwise distinct. */
  lemma CodesDistinct()
    ensures var codes := [InvalidCharacter('.').errorCode, InvalidToken("").errorCode,
        UnknownSymbol("").errorCode, UnexpectedToken("", []).errorCode, TokenExpected("").errorCode,
        ExpectedTerminal("").errorCode, UnknownEscape('x').errorCode, UnexpectedType("", "").errorCode,
        DivideByZero().errorCode, BadComparison("", "").errorCode, VarExists("").errorCode,
        VarDNE("").errorCode, BadAssignmentTarget().errorCode, ConstVar("").errorCode];
      forall i, j :: 0 <= i < j < |codes| ==> codes[i] != codes[j]
  {
  }
}
