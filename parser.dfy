/** The arithmetic expression parser (CreasePatternAnalyzer/Parser.swift:152-404).

    `Parser.parse` reads the expression from left to right with two stacks:
    numbers go on the operand stack, operators and function names on the
    operator stack. An incoming binary operator of lower precedence than the
    operator on top pops and applies exactly one operator before it is pushed;
    `)` pops and applies down to the matching `(`; at the end every remaining
    operator is applied and exactly one operand must be left.

    The functions `Step`, `Run` and `Evaluate` say what one pass of the main
    loop, the loop and the whole call compute; the class `Parser` carries out
    the same work on its three fields and its methods are proved against those
    functions. The functions take a `Reduction` so that the reduction rule of
    the source (`OnePop`) and a corrected one (`ShuntingYard`) can be compared. */
module Parsing {
  import opened Wrappers
  import opened Libm
  import opened Lexer

  datatype ParseError =
    | NotEnoughOperands
    | TooManyOperands
    | UnbalancedParenthesis
    | InvalidNumber
    | InvalidOperation
    | ParseStackFailure
    | EmptyExpression

  /** An entry of the operator stack. The source stacks strings: the
      operator characters `^ * / + -`, "unary-" for a negating `-`, "(" and
      function names; `Spelling` gives that string for each entry. */
  datatype Operator = Power | Times | Divide | Plus | Minus | Negate | Open | Function(name: string)

  function Spelling(op: Operator): string {
    match op
    case Power => "^"
    case Times => "*"
    case Divide => "/"
    case Plus => "+"
    case Minus => "-"
    case Negate => "unary-"
    case Open => "("
    case Function(name) => name
  }

  predicate IsOperatorChar(c: char) {
    c == '^' || c == '*' || c == '/' || c == '+' || c == '-'
  }

  /** The binary operator an operator character stands for. */
  function OperatorOf(c: char): (op: Operator)
    requires IsOperatorChar(c)
    ensures Spelling(op) == [c]
  {
    if c == '^' then Power
    else if c == '*' then Times
    else if c == '/' then Divide
    else if c == '+' then Plus
    else Minus
  }

  /** `precedence` (CreasePatternAnalyzer/Parser.swift:389-404). */
  function Precedence(op: Operator): int {
    match op
    case Power => 50
    case Times => 40
    case Divide => 40
    case Negate => 30
    case Plus => 20
    case Minus => 20
    case Open => 10
    case Function(_) => 100
  }

  /** `compareOperators` (CreasePatternAnalyzer/Parser.swift:385-387). */
  function CompareOperators(operator1: Operator, operator2: Operator): int {
    Precedence(operator1) - Precedence(operator2)
  }

  /** The precedence table orders `^` above `*` and `/`, above unary minus,
      above `+` and `-`, above `(`; a function name binds tightest of all. */
  lemma PrecedenceOrder(op: Operator)
    ensures Precedence(Power) > Precedence(Times) == Precedence(Divide) > Precedence(Negate)
    ensures Precedence(Negate) > Precedence(Plus) == Precedence(Minus) > Precedence(Open)
    ensures op.Function? <==> forall known: Operator | !known.Function? :: Precedence(known) < Precedence(op)
  {
    if !op.Function? {
      assert !(Precedence(op) < Precedence(op));
    }
  }

  predicate IsBinary(op: Operator) {
    op.Power? || op.Times? || op.Divide? || op.Plus? || op.Minus?
  }

  /** The functions `apply` knows, besides unary minus. */
  const UnaryNames: seq<string> := ["sin", "cos", "tan", "ln", "log", "sqrt", "cbrt", "abs"]

  predicate IsUnary(op: Operator) {
    op.Negate? || (op.Function? && op.name in UnaryNames)
  }

  /** How many operands `apply` takes from the stack; 0 for an entry it rejects. */
  function Arity(op: Operator): nat {
    if IsBinary(op) then 2 else if IsUnary(op) then 1 else 0
  }

  function BinaryResult(lib: Libm, op: Operator, operand1: real, operand2: real): real
    requires IsBinary(op)
  {
    match op
    case Power => lib.pow(operand1, operand2)
    case Times => operand1 * operand2
    case Divide => Div(operand1, operand2)
    case Plus => operand1 + operand2
    case Minus => operand1 - operand2
  }

  /** The trigonometric functions take degrees. */
  function UnaryResult(lib: Libm, op: Operator, operand: real): real
    requires IsUnary(op)
  {
    if op.Negate? then -operand
    else if op.name == "sin" then lib.sin(operand * Pi / 180.0)
    else if op.name == "cos" then lib.cos(operand * Pi / 180.0)
    else if op.name == "tan" then lib.tan(operand * Pi / 180.0)
    else if op.name == "ln" then lib.log(operand)
    else if op.name == "log" then lib.log10(operand)
    else if op.name == "sqrt" then lib.sqrt(operand)
    else if op.name == "cbrt" then lib.cbrt(operand)
    else Abs(operand)
  }

  /** What `apply` does to the operand stack (CreasePatternAnalyzer/Parser.swift:206-270). */
  function ApplyTo(lib: Libm, op: Operator, xs: seq<real>): Result<seq<real>, ParseError>
  {
    if IsBinary(op) then
      if |xs| < 2 then Err(NotEnoughOperands)
      else Ok(xs[..|xs| - 2] + [BinaryResult(lib, op, xs[|xs| - 2], xs[|xs| - 1])])
    else if IsUnary(op) then
      if |xs| < 1 then Err(NotEnoughOperands)
      else Ok(xs[..|xs| - 1] + [UnaryResult(lib, op, xs[|xs| - 1])])
    else Err(InvalidOperation)
  }

  /** An operator fails exactly when it is not one `apply` knows or the stack
      is too short; otherwise it replaces its operands by one result. */
  lemma ApplyToShape(lib: Libm, op: Operator, xs: seq<real>)
    ensures var r := ApplyTo(lib, op, xs);
      (r.Err? <==> Arity(op) == 0 || |xs| < Arity(op)) &&
      (r.Err? ==> r.error == if Arity(op) == 0 then InvalidOperation else NotEnoughOperands) &&
      (r.Ok? ==> |r.value| == |xs| - Arity(op) + 1 && r.value[..|r.value| - 1] == xs[..|xs| - Arity(op)])
  {
    var r := ApplyTo(lib, op, xs);
    if r.Ok? {
      assert r.value[..|r.value| - 1] == xs[..|xs| - Arity(op)];
    }
  }

  /** The two stacks and the flag that turns `-` into unary minus. */
  datatype Machine = Machine(operands: seq<real>, operators: seq<Operator>, operatorPushed: bool)

  const Start := Machine([], [], true)

  /** The reduction rule applied before an operator is pushed: the source's
      rule pops at most one operator, and only one of strictly higher
      precedence; the corrected rule pops every operator that binds at least
      as tightly, except that `^` and unary minus associate to the right. */
  datatype Reduction = OnePop | ShuntingYard

  /** The corrected rule: `top` is to be applied before `op` is pushed. */
  predicate Yields(top: Operator, op: Operator) {
    op != Negate && top != Open && (Precedence(top) > Precedence(op) || (Precedence(top) == Precedence(op) && op != Power))
  }

  function ReduceFor(lib: Libm, xs: seq<real>, ops: seq<Operator>, op: Operator): Result<(seq<real>, seq<Operator>), ParseError>
    decreases |ops|
  {
    if ops == [] || !Yields(ops[|ops| - 1], op) then Ok((xs, ops))
    else
      match ApplyTo(lib, ops[|ops| - 1], xs)
      case Err(e) => Err(e)
      case Ok(ys) => ReduceFor(lib, ys, ops[..|ops| - 1], op)
  }

  /** The operator branch of `parse` (CreasePatternAnalyzer/Parser.swift:291-311),
      before `operatorPushed` is set. */
  function PushOnto(lib: Libm, reduction: Reduction, st: Machine, op: Operator): Result<Machine, ParseError>
  {
    match reduction
    case OnePop =>
      var n := |st.operators|;
      if n == 0 then Ok(st.(operators := [op]))
      else if CompareOperators(op, st.operators[n - 1]) >= 0 then Ok(st.(operators := st.operators + [op]))
      else (
        match ApplyTo(lib, st.operators[n - 1], st.operands)
        case Err(e) => Err(e)
        case Ok(ys) => Ok(st.(operands := ys, operators := st.operators[..n - 1] + [op])))
    case ShuntingYard =>
      match ReduceFor(lib, st.operands, st.operators, op)
      case Err(e) => Err(e)
      case Ok((xs, ops)) => Ok(st.(operands := xs, operators := ops + [op]))
  }

  /** The `)` branch (CreasePatternAnalyzer/Parser.swift:321-330): apply operators
      down to the last `(` and drop it. */
  function CloseParen(lib: Libm, xs: seq<real>, ops: seq<Operator>): Result<(seq<real>, seq<Operator>), ParseError>
    decreases |ops|
  {
    if ops == [] then Err(UnbalancedParenthesis)
    else if ops[|ops| - 1] == Open then Ok((xs, ops[..|ops| - 1]))
    else
      match ApplyTo(lib, ops[|ops| - 1], xs)
      case Err(e) => Err(e)
      case Ok(ys) => CloseParen(lib, ys, ops[..|ops| - 1])
  }

  /** The end of `parse` (CreasePatternAnalyzer/Parser.swift:356-367): apply
      every operator left, then exactly one operand must remain; none at all
      is the empty result of a blank expression. */
  function Drain(lib: Libm, xs: seq<real>, ops: seq<Operator>): Result<Option<real>, ParseError>
    decreases |ops|
  {
    if ops == [] then
      if |xs| == 0 then Ok(None)
      else if |xs| == 1 then Ok(Some(xs[0]))
      else Err(ParseStackFailure)
    else
      match ApplyTo(lib, ops[|ops| - 1], xs)
      case Err(e) => Err(e)
      case Ok(ys) => Drain(lib, ys, ops[..|ops| - 1])
  }

  /** The reduction stops at an operator that does not yield to `op`, having
      popped only from the top. */
  lemma {:induction false} ReduceForStops(lib: Libm, xs: seq<real>, ops: seq<Operator>, op: Operator)
    ensures var r := ReduceFor(lib, xs, ops, op);
      r.Ok? ==> (|r.value.1| <= |ops| && r.value.1 == ops[..|r.value.1|] &&
        (r.value.1 == [] || !Yields(r.value.1[|r.value.1| - 1], op)))
    decreases |ops|
  {
    if ops != [] && Yields(ops[|ops| - 1], op) {
      var a := ApplyTo(lib, ops[|ops| - 1], xs);
      if a.Ok? {
        var front := ops[..|ops| - 1];
        ReduceForStops(lib, a.value, front, op);
        var r := ReduceFor(lib, a.value, front, op);
        if r.Ok? {
          assert front[..|r.value.1|] == ops[..|r.value.1|];
        }
      }
    }
  }

  /** A pushed operator ends up on top; as written, it goes over the top
      operator unless it binds less tightly, and then replaces it. */
  lemma PushOntoTop(lib: Libm, reduction: Reduction, st: Machine, op: Operator)
    ensures var r := PushOnto(lib, reduction, st, op);
      (r.Ok? ==> |r.value.operators| > 0 && r.value.operators[|r.value.operators| - 1] == op) &&
      (reduction == OnePop && r.Ok? ==>
        var n := |st.operators|;
        if n == 0 || CompareOperators(op, st.operators[n - 1]) >= 0 then
          r.value.operators == st.operators + [op] && r.value.operands == st.operands
        else
          r.value.operators == st.operators[..n - 1] + [op])
  {
  }

  /** `)` succeeds exactly up to the last `(`: the operators above it are
      applied and it is removed; with no `(` it is unbalanced. */
  lemma {:induction false} CloseParenFindsOpen(lib: Libm, xs: seq<real>, ops: seq<Operator>)
    ensures var r := CloseParen(lib, xs, ops);
      (Open !in ops ==> r.Err?) &&
      (r.Ok? ==> var j := |r.value.1|;
        j < |ops| && ops[..j] == r.value.1 && ops[j] == Open && Open !in ops[j + 1..]) &&
      (r.Err? && r.error == UnbalancedParenthesis ==> Open !in ops)
    decreases |ops|
  {
    if ops != [] && ops[|ops| - 1] != Open {
      var front := ops[..|ops| - 1];
      assert ops == front + [ops[|ops| - 1]];
      var a := ApplyTo(lib, ops[|ops| - 1], xs);
      if a.Ok? {
        CloseParenFindsOpen(lib, a.value, front);
        var r := CloseParen(lib, a.value, front);
        if r.Ok? {
          var j := |r.value.1|;
          assert ops[..j] == front[..j];
          assert ops[j + 1..] == front[j + 1..] + [ops[|ops| - 1]];
        }
      }
    }
  }

  /** A parse that ends well leaves no `(` open; with no operators left the
      result is empty exactly when no operand is left. */
  lemma {:induction false} DrainShape(lib: Libm, xs: seq<real>, ops: seq<Operator>)
    ensures var r := Drain(lib, xs, ops);
      (r.Ok? ==> Open !in ops) && (ops == [] ==> (r == Ok(None) <==> xs == []))
    decreases |ops|
  {
    if ops != [] {
      var front := ops[..|ops| - 1];
      assert ops == front + [ops[|ops| - 1]];
      var a := ApplyTo(lib, ops[|ops| - 1], xs);
      if a.Ok? {
        DrainShape(lib, a.value, front);
      }
    }
  }

  /** The constants `p`, `e` and `d`. */
  predicate IsConstant(name: string) {
    name == "p" || name == "e" || name == "d"
  }

  function ConstantValue(lib: Libm, name: string): real
    requires IsConstant(name)
  {
    if name == "p" then Pi else if name == "e" then E else lib.sqrt(2.0)
  }

  /** The default branch of `parse` as written (CreasePatternAnalyzer/Parser.swift:333-352):
      read a name, push a constant or the name as an operator. */
  function NameStep(lib: Libm, st: Machine, str: string): (Machine, string) {
    var k := NameRun(str);
    var name := str[..k];
    if IsConstant(name) then (st.(operands := st.operands + [ConstantValue(lib, name)], operatorPushed := false), str[k..])
    else (st.(operators := st.operators + [Function(name)], operatorPushed := true), str[k..])
  }

  /** A number is read and pushed (CreasePatternAnalyzer/Parser.swift:279-287). */
  function ReadNumber(st: Machine, str: string): (r: Result<(Machine, string), ParseError>)
    requires str != [] && (IsDigit(str[0]) || str[0] == '.')
    ensures r.Ok? ==> |r.value.1| < |str|
  {
    match ScanDouble(str)
    case None => Err(InvalidNumber)
    case Some((v, rest)) => Ok((st.(operands := st.operands + [v], operatorPushed := false), rest))
  }

  /** An operator character, after which `rest` follows (CreasePatternAnalyzer/Parser.swift:291-312);
      `-` after an operator or at the start is unary minus. */
  function ReadOperator(lib: Libm, reduction: Reduction, st: Machine, str: string): Result<(Machine, string), ParseError>
    requires str != [] && IsOperatorChar(str[0])
  {
    var c, rest := str[0], str[1..];
    var op := if c == '-' && st.operatorPushed then Negate else OperatorOf(c);
    match PushOnto(lib, reduction, st, op)
    case Err(e) => Err(e)
    case Ok(m) => Ok((m.(operatorPushed := true), rest))
  }

  /** A `)`, after which `rest` follows (CreasePatternAnalyzer/Parser.swift:321-330). */
  function ReadClose(lib: Libm, st: Machine, str: string): Result<(Machine, string), ParseError>
    requires str != [] && str[0] == ')'
  {
    var rest := str[1..];
    match CloseParen(lib, st.operands, st.operators)
    case Err(e) => Err(e)
    case Ok((xs, ops)) => Ok((Machine(xs, ops, false), rest))
  }

  /** A name; a character that cannot start one is rejected. */
  function ReadName(lib: Libm, st: Machine, str: string): (r: Result<(Machine, string), ParseError>)
    requires str != [] && !IsDigit(str[0]) && str[0] != '.' && !IsOperatorChar(str[0]) && str[0] !in "() "
    ensures r.Ok? ==> |r.value.1| < |str|
  {
    if NameRun(str) == 0 then Err(InvalidOperation) else Ok(NameStep(lib, st, str))
  }

  /** One pass of the main loop of `parse` (CreasePatternAnalyzer/Parser.swift:276-355).
      A character that can start neither a number, an operator nor a name is
      rejected; the source loops forever on it (see `UnknownCharacterStalls`). */
  function Step(lib: Libm, reduction: Reduction, st: Machine, str: string): (r: Result<(Machine, string), ParseError>)
    requires str != []
    ensures r.Ok? ==> |r.value.1| < |str|
  {
    var c := str[0];
    if IsDigit(c) || c == '.' then ReadNumber(st, str)
    else if IsOperatorChar(c) then ReadOperator(lib, reduction, st, str)
    else if c == '(' then Ok((st.(operators := st.operators + [Open], operatorPushed := true), str[1..]))
    else if c == ' ' then Ok((st, str[1..]))
    else if c == ')' then ReadClose(lib, st, str)
    else ReadName(lib, st, str)
  }

  /** The main loop and the end of `parse` from the machine state `st`. */
  function Run(lib: Libm, reduction: Reduction, st: Machine, str: string): Result<Option<real>, ParseError>
    decreases |str|
  {
    if str == [] then Drain(lib, st.operands, st.operators)
    else
      match Step(lib, reduction, st, str)
      case Err(e) => Err(e)
      case Ok((next, rest)) => Run(lib, reduction, next, rest)
  }

  /** `Parser().parse(string:)`: the empty string is an error of its own. */
  function Evaluate(lib: Libm, reduction: Reduction, s: string): Result<Option<real>, ParseError> {
    if s == [] then Err(EmptyExpression) else Run(lib, reduction, Start, s)
  }

  /** The message `parsedString` shows for each error. */
  function Message(e: ParseError): string {
    match e
    case NotEnoughOperands => "Not enough operands"
    case TooManyOperands => "Too many operands"
    case UnbalancedParenthesis => "Unbalanced parenthesis"
    case InvalidNumber => "Invalid number"
    case InvalidOperation => "Invalid operation"
    case ParseStackFailure => "Stack failure"
    case EmptyExpression => ""
  }

  /** `parsedString(from:)` (CreasePatternAnalyzer/Parser.swift:170-204): the
      number formatting of `String(parsed)` is the parameter `format`. */
  function Report(format: real -> string, r: Result<Option<real>, ParseError>): (out: (bool, string, real))
    ensures out.0 <==> r.Ok? && r.value.Some?
    ensures out.0 ==> out.2 == r.value.value
    ensures !out.0 ==> out.2 == 0.0
  {
    match r
    case Ok(Some(v)) => (true, format(v), v)
    case Ok(None) => (false, "Empty string", 0.0)
    case Err(e) => (false, Message(e), 0.0)
  }

  /** The parser object: the two stacks and the unary-minus flag. */
  class Parser {
    var operands: seq<real>
    var operators: seq<Operator>
    var operatorPushed: bool

    constructor ()
      ensures operands == [] && operators == [] && operatorPushed
    {
      operands := [];
      operators := [];
      operatorPushed := true;
    }

    function State(): Machine
      reads this
    {
      Machine(operands, operators, operatorPushed)
    }

    /** `apply` (CreasePatternAnalyzer/Parser.swift:206-270). When it throws,
        the parse is abandoned, so the stack it leaves is not described. */
    method Apply(lib: Libm, op: Operator) returns (err: Option<ParseError>)
      modifies this`operands
      ensures ApplyTo(lib, op, old(operands)).Err? ==> err == Some(ApplyTo(lib, op, old(operands)).error)
      ensures ApplyTo(lib, op, old(operands)).Ok? ==> err == None && operands == ApplyTo(lib, op, old(operands)).value
    {
      if IsBinary(op) {
        if operands == [] {
          return Some(NotEnoughOperands);
        }
        var operand2 := operands[|operands| - 1];
        operands := operands[..|operands| - 1];
        if operands == [] {
          return Some(NotEnoughOperands);
        }
        var operand1 := operands[|operands| - 1];
        operands := operands[..|operands| - 1];
        operands := operands + [BinaryResult(lib, op, operand1, operand2)];
      } else if IsUnary(op) {
        if operands == [] {
          return Some(NotEnoughOperands);
        }
        var operand := operands[|operands| - 1];
        operands := operands[..|operands| - 1];
        operands := operands + [UnaryResult(lib, op, operand)];
      } else {
        return Some(InvalidOperation);
      }
      return None;
    }

    /** The operator branch of `parse` (CreasePatternAnalyzer/Parser.swift:291-312). */
    method PushOperator(lib: Libm, op: Operator) returns (err: Option<ParseError>)
      modifies this`operands, this`operators, this`operatorPushed
      ensures var r := PushOnto(lib, OnePop, old(State()), op);
        (r.Err? ==> err == Some(r.error)) && (r.Ok? ==> err == None && State() == r.value.(operatorPushed := true))
    {
      if |operators| == 0 {
        operators := operators + [op];
      } else {
        var comparison := CompareOperators(op, operators[|operators| - 1]);
        if comparison >= 0 {
          operators := operators + [op];
        } else {
          var operatorName := operators[|operators| - 1];
          operators := operators[..|operators| - 1];
          err := Apply(lib, operatorName);
          if err.Some? {
            return;
          }
          operators := operators + [op];
        }
      }
      operatorPushed := true;
      return None;
    }

    /** The `)` branch of `parse` (CreasePatternAnalyzer/Parser.swift:321-330). */
    method CloseParenthesis(lib: Libm) returns (err: Option<ParseError>)
      modifies this`operands, this`operators, this`operatorPushed
      ensures var r := CloseParen(lib, old(operands), old(operators));
        (r.Err? ==> err == Some(r.error)) && (r.Ok? ==> err == None && State() == Machine(r.value.0, r.value.1, false))
    {
      while true
        invariant CloseParen(lib, operands, operators) == CloseParen(lib, old(operands), old(operators))
        decreases |operators|
      {
        if operators == [] {
          return Some(UnbalancedParenthesis);
        }
        var operatorName := operators[|operators| - 1];
        operators := operators[..|operators| - 1];
        if operatorName == Open {
          break;
        }
        err := Apply(lib, operatorName);
        if err.Some? {
          return;
        }
      }
      operatorPushed := false;
      return None;
    }

    /** `parse(string:)` (CreasePatternAnalyzer/Parser.swift:272-368), except
        that a character no branch consumes is rejected instead of being
        read again forever. */
    method Parse(lib: Libm, s: string) returns (r: Result<Option<real>, ParseError>)
      modifies this
      ensures r == if s == [] then Err(EmptyExpression) else Run(lib, OnePop, old(State()), s)
    {
      if s == [] {
        return Err(EmptyExpression);
      }
      var str := s;
      while str != []
        invariant Run(lib, OnePop, State(), str) == Run(lib, OnePop, old(State()), s)
        decreases |str|
      {
        ghost var before, input := State(), str;
        var err;
        err, str := Advance(lib, str);
        if err.Some? {
          return Err(err.value);
        }
        RunStep(lib, OnePop, before, input, State(), str);
      }
      r := Clear(lib);
    }

    /** One pass of the main loop of `parse` (CreasePatternAnalyzer/Parser.swift:276-355). */
    method Advance(lib: Libm, str: string) returns (err: Option<ParseError>, rest: string)
      requires str != []
      modifies this`operands, this`operators, this`operatorPushed
      ensures var r := Step(lib, OnePop, old(State()), str);
        (r.Err? ==> err == Some(r.error)) && (r.Ok? ==> err == None && (State(), rest) == r.value)
    {
      err := None;
      var c := str[0];
      rest := str[1..];
      if IsDigit(c) || c == '.' {
        err, rest := AdvanceNumber(str);
      } else if IsOperatorChar(c) {
        var op := if c == '-' && operatorPushed then Negate else OperatorOf(c);
        err := PushOperator(lib, op);
      } else if c == '(' {
        operators := operators + [Open];
        operatorPushed := true;
      } else if c == ' ' {
      } else if c == ')' {
        err := CloseParenthesis(lib);
      } else {
        err, rest := AdvanceName(lib, str);
      }
    }

    /** The number branch (CreasePatternAnalyzer/Parser.swift:279-287). */
    method AdvanceNumber(str: string) returns (err: Option<ParseError>, rest: string)
      requires str != [] && (IsDigit(str[0]) || str[0] == '.')
      modifies this`operands, this`operatorPushed
      ensures var r := ReadNumber(old(State()), str);
        (r.Err? ==> err == Some(r.error)) && (r.Ok? ==> err == None && (State(), rest) == r.value)
    {
      var parsed;
      parsed, rest := ParseDouble(str);
      if parsed.None? {
        return Some(InvalidNumber), rest;
      }
      operands := operands + [parsed.value];
      operatorPushed := false;
      err := None;
    }

    /** The default branch (CreasePatternAnalyzer/Parser.swift:333-352), with an
        empty name rejected. */
    method AdvanceName(lib: Libm, str: string) returns (err: Option<ParseError>, rest: string)
      requires str != [] && !IsDigit(str[0]) && str[0] != '.' && !IsOperatorChar(str[0]) && str[0] !in "() "
      modifies this`operands, this`operators, this`operatorPushed
      ensures var r := ReadName(lib, old(State()), str);
        (r.Err? ==> err == Some(r.error)) && (r.Ok? ==> err == None && (State(), rest) == r.value)
    {
      var functionName;
      functionName, rest := ReadFunctionName(str);
      if functionName == "" {
        return Some(InvalidOperation), rest;
      }
      err := None;
      if IsConstant(functionName) {
        operatorPushed := false;
        operands := operands + [ConstantValue(lib, functionName)];
      } else {
        operators := operators + [Function(functionName)];
        operatorPushed := true;
      }
    }

    /** The end of `parse` (CreasePatternAnalyzer/Parser.swift:356-367). */
    method Clear(lib: Libm) returns (r: Result<Option<real>, ParseError>)
      modifies this`operands, this`operators
      ensures r == Drain(lib, old(operands), old(operators))
    {
      while |operators| != 0
        invariant Drain(lib, operands, operators) == Drain(lib, old(operands), old(operators))
        decreases |operators|
      {
        var operatorName := operators[|operators| - 1];
        operators := operators[..|operators| - 1];
        var err := Apply(lib, operatorName);
        if err.Some? {
          return Err(err.value);
        }
      }
      var double: Option<real> := None;
      if operands != [] {
        double := Some(operands[|operands| - 1]);
        operands := operands[..|operands| - 1];
      }
      if |operands| != 0 || |operators| != 0 {
        return Err(ParseStackFailure);
      }
      return Ok(double);
    }
  }

  /** `parsedString(from:)` (CreasePatternAnalyzer/Parser.swift:170-204) on a fresh parser. */
  method ParsedString(lib: Libm, format: real -> string, s: string) returns (success: bool, text: string, value: real)
    ensures (success, text, value) == Report(format, Evaluate(lib, OnePop, s))
  {
    var parser := new Parser();
    var r := parser.Parse(lib, s);
    success, text, value := Report(format, r).0, Report(format, r).1, Report(format, r).2;
  }

  // Properties of the parse.

  /** A blank expression leaves both stacks as they were. */
  lemma {:induction false} SpacesChangeNothing(lib: Libm, reduction: Reduction, st: Machine, s: string)
    requires forall i | 0 <= i < |s| :: s[i] == ' '
    ensures Run(lib, reduction, st, s) == Drain(lib, st.operands, st.operators)
    decreases |s|
  {
    if s != [] {
      SpacesChangeNothing(lib, reduction, st, s[1..]);
    }
  }

  /** An expression of spaces only has no value: `parsedString` reports
      "Empty string", while the empty expression is an error of its own. */
  lemma BlankExpression(lib: Libm, reduction: Reduction, format: real -> string, s: string)
    requires forall i | 0 <= i < |s| :: s[i] == ' '
    ensures s == [] ==> Evaluate(lib, reduction, s) == Err(EmptyExpression)
    ensures s != [] ==> Evaluate(lib, reduction, s) == Ok(None)
    ensures s != [] ==> Report(format, Evaluate(lib, reduction, s)) == (false, "Empty string", 0.0)
  {
    if s != [] {
      SpacesChangeNothing(lib, reduction, Start, s);
    }
  }

  /** A `)` with no `(` before it is unbalanced. */
  lemma LoneCloseParenthesis(lib: Libm, reduction: Reduction, t: string)
    ensures Evaluate(lib, reduction, ")" + t) == Err(UnbalancedParenthesis)
  {
    var s := ")" + t;
    assert s[0] == ')' && s[1..] == t;
  }

  /** A number that cannot be followed by more of itself. */
  predicate EndsNumber(t: string) {
    t == [] || !(IsDigit(t[0]) || t[0] == '.' || t[0] == 'e' || t[0] == 'E')
  }

  lemma DigitsStep(lib: Libm, reduction: Reduction, st: Machine, ds: string, t: string)
    requires ds != [] && AllDigits(ds) && EndsNumber(t)
    ensures Step(lib, reduction, st, ds + t) == Ok((st.(operands := st.operands + [IntValue(ds) as real], operatorPushed := false), t))
  {
    ScanInteger(ds, t);
    assert (ds + t)[0] == ds[0];
  }

  lemma RunStep(lib: Libm, reduction: Reduction, st: Machine, str: string, next: Machine, rest: string)
    requires str != [] && Step(lib, reduction, st, str) == Ok((next, rest))
    ensures Run(lib, reduction, st, str) == Run(lib, reduction, next, rest)
  {
  }

  /** The digits from position `i` to the end of `s` are one number. */
  lemma DigitsAt(lib: Libm, reduction: Reduction, st: Machine, s: string, i: nat, next: Machine)
    requires i < |s| && AllDigits(s[i..])
    requires next == Machine(st.operands + [IntValue(s[i..]) as real], st.operators, false)
    ensures Run(lib, reduction, st, s[i..]) == Run(lib, reduction, next, s[|s|..])
  {
    DigitsStep(lib, reduction, st, s[i..], []);
    assert s[i..] + [] == s[i..] && s[|s|..] == [];
    RunStep(lib, reduction, st, s[i..], next, []);
  }

  /** The digit `a` at position `i`, with no more of the number after it, is pushed. */
  lemma DigitAt(lib: Libm, reduction: Reduction, st: Machine, s: string, i: nat, a: nat, next: Machine)
    requires i < |s| && a <= 9 && s[i] == DigitChar(a) && EndsNumber(s[i + 1..])
    requires next == Machine(st.operands + [a as real], st.operators, false)
    ensures Run(lib, reduction, st, s[i..]) == Run(lib, reduction, next, s[i + 1..])
  {
    var ds := [DigitChar(a)];
    assert AllDigits(ds);
    assert IntValue(ds) == a by {
      assert ds[..0] == [];
    }
    assert s[i..] == ds + s[i + 1..];
    DigitsStep(lib, reduction, st, ds, s[i + 1..]);
    RunStep(lib, reduction, st, s[i..], next, s[i + 1..]);
  }

  /** The same for a digit that starts the input. */
  lemma DigitFirst(lib: Libm, reduction: Reduction, st: Machine, s: string, a: nat, next: Machine)
    requires s != [] && a <= 9 && s[0] == DigitChar(a) && EndsNumber(s[1..])
    requires next == Machine(st.operands + [a as real], st.operators, false)
    ensures Run(lib, reduction, st, s) == Run(lib, reduction, next, s[1..])
  {
    var ds := [DigitChar(a)];
    assert AllDigits(ds);
    assert IntValue(ds) == a by {
      assert ds[..0] == [];
    }
    assert s == ds + s[1..];
    DigitsStep(lib, reduction, st, ds, s[1..]);
    RunStep(lib, reduction, st, s, next, s[1..]);
  }

  /** The operator character at position `i` is pushed as `next`. */
  lemma OperatorAt(lib: Libm, reduction: Reduction, st: Machine, s: string, i: nat, next: Machine)
    requires i < |s| && IsOperatorChar(s[i]) && !(s[i] == '-' && st.operatorPushed)
    requires PushOnto(lib, reduction, st, OperatorOf(s[i])) == Ok(next)
    ensures Run(lib, reduction, st, s[i..]) == Run(lib, reduction, Machine(next.operands, next.operators, true), s[i + 1..])
  {
    assert s[i..][0] == s[i] && s[i..][1..] == s[i + 1..];
    RunStep(lib, reduction, st, s[i..], Machine(next.operands, next.operators, true), s[i + 1..]);
  }

  /** An operator character at position `i` followed by the digit `a` pushes
      the operator, then the digit. */
  lemma OperatorDigitAt(lib: Libm, reduction: Reduction, st: Machine, s: string, i: nat, pushed: Machine, a: nat)
    requires i + 1 < |s| && IsOperatorChar(s[i]) && !(s[i] == '-' && st.operatorPushed)
    requires PushOnto(lib, reduction, st, OperatorOf(s[i])) == Ok(pushed)
    requires a <= 9 && s[i + 1] == DigitChar(a) && EndsNumber(s[i + 2..])
    ensures Run(lib, reduction, st, s[i..]) ==
      Run(lib, reduction, Machine(pushed.operands + [a as real], pushed.operators, false), s[i + 2..])
  {
    var mid := Machine(pushed.operands, pushed.operators, true);
    OperatorAt(lib, reduction, st, s, i, pushed);
    DigitAt(lib, reduction, mid, s, i + 1, a, Machine(pushed.operands + [a as real], pushed.operators, false));
  }

  /** The same when the digit ends the input: what is left is drained. */
  lemma OperatorDigitEnd(lib: Libm, reduction: Reduction, st: Machine, s: string, i: nat, pushed: Machine, a: nat)
    requires i + 2 == |s| && IsOperatorChar(s[i]) && !(s[i] == '-' && st.operatorPushed)
    requires PushOnto(lib, reduction, st, OperatorOf(s[i])) == Ok(pushed)
    requires a <= 9 && s[i + 1] == DigitChar(a)
    ensures Run(lib, reduction, st, s[i..]) == Drain(lib, pushed.operands + [a as real], pushed.operators)
  {
    assert s[i + 2..] == [];
    OperatorDigitAt(lib, reduction, st, s, i, pushed, a);
    EndAt(lib, reduction, Machine(pushed.operands + [a as real], pushed.operators, false), s);
  }

  /** At the end of the input the stacks are drained. */
  lemma EndAt(lib: Libm, reduction: Reduction, st: Machine, s: string)
    ensures Run(lib, reduction, st, s[|s|..]) == Drain(lib, st.operands, st.operators)
  {
    assert s[|s|..] == [];
  }

  lemma ApplyBinary(lib: Libm, name: Operator, xs: seq<real>, u: real, v: real)
    requires IsBinary(name)
    ensures ApplyTo(lib, name, xs + [u, v]) == Ok(xs + [BinaryResult(lib, name, u, v)])
  {
    var ys := xs + [u, v];
    assert ys[..|ys| - 2] == xs && ys[|ys| - 2] == u && ys[|ys| - 1] == v;
  }

  lemma DrainStep(lib: Libm, xs: seq<real>, ops: seq<Operator>, name: Operator, ys: seq<real>)
    requires ApplyTo(lib, name, xs) == Ok(ys)
    ensures Drain(lib, xs, ops + [name]) == Drain(lib, ys, ops)
  {
    assert (ops + [name])[..|ops|] == ops;
  }

  /** A run of digits alone is read as the integer it spells. */
  lemma NumberAlone(lib: Libm, reduction: Reduction, ds: string)
    requires ds != [] && AllDigits(ds)
    ensures Evaluate(lib, reduction, ds) == Ok(Some(IntValue(ds) as real))
  {
    DigitsStep(lib, reduction, Start, ds, []);
    assert ds + [] == ds;
    var next := Machine([IntValue(ds) as real], [], false);
    assert Start.operands + [IntValue(ds) as real] == [IntValue(ds) as real];
    assert Start.(operands := Start.operands + [IntValue(ds) as real], operatorPushed := false) == next;
    assert Step(lib, reduction, Start, ds) == Ok((next, []));
    assert Run(lib, reduction, next, []) == Ok(Some(IntValue(ds) as real));
  }

  /** A leading `-` is unary minus: it negates the number after it. */
  lemma NegatedNumber(lib: Libm, reduction: Reduction, s: string)
    requires |s| >= 2 && s[0] == '-' && AllDigits(s[1..])
    ensures Evaluate(lib, reduction, s) == Ok(Some(-(IntValue(s[1..]) as real)))
  {
    var v := IntValue(s[1..]) as real;
    LeadingMinus(lib, reduction, s);
    DigitsAt(lib, reduction, Machine([], [Negate], true), s, 1, Machine([v], [Negate], false));
    EndAt(lib, reduction, Machine([v], [Negate], false), s);
    DrainUnary(lib, Negate, v);
  }

  /** A `-` at the start pushes unary minus. */
  lemma LeadingMinus(lib: Libm, reduction: Reduction, s: string)
    requires s != [] && s[0] == '-'
    ensures Run(lib, reduction, Start, s) == Run(lib, reduction, Machine([], [Negate], true), s[1..])
  {
    assert [] + [Negate] == [Negate];
    assert PushOnto(lib, reduction, Start, Negate) == Ok(Machine([], [Negate], true));
    RunStep(lib, reduction, Start, s, Machine([], [Negate], true), s[1..]);
  }

  lemma DrainUnary(lib: Libm, name: Operator, v: real)
    requires IsUnary(name)
    ensures Drain(lib, [v], [name]) == Ok(Some(UnaryResult(lib, name, v)))
  {
    var ys := [v];
    assert ys[..|ys| - 1] == [] && ys[|ys| - 1] == v;
    assert [] + [UnaryResult(lib, name, v)] == [UnaryResult(lib, name, v)];
    assert ApplyTo(lib, name, [v]) == Ok([UnaryResult(lib, name, v)]);
    assert [] + [name] == [name];
    DrainStep(lib, [v], [], name, [UnaryResult(lib, name, v)]);
  }

  /** The first operator goes onto the empty stack. */
  lemma PushFirst(lib: Libm, reduction: Reduction, x: real, op: Operator)
    ensures PushOnto(lib, reduction, Machine([x], [], false), op) == Ok(Machine([x], [op], false))
  {
    assert [] + [op] == [op];
  }

  /** `a op b` at the start of `s` pushes both numbers and the operator,
      whichever reduction rule applies. */
  lemma RunFirstPair(lib: Libm, reduction: Reduction, s: string, a: nat, op: char, b: nat)
    requires IsOperatorChar(op) && a <= 9 && b <= 9
    requires |s| >= 3 && s[0] == DigitChar(a) && s[1] == op && s[2] == DigitChar(b) && EndsNumber(s[3..])
    ensures Run(lib, reduction, Start, s) ==
      Run(lib, reduction, Machine([a as real, b as real], [OperatorOf(op)], false), s[3..])
  {
    var x, y, o := a as real, b as real, OperatorOf(op);
    DigitFirst(lib, reduction, Start, s, a, Machine([x], [], false));
    PushFirst(lib, reduction, x, o);
    assert [x] + [y] == [x, y];
    OperatorDigitAt(lib, reduction, Machine([x], [], false), s, 1, Machine([x], [o], false), b);
  }

  /** The binary operator on top of the stack yields to `op` and is applied. */
  lemma ReduceOne(lib: Libm, name: Operator, op: Operator, xs: seq<real>, u: real, v: real)
    requires IsBinary(name) && Yields(name, op)
    ensures ReduceFor(lib, xs + [u, v], [name], op) == Ok((xs + [BinaryResult(lib, name, u, v)], []))
  {
    ApplyBinary(lib, name, xs, u, v);
    assert [name][..0] == [];
  }

  /** With the corrected rule a binary operator that yields is applied before `op` is pushed. */
  lemma PushReduces(lib: Libm, name: Operator, op: Operator, x: real, y: real)
    requires IsBinary(name) && Yields(name, op)
    ensures PushOnto(lib, ShuntingYard, Machine([x, y], [name], false), op) == Ok(Machine([BinaryResult(lib, name, x, y)], [op], false))
  {
    var xy := BinaryResult(lib, name, x, y);
    ReduceOne(lib, name, op, [], x, y);
    assert [] + [x, y] == [x, y] && [] + [xy] == [xy] && [] + [op] == [op];
  }

  /** As written, an operator of the same precedence goes on top of the one there. */
  lemma PushEqual(lib: Libm, x: real, y: real, op: Operator)
    ensures PushOnto(lib, OnePop, Machine([x, y], [op], false), op) == Ok(Machine([x, y], [op, op], false))
  {
    assert [op] + [op] == [op, op];
  }

  /** As written, `+` over two `*` applies only the upper one. */
  lemma PushPopsOne(lib: Libm, w: real, x: real, y: real)
    ensures PushOnto(lib, OnePop, Machine([w, x, y], [Times, Times], false), Plus) == Ok(Machine([w, Product(x, y)], [Times, Plus], false))
  {
    var xy := Product(x, y);
    assert CompareOperators(Plus, Times) < 0;
    ApplyBinary(lib, Times, [w], x, y);
    assert [w] + [x, y] == [w, x, y] && [w] + [xy] == [w, xy];
    assert [Times, Times][..1] + [Plus] == [Times, Plus];
  }

  /** One binary operator over two operands. */
  lemma DrainOne(lib: Libm, name: Operator, u: real, v: real)
    requires IsBinary(name)
    ensures Drain(lib, [u, v], [name]) == Ok(Some(BinaryResult(lib, name, u, v)))
  {
    var r := BinaryResult(lib, name, u, v);
    ApplyBinary(lib, name, [], u, v);
    assert [] + [u, v] == [u, v] && [] + [name] == [name] && [] + [r] == [r];
    DrainStep(lib, [u, v], [], name, [r]);
  }

  /** `[a, op, b, op, c]` for three digits. */
  function Chain(a: nat, op: char, b: nat, c: nat): string
    requires a <= 9 && b <= 9 && c <= 9
  {
    [DigitChar(a), op, DigitChar(b), op, DigitChar(c)]
  }

  /** As written, an operator of the same precedence as the one on top is
      pushed over it, so every chain groups to the right: `a - b - c` is
      `a - (b - c)` and `a / b / c` is `a / (b / c)`. */
  lemma ChainGroupsRight(lib: Libm, op: char, a: nat, b: nat, c: nat)
    requires IsOperatorChar(op) && a <= 9 && b <= 9 && c <= 9
    ensures Evaluate(lib, OnePop, Chain(a, op, b, c)) ==
      Ok(Some(BinaryResult(lib, OperatorOf(op), a as real, BinaryResult(lib, OperatorOf(op), b as real, c as real))))
  {
    var s := Chain(a, op, b, c);
    RunFirstPair(lib, OnePop, s, a, op, b);
    ChainTailRight(lib, s, op, a as real, b as real, c);
  }

  lemma ChainTailRight(lib: Libm, s: string, op: char, x: real, y: real, c: nat)
    requires IsOperatorChar(op) && c <= 9 && |s| == 5 && s[3] == op && s[4] == DigitChar(c)
    ensures Run(lib, OnePop, Machine([x, y], [OperatorOf(op)], false), s[3..]) ==
      Ok(Some(BinaryResult(lib, OperatorOf(op), x, BinaryResult(lib, OperatorOf(op), y, c as real))))
  {
    var z, o := c as real, OperatorOf(op);
    PushEqual(lib, x, y, o);
    assert [x, y] + [z] == [x, y, z];
    OperatorDigitEnd(lib, OnePop, Machine([x, y], [o], false), s, 3, Machine([x, y], [o, o], false), c);
    DrainRight(lib, o, x, y, z);
  }

  /** Two stacked copies of a binary operator over three operands apply the upper one first. */
  lemma DrainRight(lib: Libm, name: Operator, x: real, y: real, z: real)
    requires IsBinary(name)
    ensures Drain(lib, [x, y, z], [name, name]) == Ok(Some(BinaryResult(lib, name, x, BinaryResult(lib, name, y, z))))
  {
    var yz := BinaryResult(lib, name, y, z);
    ApplyBinary(lib, name, [x], y, z);
    assert [x] + [y, z] == [x, y, z] && [x] + [yz] == [x, yz] && [name] + [name] == [name, name];
    DrainStep(lib, [x, y, z], [name], name, [x, yz]);
    DrainOne(lib, name, x, yz);
  }

  /** With the corrected rule the same chains group to the left, as arithmetic
      does: `a - b - c` is `(a - b) - c`; only `^` still groups to the right. */
  lemma ChainGroupsLeft(lib: Libm, op: char, a: nat, b: nat, c: nat)
    requires IsOperatorChar(op) && op != '^' && a <= 9 && b <= 9 && c <= 9
    ensures Evaluate(lib, ShuntingYard, Chain(a, op, b, c)) ==
      Ok(Some(BinaryResult(lib, OperatorOf(op), BinaryResult(lib, OperatorOf(op), a as real, b as real), c as real)))
  {
    var s := Chain(a, op, b, c);
    RunFirstPair(lib, ShuntingYard, s, a, op, b);
    ChainTailLeft(lib, s, op, a as real, b as real, c);
  }

  lemma ChainTailLeft(lib: Libm, s: string, op: char, x: real, y: real, c: nat)
    requires IsOperatorChar(op) && op != '^' && c <= 9 && |s| == 5 && s[3] == op && s[4] == DigitChar(c)
    ensures Run(lib, ShuntingYard, Machine([x, y], [OperatorOf(op)], false), s[3..]) ==
      Ok(Some(BinaryResult(lib, OperatorOf(op), BinaryResult(lib, OperatorOf(op), x, y), c as real)))
  {
    var z, o := c as real, OperatorOf(op);
    var xy := BinaryResult(lib, o, x, y);
    PushReduces(lib, o, o, x, y);
    assert [xy] + [z] == [xy, z];
    OperatorDigitEnd(lib, ShuntingYard, Machine([x, y], [o], false), s, 3, Machine([xy], [o], false), c);
    DrainOne(lib, o, xy, z);
  }

  lemma MinusRight(lib: Libm)
    ensures Evaluate(lib, OnePop, "1-2-3") == Ok(Some(2.0))
  {
    ChainGroupsRight(lib, '-', 1, 2, 3);
    assert OperatorOf('-') == Minus;
    assert BinaryResult(lib, Minus, 2.0, 3.0) == -1.0;
    assert BinaryResult(lib, Minus, 1.0, -1.0) == 2.0;
    assert Chain(1, '-', 2, 3) == "1-2-3";
  }

  lemma MinusLeft(lib: Libm)
    ensures Evaluate(lib, ShuntingYard, "1-2-3") == Ok(Some(-4.0))
  {
    ChainGroupsLeft(lib, '-', 1, 2, 3);
    assert OperatorOf('-') == Minus;
    assert BinaryResult(lib, Minus, 1.0, 2.0) == -1.0;
    assert BinaryResult(lib, Minus, -1.0, 3.0) == -4.0;
    assert Chain(1, '-', 2, 3) == "1-2-3";
  }

  lemma DivideRight(lib: Libm)
    ensures Evaluate(lib, OnePop, "8/4/2") == Ok(Some(4.0))
  {
    ChainGroupsRight(lib, '/', 8, 4, 2);
    assert OperatorOf('/') == Divide;
    assert Div(4.0, 2.0) == 2.0;
    assert Div(8.0, 2.0) == 4.0;
    assert Chain(8, '/', 4, 2) == "8/4/2";
  }

  lemma DivideLeft(lib: Libm)
    ensures Evaluate(lib, ShuntingYard, "8/4/2") == Ok(Some(1.0))
  {
    ChainGroupsLeft(lib, '/', 8, 4, 2);
    assert OperatorOf('/') == Divide;
    assert Div(8.0, 4.0) == 2.0;
    assert Div(2.0, 2.0) == 1.0;
    assert Chain(8, '/', 4, 2) == "8/4/2";
  }

  /** "1-2-3" is 2 as written and -4 with the corrected rule; "8/4/2" is 4 and 1. */
  lemma EqualPrecedenceExamples(lib: Libm)
    ensures Evaluate(lib, OnePop, "1-2-3") == Ok(Some(2.0))
    ensures Evaluate(lib, ShuntingYard, "1-2-3") == Ok(Some(-4.0))
    ensures Evaluate(lib, OnePop, "8/4/2") == Ok(Some(4.0))
    ensures Evaluate(lib, ShuntingYard, "8/4/2") == Ok(Some(1.0))
  {
    MinusRight(lib);
    MinusLeft(lib);
    DivideRight(lib);
    DivideLeft(lib);
  }

  /** `a * b * c + d` for four digits. */
  function ProductPlus(a: nat, b: nat, c: nat, d: nat): string
    requires a <= 9 && b <= 9 && c <= 9 && d <= 9
  {
    [DigitChar(a), '*', DigitChar(b), '*', DigitChar(c), '+', DigitChar(d)]
  }

  /** `*` and `+` as the parser applies them. */
  function Product(u: real, v: real): real { u * v }

  function Sum(u: real, v: real): real { u + v }

  /** As written, `+` arriving over two stacked `*` pops only one of them, so
      `a * b * c + d` is computed as `a * (b * c + d)`. */
  lemma OnePopReduction(lib: Libm, a: nat, b: nat, c: nat, d: nat)
    requires a <= 9 && b <= 9 && c <= 9 && d <= 9
    ensures Evaluate(lib, OnePop, ProductPlus(a, b, c, d)) ==
      Ok(Some(Product(a as real, Sum(Product(b as real, c as real), d as real))))
  {
    var s := ProductPlus(a, b, c, d);
    RunFirstPair(lib, OnePop, s, a, '*', b);
    OnePopTimes(lib, s, a as real, b as real, c, d);
  }

  lemma OnePopTimes(lib: Libm, s: string, w: real, x: real, c: nat, d: nat)
    requires c <= 9 && d <= 9 && |s| == 7 && s[3] == '*' && s[4] == DigitChar(c) && s[5] == '+' && s[6] == DigitChar(d)
    ensures Run(lib, OnePop, Machine([w, x], [Times], false), s[3..]) ==
      Ok(Some(Product(w, Sum(Product(x, c as real), d as real))))
  {
    var y := c as real;
    PushEqual(lib, w, x, Times);
    assert [w, x] + [y] == [w, x, y];
    OperatorDigitAt(lib, OnePop, Machine([w, x], [Times], false), s, 3, Machine([w, x], [Times, Times], false), c);
    OnePopPlus(lib, s, w, x, y, d);
  }

  lemma OnePopPlus(lib: Libm, s: string, w: real, x: real, y: real, d: nat)
    requires d <= 9 && |s| == 7 && s[5] == '+' && s[6] == DigitChar(d)
    ensures Run(lib, OnePop, Machine([w, x, y], [Times, Times], false), s[5..]) ==
      Ok(Some(Product(w, Sum(Product(x, y), d as real))))
  {
    var z := d as real;
    var xy := Product(x, y);
    var st := Machine([w, x, y], [Times, Times], false);
    PushPopsOne(lib, w, x, y);
    assert [w, xy] + [z] == [w, xy, z];
    OperatorDigitEnd(lib, OnePop, st, s, 5, Machine([w, xy], [Times, Plus], false), d);
    DrainPlusTimes(lib, w, xy, z);
  }

  lemma DrainPlusTimes(lib: Libm, w: real, v: real, z: real)
    ensures Drain(lib, [w, v, z], [Times, Plus]) == Ok(Some(Product(w, Sum(v, z))))
  {
    var vz := Sum(v, z);
    assert [Times] + [Plus] == [Times, Plus];
    ApplyBinary(lib, Plus, [w], v, z);
    assert [w] + [v, z] == [w, v, z] && [w] + [vz] == [w, vz];
    DrainStep(lib, [w, v, z], [Times], Plus, [w, vz]);
    DrainOne(lib, Times, w, vz);
  }

  /** With the corrected rule `a * b * c + d` is `(a * b) * c + d`. */
  lemma FullReduction(lib: Libm, a: nat, b: nat, c: nat, d: nat)
    requires a <= 9 && b <= 9 && c <= 9 && d <= 9
    ensures Evaluate(lib, ShuntingYard, ProductPlus(a, b, c, d)) ==
      Ok(Some(Sum(Product(Product(a as real, b as real), c as real), d as real)))
  {
    var s := ProductPlus(a, b, c, d);
    RunFirstPair(lib, ShuntingYard, s, a, '*', b);
    FullTimes(lib, s, a as real, b as real, c, d);
  }

  lemma FullTimes(lib: Libm, s: string, w: real, x: real, c: nat, d: nat)
    requires c <= 9 && d <= 9 && |s| == 7 && s[3] == '*' && s[4] == DigitChar(c) && s[5] == '+' && s[6] == DigitChar(d)
    ensures Run(lib, ShuntingYard, Machine([w, x], [Times], false), s[3..]) ==
      Ok(Some(Sum(Product(Product(w, x), c as real), d as real)))
  {
    var y := c as real;
    var wx := Product(w, x);
    PushReduces(lib, Times, Times, w, x);
    assert [wx] + [y] == [wx, y];
    OperatorDigitAt(lib, ShuntingYard, Machine([w, x], [Times], false), s, 3, Machine([wx], [Times], false), c);
    FullPlus(lib, s, wx, y, d);
  }

  lemma FullPlus(lib: Libm, s: string, v: real, y: real, d: nat)
    requires d <= 9 && |s| == 7 && s[5] == '+' && s[6] == DigitChar(d)
    ensures Run(lib, ShuntingYard, Machine([v, y], [Times], false), s[5..]) ==
      Ok(Some(Sum(Product(v, y), d as real)))
  {
    var z := d as real;
    var vy := Product(v, y);
    var st := Machine([v, y], [Times], false);
    PushReduces(lib, Times, Plus, v, y);
    assert [vy] + [z] == [vy, z];
    OperatorDigitEnd(lib, ShuntingYard, st, s, 5, Machine([vy], [Plus], false), d);
    DrainOne(lib, Plus, vy, z);
    assert BinaryResult(lib, Plus, vy, z) == Sum(vy, z);
  }

  /** "2*3*4+1" is 26 as written and 25 with the corrected rule. */
  lemma ReductionExamples(lib: Libm)
    ensures Evaluate(lib, OnePop, "2*3*4+1") == Ok(Some(26.0))
    ensures Evaluate(lib, ShuntingYard, "2*3*4+1") == Ok(Some(25.0))
  {
    assert ProductPlus(2, 3, 4, 1) == "2*3*4+1";
    OnePopReduction(lib, 2, 3, 4, 1);
    FullReduction(lib, 2, 3, 4, 1);
  }

  /** As written, a character that starts neither a number, an operator, a
      parenthesis, a space nor a name is put back, an empty name is pushed
      and the same input is read again: the loop never advances. */
  lemma UnknownCharacterStalls(lib: Libm, st: Machine, c: char, t: string)
    requires !IsDigit(c) && c != '.' && !IsOperatorChar(c) && c !in "() " && !IsAlphanumeric(c)
    ensures NameStep(lib, st, [c] + t) == (st.(operators := st.operators + [Function("")], operatorPushed := true), [c] + t)
  {
  }

  /** The model rejects such a character instead, as an invalid operation. */
  lemma UnknownCharacterRejected(lib: Libm, reduction: Reduction, st: Machine, c: char, t: string)
    requires !IsDigit(c) && c != '.' && !IsOperatorChar(c) && c !in "() " && !IsAlphanumeric(c)
    ensures Step(lib, reduction, st, [c] + t) == Err(InvalidOperation)
    ensures Run(lib, reduction, st, [c] + t) == Err(InvalidOperation)
  {
  }
}
