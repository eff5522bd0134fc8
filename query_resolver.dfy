/**
 * The boolean query resolver: a shunting-yard pass that turns a lexeme list
 * (terms, `AND`, `OR`, `NOT`, `(`, `)`) into postfix, validating operator
 * placement as it goes, and a stack machine that builds an n-ary expression
 * tree from the postfix stream, flattening chains of the same binary operator.
 *
 * Each pass is specified by a left fold (`ShuntAll`, `BuildAll`) and
 * implemented by a method with explicit stacks that is proved equal to it.
 * What the folds mean is proved in QueryResolverProofs.
 */
module BooleanQuery {
  import opened Wrappers

  datatype Operator = And | Or | Not

  /** `string | Expression`: a leaf term or an operator node with its operands. */
  datatype Node = Term(term: string) | Expr(op: Operator, operands: seq<Node>)

  datatype ParseError =
    | MissingOpenParen
    | MissingCloseParen
    | EndsUnexpectedly
    | MissingLeftOperand(binary: Operator)
    | NotMisplaced
    | NotMissingOperand
    | BinaryMissingOperands(binary: Operator)
    | InvalidRoot

  function OperatorName(op: Operator): string {
    match op
    case And => "AND"
    case Or => "OR"
    case Not => "NOT"
  }

  /** The text of the error thrown for each failure. */
  function Message(e: ParseError): string {
    match e
    case MissingOpenParen => "Mismatched parentheses: missing '('"
    case MissingCloseParen => "Mismatched parentheses: missing ')'"
    case EndsUnexpectedly => "Expression ends unexpectedly (missing operand)"
    case MissingLeftOperand(op) => OperatorName(op) + " cannot appear here (missing left operand)"
    case NotMisplaced => "NOT must appear where an operand is expected"
    case NotMissingOperand => "NOT missing operand"
    case BinaryMissingOperands(op) => OperatorName(op) + " missing operand(s)"
    case InvalidRoot => "Invalid expression (did not reduce to one root)"
  }

  /** `isOperator`: only the exact upper-case keywords are operators. */
  function AsOperator(s: string): (r: Option<Operator>)
    ensures r.Some? ==> OperatorName(r.value) == s
    ensures r.None? ==> s != "AND" && s != "OR" && s != "NOT"
  {
    if s == "AND" then Some(And)
    else if s == "OR" then Some(Or)
    else if s == "NOT" then Some(Not)
    else None
  }

  predicate IsOperator(s: string) {
    AsOperator(s).Some?
  }

  /** A lexeme that becomes a leaf: neither a parenthesis nor an operator. */
  predicate IsOperand(s: string) {
    s != "(" && s != ")" && !IsOperator(s)
  }

  function Precedence(op: Operator): nat {
    match op
    case Not => 3
    case And => 2
    case Or => 1
  }

  predicate IsRightAssociative(op: Operator) {
    op == Not
  }

  /** Whether operator `top` on the stack leaves before `cur` is pushed. */
  predicate ShouldPop(top: Operator, cur: Operator) {
    Precedence(top) > Precedence(cur) || (Precedence(top) == Precedence(cur) && !IsRightAssociative(cur))
  }

  /** NOT never pops anything; NOT leaves before AND/OR; AND and OR leave before an equal operator. */
  lemma PrecedenceOrder(top: Operator, cur: Operator)
    ensures ShouldPop(top, cur) <==> cur != Not && !(top == Or && cur == And)
  {
  }

  // ---------------------------------------------------------------------
  // toPostfix, as a fold

  /** The state of `toPostfix` between lexemes. */
  datatype Shunt = Shunt(output: seq<string>, ops: seq<string>, expectOperand: bool)

  /** The inner `while (isOperator(top = operators.at(-1)))` loop. */
  function PopHigher(output: seq<string>, ops: seq<string>, cur: Operator): (seq<string>, seq<string>)
    decreases |ops|
  {
    if |ops| == 0 then (output, ops)
    else match AsOperator(ops[|ops| - 1])
      case None => (output, ops)
      case Some(top) =>
        if ShouldPop(top, cur) then PopHigher(output + [ops[|ops| - 1]], ops[..|ops| - 1], cur)
        else (output, ops)
  }

  /** The loop that moves operators to the output until the nearest `(`. */
  function PopToOpen(output: seq<string>, ops: seq<string>): (seq<string>, seq<string>)
    decreases |ops|
  {
    if |ops| == 0 || ops[|ops| - 1] == "(" then (output, ops)
    else PopToOpen(output + [ops[|ops| - 1]], ops[..|ops| - 1])
  }

  /** One iteration of the `for (const part of lexemes)` loop. */
  function ShuntStep(st: Shunt, part: string): Result<Shunt, ParseError> {
    if part == "(" then
      Ok(Shunt(st.output, st.ops + ["("], true))
    else if part == ")" then
      if |st.ops| == 0 then Err(MissingOpenParen)
      else if st.expectOperand then Err(EndsUnexpectedly)
      else
        var (output, ops) := PopToOpen(st.output, st.ops);
        if |ops| == 0 then Err(MissingOpenParen)
        else Ok(Shunt(output, ops[..|ops| - 1], false))
    else match AsOperator(part)
      case Some(op) =>
        if op == Not && !st.expectOperand then Err(NotMisplaced)
        else if op != Not && st.expectOperand then Err(MissingLeftOperand(op))
        else
          var (output, ops) := PopHigher(st.output, st.ops, op);
          Ok(Shunt(output, ops + [part], true))
      case None =>
        Ok(Shunt(st.output + [part], st.ops, false))
  }

  function ShuntAll(lexemes: seq<string>): Result<Shunt, ParseError> {
    if lexemes == [] then Ok(Shunt([], [], true))
    else match ShuntAll(lexemes[..|lexemes| - 1])
      case Err(e) => Err(e)
      case Ok(st) => ShuntStep(st, lexemes[|lexemes| - 1])
  }

  /** The final `while (operators.length)` loop. */
  function Drain(output: seq<string>, ops: seq<string>): Result<seq<string>, ParseError>
    decreases |ops|
  {
    if |ops| == 0 then Ok(output)
    else if ops[|ops| - 1] == "(" then Err(MissingCloseParen)
    else Drain(output + [ops[|ops| - 1]], ops[..|ops| - 1])
  }

  function Postfix(lexemes: seq<string>): Result<seq<string>, ParseError> {
    match ShuntAll(lexemes)
    case Err(e) => Err(e)
    case Ok(st) =>
      if st.expectOperand then Err(EndsUnexpectedly) else Drain(st.output, st.ops)
  }

  // ---------------------------------------------------------------------
  // buildExpressionFromPostfix, as a fold

  /** `flattenInto`: the operands a child contributes to a node with operator `op`. */
  function FlattenInto(op: Operator, child: Node): seq<Node> {
    if child.Expr? && child.op == op && op != Not then child.operands else [child]
  }

  /** `!operand`: an absent operand or the empty string, JavaScript's falsy leaf. */
  predicate Falsy(n: Node) {
    n == Term("")
  }

  function BuildStep(stack: seq<Node>, part: string): Result<seq<Node>, ParseError> {
    match AsOperator(part)
    case None => Ok(stack + [Term(part)])
    case Some(op) =>
      if op == Not then
        if |stack| == 0 || Falsy(stack[|stack| - 1]) then Err(NotMissingOperand)
        else Ok(stack[..|stack| - 1] + [Expr(Not, [stack[|stack| - 1]])])
      else if |stack| < 2 || Falsy(stack[|stack| - 1]) || Falsy(stack[|stack| - 2]) then
        Err(BinaryMissingOperands(op))
      else
        var right := stack[|stack| - 1];
        var left := stack[|stack| - 2];
        Ok(stack[..|stack| - 2] + [Expr(op, FlattenInto(op, left) + FlattenInto(op, right))])
  }

  function BuildAll(postfix: seq<string>): Result<seq<Node>, ParseError> {
    if postfix == [] then Ok([])
    else match BuildAll(postfix[..|postfix| - 1])
      case Err(e) => Err(e)
      case Ok(stack) => BuildStep(stack, postfix[|postfix| - 1])
  }

  /** The check after the loop: one root, and a bare term becomes `AND{[term]}`. */
  function Root(stack: seq<Node>): Result<Node, ParseError> {
    if |stack| != 1 then Err(InvalidRoot)
    else match stack[0]
      case Term(t) => Ok(Expr(And, [Term(t)]))
      case Expr(_, _) => Ok(stack[0])
  }

  function BuildExpression(postfix: seq<string>): Result<Node, ParseError> {
    match BuildAll(postfix)
    case Err(e) => Err(e)
    case Ok(stack) => Root(stack)
  }

  function Resolve(lexemes: seq<string>): Result<Node, ParseError> {
    match Postfix(lexemes)
    case Err(e) => Err(e)
    case Ok(postfix) => BuildExpression(postfix)
  }

  // ---------------------------------------------------------------------
  // A failure at some prefix is the failure of the whole input.

  lemma {:induction false} ShuntErrPersists(lexemes: seq<string>, i: nat, e: ParseError)
    requires i <= |lexemes| && ShuntAll(lexemes[..i]) == Err(e)
    ensures ShuntAll(lexemes) == Err(e)
    decreases |lexemes| - i
  {
    if i < |lexemes| {
      assert lexemes[..i + 1][..i] == lexemes[..i];
      ShuntErrPersists(lexemes, i + 1, e);
    } else {
      assert lexemes[..i] == lexemes;
    }
  }

  lemma {:induction false} BuildErrPersists(postfix: seq<string>, i: nat, e: ParseError)
    requires i <= |postfix| && BuildAll(postfix[..i]) == Err(e)
    ensures BuildAll(postfix) == Err(e)
    decreases |postfix| - i
  {
    if i < |postfix| {
      assert postfix[..i + 1][..i] == postfix[..i];
      BuildErrPersists(postfix, i + 1, e);
    } else {
      assert postfix[..i] == postfix;
    }
  }

  // ---------------------------------------------------------------------
  // The imperative passes

  /** `toPostfix`, with the `output`/`operators` stacks and the `expectOperand` flag. */
  method ToPostfix(lexemes: seq<string>) returns (r: Result<seq<string>, ParseError>)
    ensures r == Postfix(lexemes)
  {
    var output: seq<string> := [];
    var operators: seq<string> := [];
    var expectOperand := true;
    for i := 0 to |lexemes|
      invariant ShuntAll(lexemes[..i]) == Ok(Shunt(output, operators, expectOperand))
    {
      assert lexemes[..i + 1][..i] == lexemes[..i];
      var part := lexemes[i];
      if part == "(" {
        operators := operators + [part];
        expectOperand := true;
        continue;
      }
      if part == ")" {
        if |operators| == 0 {
          r := Err(MissingOpenParen);
          ShuntErrPersists(lexemes, i + 1, MissingOpenParen);
          return;
        }
        if expectOperand {
          r := Err(EndsUnexpectedly);
          ShuntErrPersists(lexemes, i + 1, EndsUnexpectedly);
          return;
        }
        ghost var popped := PopToOpen(output, operators);
        while |operators| > 0 && operators[|operators| - 1] != "("
          invariant PopToOpen(output, operators) == popped
          decreases |operators|
        {
          output := output + [operators[|operators| - 1]];
          operators := operators[..|operators| - 1];
        }
        if |operators| == 0 {
          r := Err(MissingOpenParen);
          ShuntErrPersists(lexemes, i + 1, MissingOpenParen);
          return;
        }
        operators := operators[..|operators| - 1];
        expectOperand := false;
        continue;
      }
      var asOp := AsOperator(part);
      if asOp.Some? {
        var op := asOp.value;
        if op == Not {
          if !expectOperand {
            r := Err(NotMisplaced);
            ShuntErrPersists(lexemes, i + 1, NotMisplaced);
            return;
          }
        } else {
          if expectOperand {
            r := Err(MissingLeftOperand(op));
            ShuntErrPersists(lexemes, i + 1, MissingLeftOperand(op));
            return;
          }
          expectOperand := true;
        }
        ghost var popped := PopHigher(output, operators, op);
        while |operators| > 0 && IsOperator(operators[|operators| - 1])
          invariant PopHigher(output, operators, op) == popped
          decreases |operators|
        {
          var top := AsOperator(operators[|operators| - 1]).value;
          if !ShouldPop(top, op) {
            break;
          }
          output := output + [operators[|operators| - 1]];
          operators := operators[..|operators| - 1];
        }
        operators := operators + [part];
        continue;
      }
      output := output + [part];
      expectOperand := false;
    }
    assert lexemes[..|lexemes|] == lexemes;
    if expectOperand {
      return Err(EndsUnexpectedly);
    }
    ghost var drained := Drain(output, operators);
    while |operators| > 0
      invariant Drain(output, operators) == drained
      decreases |operators|
    {
      var top := operators[|operators| - 1];
      operators := operators[..|operators| - 1];
      if top == "(" {
        return Err(MissingCloseParen);
      }
      output := output + [top];
    }
    r := Ok(output);
  }

  /** `buildExpressionFromPostfix`, with its explicit operand stack. */
  method BuildExpressionFromPostfix(postfix: seq<string>) returns (r: Result<Node, ParseError>)
    ensures r == BuildExpression(postfix)
  {
    var stack: seq<Node> := [];
    for i := 0 to |postfix|
      invariant BuildAll(postfix[..i]) == Ok(stack)
    {
      assert postfix[..i + 1][..i] == postfix[..i];
      var part := postfix[i];
      var asOp := AsOperator(part);
      if asOp.None? {
        stack := stack + [Term(part)];
        continue;
      }
      var op := asOp.value;
      if op == Not {
        if |stack| == 0 || Falsy(stack[|stack| - 1]) {
          r := Err(NotMissingOperand);
          BuildErrPersists(postfix, i + 1, NotMissingOperand);
          return;
        }
        var operand := stack[|stack| - 1];
        stack := stack[..|stack| - 1] + [Expr(Not, [operand])];
        continue;
      }
      if |stack| < 2 || Falsy(stack[|stack| - 1]) || Falsy(stack[|stack| - 2]) {
        r := Err(BinaryMissingOperands(op));
        BuildErrPersists(postfix, i + 1, BinaryMissingOperands(op));
        return;
      }
      var right := stack[|stack| - 1];
      var left := stack[|stack| - 2];
      var operands := FlattenInto(op, left);
      operands := operands + FlattenInto(op, right);
      stack := stack[..|stack| - 2] + [Expr(op, operands)];
    }
    assert postfix[..|postfix|] == postfix;
    if |stack| != 1 {
      return Err(InvalidRoot);
    }
    var root := stack[0];
    if root.Term? {
      return Ok(Expr(And, [root]));
    }
    r := Ok(root);
  }

  /** `resolveBooleanQuery`. */
  method ResolveBooleanQuery(lexemes: seq<string>) returns (r: Result<Node, ParseError>)
    ensures r == Resolve(lexemes)
  {
    var postfix := ToPostfix(lexemes);
    if postfix.Err? {
      return Err(postfix.error);
    }
    r := BuildExpressionFromPostfix(postfix.value);
  }
}
