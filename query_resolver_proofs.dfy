/**
 * What the boolean query resolver guarantees.
 *
 *  - Placement: `toPostfix` fails exactly when, and with the same error as, a
 *    left-to-right placement scan that only tracks whether an operand is
 *    expected, the parenthesis depth and whether an operator occurred at depth 0.
 *  - Well-formed postfix: when `toPostfix` succeeds its output is a valid
 *    postfix program whose final stack height is 1 plus the number of
 *    juxtaposed operands (`a b`, `a (b)`), which `toPostfix` does not reject.
 *  - Hence, for non-empty terms, the defensive errors of the tree builder
 *    never fire, and the tree builder rejects exactly the juxtapositions.
 *  - Shape: NOT nodes have one operand, AND/OR nodes at least two and no
 *    direct child with their own operator; leaves keep the input's term order.
 */
module QueryResolverProofs {
  import opened Wrappers
  import opened BooleanQuery

  // ---------------------------------------------------------------------
  // Counting and filtering helpers

  function CountOpen(ops: seq<string>): nat {
    if ops == [] then 0
    else CountOpen(ops[..|ops| - 1]) + (if ops[|ops| - 1] == "(" then 1 else 0)
  }

  /** The number of binary operators (AND, OR) on an operator stack. */
  function Binaries(ops: seq<string>): nat {
    if ops == [] then 0
    else Binaries(ops[..|ops| - 1]) + (if ops[|ops| - 1] == "AND" || ops[|ops| - 1] == "OR" then 1 else 0)
  }

  /** The lexemes of a postfix stream that become leaves. */
  function NonOperators(xs: seq<string>): seq<string> {
    if xs == [] then []
    else NonOperators(xs[..|xs| - 1]) + (if IsOperator(xs[|xs| - 1]) then [] else [xs[|xs| - 1]])
  }

  /** The term lexemes of a query, in order. */
  function Operands(xs: seq<string>): seq<string> {
    if xs == [] then []
    else Operands(xs[..|xs| - 1]) + (if IsOperand(xs[|xs| - 1]) then [xs[|xs| - 1]] else [])
  }

  /** Stack height after one postfix item, or None when an operator lacks operands. */
  function RpnStep(h: nat, x: string): Option<nat> {
    match AsOperator(x)
    case None => Some(h + 1)
    case Some(op) =>
      if op == Not then (if h >= 1 then Some(h) else None)
      else if h >= 2 then Some(h - 1) else None
  }

  function RpnHeight(xs: seq<string>): Option<nat> {
    if xs == [] then Some(0)
    else match RpnHeight(xs[..|xs| - 1])
      case None => None
      case Some(h) => RpnStep(h, xs[|xs| - 1])
  }

  lemma {:induction false} CountOpenZero(s: seq<string>)
    ensures CountOpen(s) == 0 <==> forall k :: 0 <= k < |s| ==> s[k] != "("
  {
    if s != [] {
      CountOpenZero(s[..|s| - 1]);
      if CountOpen(s) == 0 {
        forall k | 0 <= k < |s| ensures s[k] != "(" {
          if k < |s| - 1 { assert s[k] == s[..|s| - 1][k]; }
        }
      } else if s[|s| - 1] != "(" {
        var k :| 0 <= k < |s| - 1 && s[..|s| - 1][k] == "(";
        assert s[k] == "(";
      }
    }
  }

  // ---------------------------------------------------------------------
  // The placement scan: the independent reference for toPostfix's errors

  /**
   * What a reader tracks to decide whether a lexeme is placed correctly:
   * whether an operand is expected, the open-parenthesis depth, whether an
   * operator has appeared outside all parentheses, and how many operands or
   * groups followed an operand directly.
   */
  datatype Placement = Placement(expectOperand: bool, depth: nat, sawTopOperator: bool, juxtaposed: nat)

  function PlaceStep(p: Placement, part: string): Result<Placement, ParseError> {
    var jux := p.juxtaposed + (if p.expectOperand then 0 else 1);
    if part == "(" then
      Ok(Placement(true, p.depth + 1, p.sawTopOperator, jux))
    else if part == ")" then
      if p.depth == 0 && !p.sawTopOperator then Err(MissingOpenParen)
      else if p.expectOperand then Err(EndsUnexpectedly)
      else if p.depth == 0 then Err(MissingOpenParen)
      else Ok(Placement(false, p.depth - 1, p.sawTopOperator, p.juxtaposed))
    else match AsOperator(part)
      case Some(op) =>
        if op == Not && !p.expectOperand then Err(NotMisplaced)
        else if op != Not && p.expectOperand then Err(MissingLeftOperand(op))
        else Ok(Placement(true, p.depth, p.sawTopOperator || p.depth == 0, p.juxtaposed))
      case None =>
        Ok(Placement(false, p.depth, p.sawTopOperator, jux))
  }

  function PlaceAll(lexemes: seq<string>): Result<Placement, ParseError> {
    if lexemes == [] then Ok(Placement(true, 0, false, 0))
    else match PlaceAll(lexemes[..|lexemes| - 1])
      case Err(e) => Err(e)
      case Ok(p) => PlaceStep(p, lexemes[|lexemes| - 1])
  }

  /** The placement verdict: an error, or the number of juxtapositions. */
  function PlacementCheck(lexemes: seq<string>): Result<nat, ParseError> {
    match PlaceAll(lexemes)
    case Err(e) => Err(e)
    case Ok(p) =>
      if p.expectOperand then Err(EndsUnexpectedly)
      else if p.depth > 0 then Err(MissingCloseParen)
      else Ok(p.juxtaposed)
  }

  // ---------------------------------------------------------------------
  // The shunting-yard invariant

  ghost predicate OpsOk(ops: seq<string>) {
    forall k :: 0 <= k < |ops| ==> ops[k] == "(" || IsOperator(ops[k])
  }

  /**
   * The operator stack holds only `(` and operators, one `(` per open group;
   * it is empty at depth 0 until an operator appears there, after which its
   * bottom is that operator; and the output is a valid postfix prefix whose
   * height is one per pending binary operator, one for a finished operand,
   * and one per juxtaposition.
   */
  ghost predicate Corresponds(st: Shunt, p: Placement) {
    && st.expectOperand == p.expectOperand
    && OpsOk(st.ops)
    && CountOpen(st.ops) == p.depth
    && (p.sawTopOperator ==> |st.ops| > 0 && st.ops[0] != "(")
    && (!p.sawTopOperator ==> |st.ops| == 0 || st.ops[0] == "(")
    && RpnHeight(st.output) == Some(Binaries(st.ops) + (if st.expectOperand then 0 else 1) + p.juxtaposed)
  }

  ghost predicate Agree(r: Result<Shunt, ParseError>, q: Result<Placement, ParseError>) {
    match r
    case Err(e) => q == Err(e)
    case Ok(st) => q.Ok? && Corresponds(st, q.value)
  }

  /** Moving an operator `t` from the top of `rest + [t]` to the output keeps the height invariant. */
  lemma PopOneOutput(out: seq<string>, ops: seq<string>, rest: seq<string>, t: string, j: nat)
    requires ops == rest + [t] && IsOperator(t)
    requires RpnHeight(out) == Some(Binaries(ops) + 1 + j)
    ensures NonOperators(out + [t]) == NonOperators(out)
    ensures RpnHeight(out + [t]) == Some(Binaries(rest) + 1 + j)
  {
    BinariesLast(rest, t);
    PopOneHeight(out, t, Binaries(rest) + 1 + j);
  }

  lemma OpsOkPrefix(ops: seq<string>, n: nat)
    requires OpsOk(ops) && n <= |ops|
    ensures OpsOk(ops[..n])
  {
    forall k | 0 <= k < n ensures ops[..n][k] == "(" || IsOperator(ops[..n][k]) {
      assert ops[..n][k] == ops[k];
    }
  }

  lemma BinariesLast(rest: seq<string>, t: string)
    requires IsOperator(t)
    ensures Binaries(rest + [t]) == Binaries(rest) + (if t == "NOT" then 0 else 1)
  {
    assert (rest + [t])[..|rest|] == rest;
  }

  /** An operator moved to the output consumes its operands and leaves one value. */
  lemma PopOneHeight(out: seq<string>, t: string, h: nat)
    requires IsOperator(t) && h >= 1
    requires RpnHeight(out) == Some(h + (if t == "NOT" then 0 else 1))
    ensures NonOperators(out + [t]) == NonOperators(out)
    ensures RpnHeight(out + [t]) == Some(h)
  {
    assert (out + [t])[..|out|] == out;
    assert NonOperators(out + [t]) == NonOperators(out) + [];
    var op := AsOperator(t).value;
    if op == Not {
      assert t == "NOT";
    } else {
      assert t != "NOT";
    }
  }

  /** `PopHigher` leaves a prefix of the stack, with the same open groups. */
  lemma {:induction false} PopHigherShape(out: seq<string>, ops: seq<string>, cur: Operator)
    ensures |PopHigher(out, ops, cur).1| <= |ops|
    ensures PopHigher(out, ops, cur).1 == ops[..|PopHigher(out, ops, cur).1|]
    ensures CountOpen(PopHigher(out, ops, cur).1) == CountOpen(ops)
    decreases |ops|
  {
    if |ops| > 0 && AsOperator(ops[|ops| - 1]).Some? && ShouldPop(AsOperator(ops[|ops| - 1]).value, cur) {
      var t := ops[|ops| - 1];
      var rest := ops[..|ops| - 1];
      assert ops == rest + [t];
      assert PopHigher(out, ops, cur) == PopHigher(out + [t], rest, cur);
      assert t != "(";
      CountOpenLast(rest, t);
      PopHigherShape(out + [t], rest, cur);
      var s := PopHigher(out + [t], rest, cur).1;
      assert s == rest[..|s|] == ops[..|s|];
    } else {
      assert PopHigher(out, ops, cur) == (out, ops);
      assert ops[..|ops|] == ops;
    }
  }

  /** `PopHigher` moves only operators to the output, keeping the height invariant. */
  lemma {:induction false} PopHigherOutput(out: seq<string>, ops: seq<string>, cur: Operator, j: nat)
    requires RpnHeight(out) == Some(Binaries(ops) + 1 + j)
    ensures NonOperators(PopHigher(out, ops, cur).0) == NonOperators(out)
    ensures RpnHeight(PopHigher(out, ops, cur).0) == Some(Binaries(PopHigher(out, ops, cur).1) + 1 + j)
    decreases |ops|
  {
    if |ops| > 0 && AsOperator(ops[|ops| - 1]).Some? && ShouldPop(AsOperator(ops[|ops| - 1]).value, cur) {
      var t := ops[|ops| - 1];
      var rest := ops[..|ops| - 1];
      assert ops == rest + [t];
      assert PopHigher(out, ops, cur) == PopHigher(out + [t], rest, cur);
      PopOneOutput(out, ops, rest, t, j);
      PopHigherOutput(out + [t], rest, cur, j);
    } else {
      assert PopHigher(out, ops, cur) == (out, ops);
    }
  }

  /** `PopToOpen` leaves a prefix of the stack that is empty or ends with `(`, with the same open groups. */
  lemma {:induction false} PopToOpenShape(out: seq<string>, ops: seq<string>)
    ensures |PopToOpen(out, ops).1| <= |ops|
    ensures PopToOpen(out, ops).1 == ops[..|PopToOpen(out, ops).1|]
    ensures |PopToOpen(out, ops).1| == 0 || PopToOpen(out, ops).1[|PopToOpen(out, ops).1| - 1] == "("
    ensures CountOpen(PopToOpen(out, ops).1) == CountOpen(ops)
    decreases |ops|
  {
    if |ops| > 0 && ops[|ops| - 1] != "(" {
      var t := ops[|ops| - 1];
      var rest := ops[..|ops| - 1];
      assert ops == rest + [t];
      assert PopToOpen(out, ops) == PopToOpen(out + [t], rest);
      CountOpenLast(rest, t);
      PopToOpenShape(out + [t], rest);
      var s := PopToOpen(out + [t], rest).1;
      assert s == rest[..|s|] == ops[..|s|];
    } else {
      assert PopToOpen(out, ops) == (out, ops);
      assert ops[..|ops|] == ops;
    }
  }

  /** On a well-formed stack `PopToOpen` moves only operators to the output, keeping the height invariant. */
  lemma {:induction false} PopToOpenOutput(out: seq<string>, ops: seq<string>, j: nat)
    requires OpsOk(ops)
    requires RpnHeight(out) == Some(Binaries(ops) + 1 + j)
    ensures NonOperators(PopToOpen(out, ops).0) == NonOperators(out)
    ensures RpnHeight(PopToOpen(out, ops).0) == Some(Binaries(PopToOpen(out, ops).1) + 1 + j)
    decreases |ops|
  {
    if |ops| > 0 && ops[|ops| - 1] != "(" {
      var t := ops[|ops| - 1];
      var rest := ops[..|ops| - 1];
      assert ops == rest + [t];
      assert PopToOpen(out, ops) == PopToOpen(out + [t], rest);
      assert IsOperator(t) by { assert ops[|rest|] == "(" || IsOperator(ops[|rest|]); }
      PopOneOutput(out, ops, rest, t, j);
      OpsOkPrefix(ops, |rest|);
      PopToOpenOutput(out + [t], rest, j);
    } else {
      assert PopToOpen(out, ops) == (out, ops);
    }
  }

  lemma {:induction false} DrainFacts(out: seq<string>, ops: seq<string>, j: nat)
    requires OpsOk(ops)
    requires RpnHeight(out) == Some(Binaries(ops) + 1 + j)
    ensures CountOpen(ops) > 0 ==> Drain(out, ops) == Err(MissingCloseParen)
    ensures CountOpen(ops) == 0 ==>
      && Drain(out, ops).Ok?
      && RpnHeight(Drain(out, ops).value) == Some(1 + j)
      && NonOperators(Drain(out, ops).value) == NonOperators(out)
    decreases |ops|
  {
    if |ops| > 0 && ops[|ops| - 1] != "(" {
      var t := ops[|ops| - 1];
      var rest := ops[..|ops| - 1];
      assert ops == rest + [t];
      assert Drain(out, ops) == Drain(out + [t], rest);
      CountOpenLast(rest, t);
      assert IsOperator(t) by { assert ops[|rest|] == "(" || IsOperator(ops[|rest|]); }
      PopOneOutput(out, ops, rest, t, j);
      OpsOkPrefix(ops, |rest|);
      DrainFacts(out + [t], rest, j);
    } else if |ops| > 0 {
      assert Drain(out, ops) == Err(MissingCloseParen);
      assert CountOpen(ops) > 0;
    }
  }

  /** Two stacks that agree on a non-empty prefix have the same bottom. */
  lemma PrefixHead(s: seq<string>, ops: seq<string>)
    requires 0 < |s| <= |ops| && s == ops[..|s|]
    ensures s[0] == ops[0]
  {
  }

  /** A step that succeeds adds the lexeme to the output's leaves exactly when it is a term. */
  ghost predicate LeavesKept(st: Shunt, part: string) {
    ShuntStep(st, part).Ok? ==>
      NonOperators(ShuntStep(st, part).value.output) == NonOperators(st.output) + (if IsOperand(part) then [part] else [])
  }

  /** `(` is only pushed; `NOT` is only pushed or rejected. */
  lemma OpenNotLeaves(st: Shunt)
    ensures LeavesKept(st, "(") && LeavesKept(st, "NOT")
  {
    ShuntNot(st);
    assert !IsOperand("(") && !IsOperand("NOT");
    assert ShuntStep(st, "(").value.output == st.output;
    assert NonOperators(st.output) == NonOperators(st.output) + [];
  }

  /** `)` only moves operators to the output. */
  lemma CloseLeaves(st: Shunt, j: nat)
    requires OpsOk(st.ops)
    requires !st.expectOperand ==> RpnHeight(st.output) == Some(Binaries(st.ops) + 1 + j)
    ensures LeavesKept(st, ")")
  {
    ShuntClose(st);
    if |st.ops| > 0 && !st.expectOperand {
      PopToOpenOutput(st.output, st.ops, j);
      assert NonOperators(PopToOpen(st.output, st.ops).0) == NonOperators(st.output) + [];
    }
  }

  /** A term is appended to the output. */
  lemma TermLeaves(st: Shunt, part: string)
    requires IsOperand(part)
    ensures LeavesKept(st, part)
  {
    var out' := st.output + [part];
    assert AsOperator(part).None?;
    assert ShuntStep(st, part) == Ok(Shunt(out', st.ops, false));
    assert out'[..|st.output|] == st.output;
  }

  lemma StepOpen(st: Shunt, p: Placement)
    requires Corresponds(st, p)
    ensures Agree(ShuntStep(st, "("), PlaceStep(p, "("))
  {
    var ops' := st.ops + ["("];
    assert ShuntStep(st, "(") == Ok(Shunt(st.output, ops', true));
    assert ops'[..|st.ops|] == st.ops;
    assert OpsOk(ops');
    if |st.ops| > 0 { assert ops'[0] == st.ops[0]; }
  }

  /** `)` after an operand, inside a group: the group's operators move to the output and its `(` is dropped. */
  lemma CloseGroup(st: Shunt, p: Placement)
    requires Corresponds(st, p) && !st.expectOperand && p.depth > 0
    ensures Agree(ShuntStep(st, ")"), PlaceStep(p, ")"))
  {
    var (o, s) := PopToOpen(st.output, st.ops);
    var p' := Placement(false, p.depth - 1, p.sawTopOperator, p.juxtaposed);
    assert |s| > 0 && Corresponds(Shunt(o, s[..|s| - 1], false), p') by {
      PopToOpenShape(st.output, st.ops);
      PopToOpenOutput(st.output, st.ops, p.juxtaposed);
      CloseStack(st.ops, s, p);
      ClosedCorresponds(o, s[..|s| - 1], p);
    }
    ShuntClose(st);
    PlaceClose(p);
  }

  /** The state after `)`: the output and the stack without the group's `(`. */
  lemma ClosedCorresponds(o: seq<string>, s': seq<string>, p: Placement)
    requires p.depth > 0
    requires OpsOk(s') && CountOpen(s') == p.depth - 1
    requires p.sawTopOperator ==> |s'| > 0 && s'[0] != "("
    requires !p.sawTopOperator ==> |s'| == 0 || s'[0] == "("
    requires RpnHeight(o) == Some(Binaries(s') + 1 + p.juxtaposed)
    ensures Corresponds(Shunt(o, s', false), Placement(false, p.depth - 1, p.sawTopOperator, p.juxtaposed))
  {
  }

  /** What `)` does to the shunting state. */
  lemma ShuntClose(st: Shunt)
    ensures !IsOperand(")")
    ensures |st.ops| == 0 ==> ShuntStep(st, ")") == Err(MissingOpenParen)
    ensures |st.ops| > 0 && st.expectOperand ==> ShuntStep(st, ")") == Err(EndsUnexpectedly)
    ensures |st.ops| > 0 && !st.expectOperand ==>
      var (o, s) := PopToOpen(st.output, st.ops);
      ShuntStep(st, ")") == if |s| == 0 then Err(MissingOpenParen) else Ok(Shunt(o, s[..|s| - 1], false))
  {
  }

  /** What `)` does to the placement scan. */
  lemma PlaceClose(p: Placement)
    ensures PlaceStep(p, ")") ==
      if p.depth == 0 && !p.sawTopOperator then Err(MissingOpenParen)
      else if p.expectOperand then Err(EndsUnexpectedly)
      else if p.depth == 0 then Err(MissingOpenParen)
      else Ok(Placement(false, p.depth - 1, p.sawTopOperator, p.juxtaposed))
  {
  }

  /** Dropping the `(` that ends a popped-down prefix closes one group of a well-formed stack. */
  lemma CloseStack(ops: seq<string>, s: seq<string>, p: Placement)
    requires OpsOk(ops) && CountOpen(ops) == p.depth && p.depth > 0
    requires p.sawTopOperator ==> |ops| > 0 && ops[0] != "("
    requires !p.sawTopOperator ==> |ops| == 0 || ops[0] == "("
    requires |s| <= |ops| && s == ops[..|s|] && CountOpen(s) == CountOpen(ops)
    requires |s| == 0 || s[|s| - 1] == "("
    ensures |s| > 0
    ensures OpsOk(s[..|s| - 1]) && CountOpen(s[..|s| - 1]) == p.depth - 1
    ensures Binaries(s[..|s| - 1]) == Binaries(s)
    ensures p.sawTopOperator ==> |s[..|s| - 1]| > 0 && s[..|s| - 1][0] != "("
    ensures !p.sawTopOperator ==> |s[..|s| - 1]| == 0 || s[..|s| - 1][0] == "("
  {
    assert |s| > 0;
    var s' := s[..|s| - 1];
    OpsOkPrefix(ops, |s| - 1);
    assert ops[..|s| - 1] == s';
    PrefixHead(s, ops);
    if |s'| > 0 {
      assert s'[0] == s[0];
    }
  }

  lemma StepClose(st: Shunt, p: Placement)
    requires Corresponds(st, p)
    ensures Agree(ShuntStep(st, ")"), PlaceStep(p, ")"))
  {
    if |st.ops| == 0 {
      assert p.depth == 0 && !p.sawTopOperator;
    } else if !st.expectOperand {
      if p.depth == 0 {
        PopToOpenShape(st.output, st.ops);
        var s := PopToOpen(st.output, st.ops).1;
        CountOpenZero(st.ops);
        var o := PopToOpen(st.output, st.ops).0;
        assert s == [];
        assert ShuntStep(st, ")") == Err(MissingOpenParen);
        assert PlaceStep(p, ")") == Err(MissingOpenParen);
      } else {
        CloseGroup(st, p);
      }
    } else {
      CountOpenZero(st.ops);
    }
  }

  lemma StepNot(st: Shunt, p: Placement)
    requires Corresponds(st, p)
    ensures Agree(ShuntStep(st, "NOT"), PlaceStep(p, "NOT"))
  {
    ShuntNot(st);
    if st.expectOperand {
      var st' := Shunt(st.output, st.ops + ["NOT"], true);
      var p' := Placement(true, p.depth, p.sawTopOperator || p.depth == 0, p.juxtaposed);
      assert PlaceStep(p, "NOT") == Ok(p');
      assert Corresponds(st', p') by {
        assert st.ops[..|st.ops|] == st.ops;
        PushOperator(st.ops, st.ops, "NOT", p);
      }
    } else {
      assert PlaceStep(p, "NOT") == Err(NotMisplaced);
    }
  }

  /** `NOT` pops nothing: it is pushed where an operand is expected, and rejected elsewhere. */
  lemma ShuntNot(st: Shunt)
    ensures st.expectOperand ==> ShuntStep(st, "NOT") == Ok(Shunt(st.output, st.ops + ["NOT"], true))
    ensures !st.expectOperand ==> ShuntStep(st, "NOT") == Err(NotMisplaced)
  {
    assert "NOT" != "(" && "NOT" != ")" && AsOperator("NOT") == Some(Not);
    assert PopHigher(st.output, st.ops, Not) == (st.output, st.ops) by {
      if |st.ops| > 0 && AsOperator(st.ops[|st.ops| - 1]).Some? {
        PrecedenceOrder(AsOperator(st.ops[|st.ops| - 1]).value, Not);
      }
    }
  }

  /** Pushing an operator onto what remains of a well-formed stack after popping. */
  lemma PushOperator(ops: seq<string>, s: seq<string>, part: string, p: Placement)
    requires OpsOk(ops) && CountOpen(ops) == p.depth
    requires p.sawTopOperator ==> |ops| > 0 && ops[0] != "("
    requires !p.sawTopOperator ==> |ops| == 0 || ops[0] == "("
    requires |s| <= |ops| && s == ops[..|s|] && CountOpen(s) == CountOpen(ops)
    requires IsOperator(part)
    ensures OpsOk(s + [part]) && CountOpen(s + [part]) == p.depth
    ensures p.sawTopOperator || p.depth == 0 ==> (s + [part])[0] != "("
    ensures !(p.sawTopOperator || p.depth == 0) ==> (s + [part])[0] == "("
    ensures Binaries(s + [part]) == Binaries(s) + (if part == "NOT" then 0 else 1)
  {
    assert part != "(";
    OpsOkPrefix(ops, |s|);
    OpsOkPush(s, part);
    CountOpenLast(s, part);
    BinariesLast(s, part);
    PushHead(ops, s, part, p);
  }

  lemma OpsOkPush(s: seq<string>, x: string)
    requires OpsOk(s) && (x == "(" || IsOperator(x))
    ensures OpsOk(s + [x])
  {
    forall k | 0 <= k < |s| + 1 ensures (s + [x])[k] == "(" || IsOperator((s + [x])[k]) {
      if k < |s| { assert (s + [x])[k] == s[k]; }
    }
  }

  lemma CountOpenLast(s: seq<string>, x: string)
    ensures CountOpen(s + [x]) == CountOpen(s) + (if x == "(" then 1 else 0)
  {
    assert (s + [x])[..|s|] == s;
  }

  /** The bottom of the stack after pushing an operator onto a popped-down prefix. */
  lemma PushHead(ops: seq<string>, s: seq<string>, part: string, p: Placement)
    requires CountOpen(ops) == p.depth && part != "("
    requires p.sawTopOperator ==> |ops| > 0 && ops[0] != "("
    requires !p.sawTopOperator ==> |ops| == 0 || ops[0] == "("
    requires |s| <= |ops| && s == ops[..|s|] && CountOpen(s) == CountOpen(ops)
    ensures p.sawTopOperator || p.depth == 0 ==> (s + [part])[0] != "("
    ensures !(p.sawTopOperator || p.depth == 0) ==> (s + [part])[0] == "("
  {
    var ops' := s + [part];
    if |s| > 0 {
      PrefixHead(s, ops);
      assert ops'[0] == s[0];
      if p.depth == 0 {
        CountOpenZero(ops);
      }
    }
  }

  lemma StepBinary(st: Shunt, p: Placement, part: string)
    requires Corresponds(st, p)
    requires part == "AND" || part == "OR"
    ensures Agree(ShuntStep(st, part), PlaceStep(p, part))
  {
    var op := AsOperator(part).value;
    ShuntBinary(st, part, op);
    PlaceBinary(p, part, op);
    if !st.expectOperand {
      BinaryPush(st, p, part, op);
    }
  }

  /** After popping, pushing AND or OR keeps the stacks in correspondence. */
  lemma BinaryPush(st: Shunt, p: Placement, part: string, op: Operator)
    requires Corresponds(st, p) && !st.expectOperand
    requires (part == "AND" || part == "OR") && op == AsOperator(part).value
    ensures Corresponds(Shunt(PopHigher(st.output, st.ops, op).0, PopHigher(st.output, st.ops, op).1 + [part], true),
                        Placement(true, p.depth, p.sawTopOperator || p.depth == 0, p.juxtaposed))
  {
    var (o, s) := PopHigher(st.output, st.ops, op);
    assert part != "NOT";
    PopHigherShape(st.output, st.ops, op);
    PopHigherOutput(st.output, st.ops, op, p.juxtaposed);
    PushOperator(st.ops, s, part, p);
    assert Binaries(s + [part]) == Binaries(s) + 1;
    assert RpnHeight(o) == Some(Binaries(s + [part]) + 0 + p.juxtaposed);
  }

  /** AND and OR only move operators to the output. */
  lemma BinaryLeaves(st: Shunt, part: string, j: nat)
    requires part == "AND" || part == "OR"
    requires OpsOk(st.ops)
    requires !st.expectOperand ==> RpnHeight(st.output) == Some(Binaries(st.ops) + 1 + j)
    ensures LeavesKept(st, part)
  {
    var op := AsOperator(part).value;
    ShuntBinary(st, part, op);
    if !st.expectOperand {
      PopHigherOutput(st.output, st.ops, op, j);
      assert NonOperators(PopHigher(st.output, st.ops, op).0) == NonOperators(st.output) + [];
    }
  }

  lemma PlaceBinary(p: Placement, part: string, op: Operator)
    requires (part == "AND" || part == "OR") && op == AsOperator(part).value
    ensures p.expectOperand ==> PlaceStep(p, part) == Err(MissingLeftOperand(op))
    ensures !p.expectOperand ==> PlaceStep(p, part) == Ok(Placement(true, p.depth, p.sawTopOperator || p.depth == 0, p.juxtaposed))
  {
    assert part != "(" && part != ")" && AsOperator(part).Some? && op != Not;
  }

  /** AND and OR need a left operand; they pop the operators that bind at least as tightly, then are pushed. */
  lemma ShuntBinary(st: Shunt, part: string, op: Operator)
    requires (part == "AND" || part == "OR") && op == AsOperator(part).value
    ensures op != Not && !IsOperand(part)
    ensures st.expectOperand ==> ShuntStep(st, part) == Err(MissingLeftOperand(op))
    ensures !st.expectOperand ==>
      ShuntStep(st, part) == Ok(Shunt(PopHigher(st.output, st.ops, op).0, PopHigher(st.output, st.ops, op).1 + [part], true))
  {
    assert part != "(" && part != ")" && AsOperator(part).Some?;
  }

  lemma StepTerm(st: Shunt, p: Placement, part: string)
    requires Corresponds(st, p)
    requires IsOperand(part)
    ensures Agree(ShuntStep(st, part), PlaceStep(p, part))
  {
    assert AsOperator(part).None?;
    assert ShuntStep(st, part) == Ok(Shunt(st.output + [part], st.ops, false));
    assert AsOperator(part).None?;
    assert ShuntStep(st, part) == Ok(Shunt(st.output + [part], st.ops, false));
  }

  lemma StepAgrees(st: Shunt, p: Placement, part: string)
    requires Corresponds(st, p)
    ensures Agree(ShuntStep(st, part), PlaceStep(p, part))
    ensures LeavesKept(st, part)
  {
    if part == "(" {
      StepOpen(st, p);
      OpenNotLeaves(st);
    } else if part == ")" {
      StepClose(st, p);
      CloseLeaves(st, p.juxtaposed);
    } else if part == "NOT" {
      StepNot(st, p);
      OpenNotLeaves(st);
    } else if part == "AND" || part == "OR" {
      StepBinary(st, p, part);
      BinaryLeaves(st, part, p.juxtaposed);
    } else {
      StepTerm(st, p, part);
      TermLeaves(st, part);
    }
  }

  lemma {:induction false} ShuntAgrees(lexemes: seq<string>)
    ensures Agree(ShuntAll(lexemes), PlaceAll(lexemes))
    ensures ShuntAll(lexemes).Ok? ==> NonOperators(ShuntAll(lexemes).value.output) == Operands(lexemes)
  {
    if lexemes != [] {
      var init := lexemes[..|lexemes| - 1];
      ShuntAgrees(init);
      if ShuntAll(init).Ok? {
        StepAgrees(ShuntAll(init).value, PlaceAll(init).value, lexemes[|lexemes| - 1]);
      }
    }
  }

  /**
   * `toPostfix` fails exactly when the placement scan fails, with the same
   * error; when it succeeds, its output is a valid postfix program that
   * leaves 1 + (number of juxtapositions) values, and its leaves are the
   * query's terms in order.
   */
  lemma {:induction false} PostfixMatchesPlacement(lexemes: seq<string>)
    ensures Postfix(lexemes).Err? <==> PlacementCheck(lexemes).Err?
    ensures Postfix(lexemes).Err? ==> Postfix(lexemes).error == PlacementCheck(lexemes).error
    ensures Postfix(lexemes).Ok? ==>
      && RpnHeight(Postfix(lexemes).value) == Some(1 + PlacementCheck(lexemes).value)
      && NonOperators(Postfix(lexemes).value) == Operands(lexemes)
  {
    ShuntAgrees(lexemes);
    if ShuntAll(lexemes).Ok? {
      var st := ShuntAll(lexemes).value;
      var p := PlaceAll(lexemes).value;
      if !st.expectOperand {
        DrainFacts(st.output, st.ops, p.juxtaposed);
      }
    }
  }

  // ---------------------------------------------------------------------
  // The tree builder

  /**
   * A node as the builder makes it from binary construction: NOT has exactly
   * one operand, AND/OR at least two, and no AND/OR node has a direct child
   * with its own operator (chains are flattened).
   */
  ghost predicate Flat(n: Node)
    decreases n
  {
    match n
    case Term(_) => true
    case Expr(op, xs) =>
      && (if op == Not then |xs| == 1 else |xs| >= 2)
      && forall i :: 0 <= i < |xs| ==> Flat(xs[i]) && !(op != Not && xs[i].Expr? && xs[i].op == op)
  }

  /** The root shape: flat, or the `AND{[term]}` wrapper of a lone term. */
  ghost predicate RootShape(n: Node) {
    n.Expr? && (Flat(n) || (n.op == And && |n.operands| == 1 && n.operands[0].Term?))
  }

  function Leaves(n: Node): seq<string>
    decreases n, 1
  {
    match n
    case Term(t) => [t]
    case Expr(_, xs) => LeavesSeq(xs)
  }

  function LeavesSeq(xs: seq<Node>): seq<string>
    decreases xs, 0
  {
    if xs == [] then [] else LeavesSeq(xs[..|xs| - 1]) + Leaves(xs[|xs| - 1])
  }

  lemma {:induction false} LeavesSeqAppend(a: seq<Node>, b: seq<Node>)
    ensures LeavesSeq(a + b) == LeavesSeq(a) + LeavesSeq(b)
    decreases |b|
  {
    if b != [] {
      var b' := b[..|b| - 1];
      assert (a + b)[..|a + b| - 1] == a + b';
      LeavesSeqAppend(a, b');
    } else {
      assert a + b == a;
    }
  }

  lemma LeavesSingle(c: Node)
    ensures LeavesSeq([c]) == Leaves(c)
  {
    assert [c][..0] == [];
  }

  lemma FlattenLeaves(op: Operator, c: Node)
    ensures LeavesSeq(FlattenInto(op, c)) == Leaves(c)
  {
    if !(c.Expr? && c.op == op && op != Not) {
      LeavesSingle(c);
    }
  }

  lemma {:induction false} FlattenFlat(op: Operator, c: Node)
    requires op != Not && Flat(c)
    ensures |FlattenInto(op, c)| >= 1
    ensures forall i :: 0 <= i < |FlattenInto(op, c)| ==>
      Flat(FlattenInto(op, c)[i]) && !(FlattenInto(op, c)[i].Expr? && FlattenInto(op, c)[i].op == op)
  {
  }

  lemma {:induction false} BuildStepFacts(stack: seq<Node>, part: string)
    requires forall k :: 0 <= k < |stack| ==> Flat(stack[k])
    requires BuildStep(stack, part).Ok?
    ensures forall k :: 0 <= k < |BuildStep(stack, part).value| ==> Flat(BuildStep(stack, part).value[k])
    ensures LeavesSeq(BuildStep(stack, part).value)
      == LeavesSeq(stack) + (if IsOperator(part) then [] else [part])
  {
    var n := |stack|;
    match AsOperator(part)
    case None =>
      var s' := stack + [Term(part)];
      assert s'[..n] == stack;
    case Some(op) =>
      if op == Not {
        var c := stack[n - 1];
        var s' := stack[..n - 1] + [Expr(Not, [c])];
        assert s'[..n - 1] == stack[..n - 1];
        LeavesSingle(c);
      } else {
        var right := stack[n - 1];
        var left := stack[n - 2];
        var xs := FlattenInto(op, left) + FlattenInto(op, right);
        var s' := stack[..n - 2] + [Expr(op, xs)];
        assert s'[..n - 2] == stack[..n - 2];
        assert stack[..n - 1][..n - 2] == stack[..n - 2];
        FlattenFlat(op, left);
        FlattenFlat(op, right);
        assert Flat(Expr(op, xs));
        LeavesSeqAppend(FlattenInto(op, left), FlattenInto(op, right));
        FlattenLeaves(op, left);
        FlattenLeaves(op, right);
      }
  }

  /** Every stack entry the builder produces is flat, and its leaves are the postfix terms in order. */
  lemma {:induction false} BuildShape(postfix: seq<string>)
    requires BuildAll(postfix).Ok?
    ensures forall k :: 0 <= k < |BuildAll(postfix).value| ==> Flat(BuildAll(postfix).value[k])
    ensures LeavesSeq(BuildAll(postfix).value) == NonOperators(postfix)
  {
    if postfix != [] {
      var init := postfix[..|postfix| - 1];
      BuildShape(init);
      BuildStepFacts(BuildAll(init).value, postfix[|postfix| - 1]);
    }
  }

  /**
   * On a valid postfix program with non-empty terms the builder never reports
   * a missing operand, and its stack height is the program's height.
   */
  lemma {:induction false} BuildFromValidPostfix(postfix: seq<string>)
    requires RpnHeight(postfix).Some?
    requires "" !in NonOperators(postfix)
    ensures BuildAll(postfix).Ok?
    ensures |BuildAll(postfix).value| == RpnHeight(postfix).value
    ensures forall k :: 0 <= k < |BuildAll(postfix).value| ==> !Falsy(BuildAll(postfix).value[k])
  {
    if postfix != [] {
      var init := postfix[..|postfix| - 1];
      BuildFromValidPostfix(init);
      var stack := BuildAll(init).value;
      var n := |stack|;
      var part := postfix[|postfix| - 1];
      match AsOperator(part)
      case None =>
        assert part != "";
        var s' := stack + [Term(part)];
        assert forall k :: 0 <= k < n ==> s'[k] == stack[k];
      case Some(op) =>
        if op == Not {
          var s' := stack[..n - 1] + [Expr(Not, [stack[n - 1]])];
          assert forall k :: 0 <= k < n - 1 ==> s'[k] == stack[k];
        } else {
          var right := stack[n - 1];
          var left := stack[n - 2];
          var s' := stack[..n - 2] + [Expr(op, FlattenInto(op, left) + FlattenInto(op, right))];
          assert forall k :: 0 <= k < n - 2 ==> s'[k] == stack[k];
        }
    }
  }

  // ---------------------------------------------------------------------
  // The resolver as a whole

  /**
   * A resolved query is an operator node of the builder's shape whose leaves
   * are exactly the query's terms, in their input order.
   */
  lemma {:induction false} ResolveShape(lexemes: seq<string>)
    requires Resolve(lexemes).Ok?
    ensures RootShape(Resolve(lexemes).value)
    ensures Leaves(Resolve(lexemes).value) == Operands(lexemes)
  {
    PostfixMatchesPlacement(lexemes);
    var postfix := Postfix(lexemes).value;
    BuildShape(postfix);
    var stack := BuildAll(postfix).value;
    assert stack == [stack[0]];
    LeavesSingle(stack[0]);
  }

  /**
   * With non-empty terms (the tokenizer never yields an empty one), the
   * resolver succeeds exactly when the placement scan finds no error and no
   * juxtaposition; a placement error is reported as such, and a juxtaposition
   * surfaces as the builder's "did not reduce to one root". In particular the
   * builder's "missing operand" errors never fire after `toPostfix` succeeds.
   */
  lemma {:induction false} ResolveSucceedsIffWellPlaced(lexemes: seq<string>)
    requires "" !in Operands(lexemes)
    ensures Resolve(lexemes).Ok? <==> PlacementCheck(lexemes) == Ok(0)
    ensures PlacementCheck(lexemes).Err? ==> Resolve(lexemes) == Err(PlacementCheck(lexemes).error)
    ensures PlacementCheck(lexemes).Ok? && PlacementCheck(lexemes).value > 0 ==> Resolve(lexemes) == Err(InvalidRoot)
  {
    PostfixMatchesPlacement(lexemes);
    if Postfix(lexemes).Ok? {
      BuildFromValidPostfix(Postfix(lexemes).value);
    }
  }
}
