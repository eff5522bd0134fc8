/**
 * Worked queries: precedence (NOT over AND over OR), right associativity
 * of NOT, flattening, grouping, and the error each kind of misplacement
 * produces. Each example walks the two folds one lexeme at a time.
 */
module QueryResolverExamples {
  import opened Wrappers
  import opened BooleanQuery

  /** If each lexeme takes `states[k]` to `states[k + 1]`, the fold ends in the last state. */
  lemma {:induction false} ShuntTrace(xs: seq<string>, states: seq<Shunt>)
    requires |states| == |xs| + 1 && states[0] == Shunt([], [], true)
    requires forall k :: 0 <= k < |xs| ==> ShuntStep(states[k], xs[k]) == Ok(states[k + 1])
    ensures ShuntAll(xs) == Ok(states[|xs|])
  {
    if xs != [] {
      var n := |xs| - 1;
      ShuntTrace(xs[..n], states[..n + 1]);
    }
  }

  lemma {:induction false} BuildTrace(xs: seq<string>, stacks: seq<seq<Node>>)
    requires |stacks| == |xs| + 1 && stacks[0] == []
    requires forall k :: 0 <= k < |xs| ==> BuildStep(stacks[k], xs[k]) == Ok(stacks[k + 1])
    ensures BuildAll(xs) == Ok(stacks[|xs|])
  {
    if xs != [] {
      var n := |xs| - 1;
      BuildTrace(xs[..n], stacks[..n + 1]);
    }
  }

  lemma DrainStep(output: seq<string>, ops: seq<string>, top: string)
    requires top != "("
    ensures Drain(output, ops + [top]) == Drain(output + [top], ops)
  {
    assert (ops + [top])[..|ops|] == ops;
  }

  lemma AndOverOrPostfix(a: string, b: string, c: string)
    requires IsOperand(a) && a != "" && IsOperand(b) && b != "" && IsOperand(c) && c != ""
    ensures Postfix([a, "OR", b, "AND", c]) == Ok([a, b, c, "AND", "OR"])
  {
    var lexemes := [a, "OR", b, "AND", c];
    var states := [Shunt([], [], true), Shunt([a], [], false), Shunt([a], ["OR"], true), Shunt([a, b], ["OR"], false), Shunt([a, b], ["OR", "AND"], true), Shunt([a, b, c], ["OR", "AND"], false)];
    forall k | 0 <= k < 5 ensures ShuntStep(states[k], lexemes[k]) == Ok(states[k + 1]) {
      if k == 0 {
        assert [] + [a] == [a];
      } else if k == 1 {
        assert [] + ["OR"] == ["OR"];
      } else if k == 2 {
        assert [a] + [b] == [a, b];
      } else if k == 3 {
        assert ["OR"] + ["AND"] == ["OR", "AND"];
      } else {
        assert [a, b] + [c] == [a, b, c];
      }
    }
    ShuntTrace(lexemes, states);
    DrainStep([a, b, c], ["OR"], "AND");
    assert ["OR"] + ["AND"] == ["OR", "AND"];
    assert [a, b, c] + ["AND"] == [a, b, c, "AND"];
    DrainStep([a, b, c, "AND"], [], "OR");
    assert [] + ["OR"] == ["OR"];
    assert [a, b, c, "AND"] + ["OR"] == [a, b, c, "AND", "OR"];
  }

  lemma AndOverOrTree(a: string, b: string, c: string)
    requires IsOperand(a) && a != "" && IsOperand(b) && b != "" && IsOperand(c) && c != ""
    ensures BuildAll([a, b, c, "AND", "OR"]) == Ok([Expr(Or, [Term(a), Expr(And, [Term(b), Term(c)])])])
  {
    var postfix := [a, b, c, "AND", "OR"];
    var stacks: seq<seq<Node>> := [[], [Term(a)], [Term(a), Term(b)], [Term(a), Term(b), Term(c)], [Term(a), Expr(And, [Term(b), Term(c)])], [Expr(Or, [Term(a), Expr(And, [Term(b), Term(c)])])]];
    forall k | 0 <= k < 5 ensures BuildStep(stacks[k], postfix[k]) == Ok(stacks[k + 1]) {
      if k == 0 {
        assert [] + [Term(a)] == [Term(a)];
      } else if k == 1 {
        assert [Term(a)] + [Term(b)] == [Term(a), Term(b)];
      } else if k == 2 {
        assert [Term(a), Term(b)] + [Term(c)] == [Term(a), Term(b), Term(c)];
      } else if k == 3 {
        assert [Term(a), Term(b), Term(c)][..1] == [Term(a)];
        assert [Term(b)] + [Term(c)] == [Term(b), Term(c)];
        assert [Term(a)] + [Expr(And, [Term(b), Term(c)])] == [Term(a), Expr(And, [Term(b), Term(c)])];
      } else {
        assert [Term(a), Expr(And, [Term(b), Term(c)])][..0] == [];
        assert [Term(a)] + [Expr(And, [Term(b), Term(c)])] == [Term(a), Expr(And, [Term(b), Term(c)])];
        assert [] + [Expr(Or, [Term(a), Expr(And, [Term(b), Term(c)])])] == [Expr(Or, [Term(a), Expr(And, [Term(b), Term(c)])])];
      }
    }
    BuildTrace(postfix, stacks);
  }

  /** AND binds tighter than OR on its right: `a OR b AND c` is `a OR (b AND c)`. */
  lemma AndOverOr(a: string, b: string, c: string)
    requires IsOperand(a) && a != "" && IsOperand(b) && b != "" && IsOperand(c) && c != ""
    ensures Resolve([a, "OR", b, "AND", c])
      == Ok(Expr(Or, [Term(a), Expr(And, [Term(b), Term(c)])]))
  {
    AndOverOrPostfix(a, b, c);
    AndOverOrTree(a, b, c);
  }

  lemma AndBeforeOrPostfix(a: string, b: string, c: string)
    requires IsOperand(a) && a != "" && IsOperand(b) && b != "" && IsOperand(c) && c != ""
    ensures Postfix([a, "AND", b, "OR", c]) == Ok([a, b, "AND", c, "OR"])
  {
    var lexemes := [a, "AND", b, "OR", c];
    var states := [Shunt([], [], true), Shunt([a], [], false), Shunt([a], ["AND"], true), Shunt([a, b], ["AND"], false), Shunt([a, b, "AND"], ["OR"], true), Shunt([a, b, "AND", c], ["OR"], false)];
    forall k | 0 <= k < 5 ensures ShuntStep(states[k], lexemes[k]) == Ok(states[k + 1]) {
      if k == 0 {
        assert [] + [a] == [a];
      } else if k == 1 {
        assert [] + ["AND"] == ["AND"];
      } else if k == 2 {
        assert [a] + [b] == [a, b];
      } else if k == 3 {
        assert [a, b] + ["AND"] == [a, b, "AND"];
        assert ["AND"][..0] == [];
        assert [] + ["OR"] == ["OR"];
      } else {
        assert [a, b, "AND"] + [c] == [a, b, "AND", c];
      }
    }
    ShuntTrace(lexemes, states);
    DrainStep([a, b, "AND", c], [], "OR");
    assert [] + ["OR"] == ["OR"];
    assert [a, b, "AND", c] + ["OR"] == [a, b, "AND", c, "OR"];
  }

  lemma AndBeforeOrTree(a: string, b: string, c: string)
    requires IsOperand(a) && a != "" && IsOperand(b) && b != "" && IsOperand(c) && c != ""
    ensures BuildAll([a, b, "AND", c, "OR"]) == Ok([Expr(Or, [Expr(And, [Term(a), Term(b)]), Term(c)])])
  {
    var postfix := [a, b, "AND", c, "OR"];
    var stacks: seq<seq<Node>> := [[], [Term(a)], [Term(a), Term(b)], [Expr(And, [Term(a), Term(b)])], [Expr(And, [Term(a), Term(b)]), Term(c)], [Expr(Or, [Expr(And, [Term(a), Term(b)]), Term(c)])]];
    forall k | 0 <= k < 5 ensures BuildStep(stacks[k], postfix[k]) == Ok(stacks[k + 1]) {
      if k == 0 {
        assert [] + [Term(a)] == [Term(a)];
      } else if k == 1 {
        assert [Term(a)] + [Term(b)] == [Term(a), Term(b)];
      } else if k == 2 {
        assert [Term(a), Term(b)][..0] == [];
        assert [Term(a)] + [Term(b)] == [Term(a), Term(b)];
        assert [] + [Expr(And, [Term(a), Term(b)])] == [Expr(And, [Term(a), Term(b)])];
      } else if k == 3 {
        assert [Expr(And, [Term(a), Term(b)])] + [Term(c)] == [Expr(And, [Term(a), Term(b)]), Term(c)];
      } else {
        assert [Expr(And, [Term(a), Term(b)]), Term(c)][..0] == [];
        assert [Expr(And, [Term(a), Term(b)])] + [Term(c)] == [Expr(And, [Term(a), Term(b)]), Term(c)];
        assert [] + [Expr(Or, [Expr(And, [Term(a), Term(b)]), Term(c)])] == [Expr(Or, [Expr(And, [Term(a), Term(b)]), Term(c)])];
      }
    }
    BuildTrace(postfix, stacks);
  }

  /** AND binds tighter than OR on its left: `a AND b OR c` is `(a AND b) OR c`. */
  lemma AndBeforeOr(a: string, b: string, c: string)
    requires IsOperand(a) && a != "" && IsOperand(b) && b != "" && IsOperand(c) && c != ""
    ensures Resolve([a, "AND", b, "OR", c])
      == Ok(Expr(Or, [Expr(And, [Term(a), Term(b)]), Term(c)]))
  {
    AndBeforeOrPostfix(a, b, c);
    AndBeforeOrTree(a, b, c);
  }

  lemma NotOverAndPostfix(a: string, b: string)
    requires IsOperand(a) && a != "" && IsOperand(b) && b != ""
    ensures Postfix(["NOT", a, "AND", b]) == Ok([a, "NOT", b, "AND"])
  {
    var lexemes := ["NOT", a, "AND", b];
    var states := [Shunt([], [], true), Shunt([], ["NOT"], true), Shunt([a], ["NOT"], false), Shunt([a, "NOT"], ["AND"], true), Shunt([a, "NOT", b], ["AND"], false)];
    forall k | 0 <= k < 4 ensures ShuntStep(states[k], lexemes[k]) == Ok(states[k + 1]) {
      if k == 0 {
        assert [] + ["NOT"] == ["NOT"];
      } else if k == 1 {
        assert [] + [a] == [a];
      } else if k == 2 {
        assert [a] + ["NOT"] == [a, "NOT"];
        assert ["NOT"][..0] == [];
        assert [] + ["AND"] == ["AND"];
      } else {
        assert [a, "NOT"] + [b] == [a, "NOT", b];
      }
    }
    ShuntTrace(lexemes, states);
    DrainStep([a, "NOT", b], [], "AND");
    assert [] + ["AND"] == ["AND"];
    assert [a, "NOT", b] + ["AND"] == [a, "NOT", b, "AND"];
  }

  lemma NotOverAndTree(a: string, b: string)
    requires IsOperand(a) && a != "" && IsOperand(b) && b != ""
    ensures BuildAll([a, "NOT", b, "AND"]) == Ok([Expr(And, [Expr(Not, [Term(a)]), Term(b)])])
  {
    var postfix := [a, "NOT", b, "AND"];
    var stacks: seq<seq<Node>> := [[], [Term(a)], [Expr(Not, [Term(a)])], [Expr(Not, [Term(a)]), Term(b)], [Expr(And, [Expr(Not, [Term(a)]), Term(b)])]];
    forall k | 0 <= k < 4 ensures BuildStep(stacks[k], postfix[k]) == Ok(stacks[k + 1]) {
      if k == 0 {
        assert [] + [Term(a)] == [Term(a)];
      } else if k == 1 {
        assert [Term(a)][..0] == [];
        assert [] + [Expr(Not, [Term(a)])] == [Expr(Not, [Term(a)])];
      } else if k == 2 {
        assert [Expr(Not, [Term(a)])] + [Term(b)] == [Expr(Not, [Term(a)]), Term(b)];
      } else {
        assert [Expr(Not, [Term(a)]), Term(b)][..0] == [];
        assert [Expr(Not, [Term(a)])] + [Term(b)] == [Expr(Not, [Term(a)]), Term(b)];
        assert [] + [Expr(And, [Expr(Not, [Term(a)]), Term(b)])] == [Expr(And, [Expr(Not, [Term(a)]), Term(b)])];
      }
    }
    BuildTrace(postfix, stacks);
  }

  /** NOT binds tighter than AND: `NOT a AND b` is `(NOT a) AND b`. */
  lemma NotOverAnd(a: string, b: string)
    requires IsOperand(a) && a != "" && IsOperand(b) && b != ""
    ensures Resolve(["NOT", a, "AND", b])
      == Ok(Expr(And, [Expr(Not, [Term(a)]), Term(b)]))
  {
    NotOverAndPostfix(a, b);
    NotOverAndTree(a, b);
  }

  lemma NotNestsPostfix(a: string)
    requires IsOperand(a) && a != ""
    ensures Postfix(["NOT", "NOT", a]) == Ok([a, "NOT", "NOT"])
  {
    var lexemes := ["NOT", "NOT", a];
    var states := [Shunt([], [], true), Shunt([], ["NOT"], true), Shunt([], ["NOT", "NOT"], true), Shunt([a], ["NOT", "NOT"], false)];
    forall k | 0 <= k < 3 ensures ShuntStep(states[k], lexemes[k]) == Ok(states[k + 1]) {
      if k == 0 {
        assert [] + ["NOT"] == ["NOT"];
      } else if k == 1 {
        assert ["NOT"] + ["NOT"] == ["NOT", "NOT"];
      } else {
        assert [] + [a] == [a];
      }
    }
    ShuntTrace(lexemes, states);
    DrainStep([a], ["NOT"], "NOT");
    assert ["NOT"] + ["NOT"] == ["NOT", "NOT"];
    assert [a] + ["NOT"] == [a, "NOT"];
    DrainStep([a, "NOT"], [], "NOT");
    assert [] + ["NOT"] == ["NOT"];
    assert [a, "NOT"] + ["NOT"] == [a, "NOT", "NOT"];
  }

  lemma NotNestsTree(a: string)
    requires IsOperand(a) && a != ""
    ensures BuildAll([a, "NOT", "NOT"]) == Ok([Expr(Not, [Expr(Not, [Term(a)])])])
  {
    var postfix := [a, "NOT", "NOT"];
    var stacks: seq<seq<Node>> := [[], [Term(a)], [Expr(Not, [Term(a)])], [Expr(Not, [Expr(Not, [Term(a)])])]];
    forall k | 0 <= k < 3 ensures BuildStep(stacks[k], postfix[k]) == Ok(stacks[k + 1]) {
      if k == 0 {
        assert [] + [Term(a)] == [Term(a)];
      } else if k == 1 {
        assert [Term(a)][..0] == [];
        assert [] + [Expr(Not, [Term(a)])] == [Expr(Not, [Term(a)])];
      } else {
        assert [Expr(Not, [Term(a)])][..0] == [];
        assert [] + [Expr(Not, [Expr(Not, [Term(a)])])] == [Expr(Not, [Expr(Not, [Term(a)])])];
      }
    }
    BuildTrace(postfix, stacks);
  }

  /** NOT is right-associative and never flattened: `NOT NOT a` keeps both nodes. */
  lemma NotNests(a: string)
    requires IsOperand(a) && a != ""
    ensures Resolve(["NOT", "NOT", a])
      == Ok(Expr(Not, [Expr(Not, [Term(a)])]))
  {
    NotNestsPostfix(a);
    NotNestsTree(a);
  }

  lemma AndChainPostfix(a: string, b: string, c: string)
    requires IsOperand(a) && a != "" && IsOperand(b) && b != "" && IsOperand(c) && c != ""
    ensures Postfix([a, "AND", b, "AND", c]) == Ok([a, b, "AND", c, "AND"])
  {
    var lexemes := [a, "AND", b, "AND", c];
    var states := [Shunt([], [], true), Shunt([a], [], false), Shunt([a], ["AND"], true), Shunt([a, b], ["AND"], false), Shunt([a, b, "AND"], ["AND"], true), Shunt([a, b, "AND", c], ["AND"], false)];
    assert ShuntAll(lexemes) == Ok(states[5]) by {
      forall k | 0 <= k < 5 ensures ShuntStep(states[k], lexemes[k]) == Ok(states[k + 1]) {
        if k == 0 {
          assert [] + [a] == [a];
        } else if k == 1 {
          assert [] + ["AND"] == ["AND"];
        } else if k == 2 {
          assert [a] + [b] == [a, b];
        } else if k == 3 {
          assert [a, b] + ["AND"] == [a, b, "AND"];
          assert ["AND"][..0] == [];
          assert [] + ["AND"] == ["AND"];
        } else {
          assert [a, b, "AND"] + [c] == [a, b, "AND", c];
        }
      }
      ShuntTrace(lexemes, states);
    }
    DrainStep([a, b, "AND", c], [], "AND");
    assert [] + ["AND"] == ["AND"];
    assert [a, b, "AND", c] + ["AND"] == [a, b, "AND", c, "AND"];
  }

  lemma AndChainTree(a: string, b: string, c: string)
    requires IsOperand(a) && a != "" && IsOperand(b) && b != "" && IsOperand(c) && c != ""
    ensures BuildAll([a, b, "AND", c, "AND"]) == Ok([Expr(And, [Term(a), Term(b), Term(c)])])
  {
    var postfix := [a, b, "AND", c, "AND"];
    var stacks: seq<seq<Node>> := [[], [Term(a)], [Term(a), Term(b)], [Expr(And, [Term(a), Term(b)])], [Expr(And, [Term(a), Term(b)]), Term(c)], [Expr(And, [Term(a), Term(b), Term(c)])]];
    forall k | 0 <= k < 5 ensures BuildStep(stacks[k], postfix[k]) == Ok(stacks[k + 1]) {
      if k == 0 {
        assert [] + [Term(a)] == [Term(a)];
      } else if k == 1 {
        assert [Term(a)] + [Term(b)] == [Term(a), Term(b)];
      } else if k == 2 {
        assert [Term(a), Term(b)][..0] == [];
        assert [Term(a)] + [Term(b)] == [Term(a), Term(b)];
        assert [] + [Expr(And, [Term(a), Term(b)])] == [Expr(And, [Term(a), Term(b)])];
      } else if k == 3 {
        assert [Expr(And, [Term(a), Term(b)])] + [Term(c)] == [Expr(And, [Term(a), Term(b)]), Term(c)];
      } else {
        assert [Expr(And, [Term(a), Term(b)]), Term(c)][..0] == [];
        assert [Term(a), Term(b)] + [Term(c)] == [Term(a), Term(b), Term(c)];
        assert [] + [Expr(And, [Term(a), Term(b), Term(c)])] == [Expr(And, [Term(a), Term(b), Term(c)])];
      }
    }
    BuildTrace(postfix, stacks);
  }

  /** A chain of one binary operator becomes one node with its operands in order. */
  lemma AndChain(a: string, b: string, c: string)
    requires IsOperand(a) && a != "" && IsOperand(b) && b != "" && IsOperand(c) && c != ""
    ensures Resolve([a, "AND", b, "AND", c])
      == Ok(Expr(And, [Term(a), Term(b), Term(c)]))
  {
    AndChainPostfix(a, b, c);
    AndChainTree(a, b, c);
  }

  lemma GroupFirstPostfix(a: string, b: string, c: string)
    requires IsOperand(a) && a != "" && IsOperand(b) && b != "" && IsOperand(c) && c != ""
    ensures Postfix(["(", a, "OR", b, ")", "AND", c]) == Ok([a, b, "OR", c, "AND"])
  {
    var lexemes := ["(", a, "OR", b, ")", "AND", c];
    var states := [Shunt([], [], true), Shunt([], ["("], true), Shunt([a], ["("], false), Shunt([a], ["(", "OR"], true), Shunt([a, b], ["(", "OR"], false), Shunt([a, b, "OR"], [], false), Shunt([a, b, "OR"], ["AND"], true), Shunt([a, b, "OR", c], ["AND"], false)];
    forall k | 0 <= k < 7 ensures ShuntStep(states[k], lexemes[k]) == Ok(states[k + 1]) {
      if k == 0 {
        assert [] + ["("] == ["("];
      } else if k == 1 {
        assert [] + [a] == [a];
      } else if k == 2 {
        assert ["("] + ["OR"] == ["(", "OR"];
      } else if k == 3 {
        assert [a] + [b] == [a, b];
      } else if k == 4 {
        assert [a, b] + ["OR"] == [a, b, "OR"];
        assert ["(", "OR"][..1] == ["("];
        assert ["("][..0] == [];
      } else if k == 5 {
        assert [] + ["AND"] == ["AND"];
      } else {
        assert [a, b, "OR"] + [c] == [a, b, "OR", c];
      }
    }
    ShuntTrace(lexemes, states);
    DrainStep([a, b, "OR", c], [], "AND");
    assert [] + ["AND"] == ["AND"];
    assert [a, b, "OR", c] + ["AND"] == [a, b, "OR", c, "AND"];
  }

  lemma GroupFirstTree(a: string, b: string, c: string)
    requires IsOperand(a) && a != "" && IsOperand(b) && b != "" && IsOperand(c) && c != ""
    ensures BuildAll([a, b, "OR", c, "AND"]) == Ok([Expr(And, [Expr(Or, [Term(a), Term(b)]), Term(c)])])
  {
    var postfix := [a, b, "OR", c, "AND"];
    var stacks: seq<seq<Node>> := [[], [Term(a)], [Term(a), Term(b)], [Expr(Or, [Term(a), Term(b)])], [Expr(Or, [Term(a), Term(b)]), Term(c)], [Expr(And, [Expr(Or, [Term(a), Term(b)]), Term(c)])]];
    forall k | 0 <= k < 5 ensures BuildStep(stacks[k], postfix[k]) == Ok(stacks[k + 1]) {
      if k == 0 {
        assert [] + [Term(a)] == [Term(a)];
      } else if k == 1 {
        assert [Term(a)] + [Term(b)] == [Term(a), Term(b)];
      } else if k == 2 {
        assert [Term(a), Term(b)][..0] == [];
        assert [Term(a)] + [Term(b)] == [Term(a), Term(b)];
        assert [] + [Expr(Or, [Term(a), Term(b)])] == [Expr(Or, [Term(a), Term(b)])];
      } else if k == 3 {
        assert [Expr(Or, [Term(a), Term(b)])] + [Term(c)] == [Expr(Or, [Term(a), Term(b)]), Term(c)];
      } else {
        assert [Expr(Or, [Term(a), Term(b)]), Term(c)][..0] == [];
        assert [Expr(Or, [Term(a), Term(b)])] + [Term(c)] == [Expr(Or, [Term(a), Term(b)]), Term(c)];
        assert [] + [Expr(And, [Expr(Or, [Term(a), Term(b)]), Term(c)])] == [Expr(And, [Expr(Or, [Term(a), Term(b)]), Term(c)])];
      }
    }
    BuildTrace(postfix, stacks);
  }

  /** Parentheses override precedence. */
  lemma GroupFirst(a: string, b: string, c: string)
    requires IsOperand(a) && a != "" && IsOperand(b) && b != "" && IsOperand(c) && c != ""
    ensures Resolve(["(", a, "OR", b, ")", "AND", c])
      == Ok(Expr(And, [Expr(Or, [Term(a), Term(b)]), Term(c)]))
  {
    GroupFirstPostfix(a, b, c);
    GroupFirstTree(a, b, c);
  }

  lemma LoneTermPostfix(a: string)
    requires IsOperand(a) && a != ""
    ensures Postfix(["(", "(", a, ")", ")"]) == Ok([a])
  {
    var lexemes := ["(", "(", a, ")", ")"];
    var states := [Shunt([], [], true), Shunt([], ["("], true), Shunt([], ["(", "("], true), Shunt([a], ["(", "("], false), Shunt([a], ["("], false), Shunt([a], [], false)];
    forall k | 0 <= k < 5 ensures ShuntStep(states[k], lexemes[k]) == Ok(states[k + 1]) {
      if k == 0 {
        assert [] + ["("] == ["("];
      } else if k == 1 {
        assert ["("] + ["("] == ["(", "("];
      } else if k == 2 {
        assert [] + [a] == [a];
      } else if k == 3 {
        assert ["(", "("][..1] == ["("];
      } else {
        assert ["("][..0] == [];
      }
    }
    ShuntTrace(lexemes, states);
  }

  lemma LoneTermTree(a: string)
    requires IsOperand(a) && a != ""
    ensures BuildAll([a]) == Ok([Term(a)])
  {
    var postfix := [a];
    var stacks: seq<seq<Node>> := [[], [Term(a)]];
    forall k | 0 <= k < 1 ensures BuildStep(stacks[k], postfix[k]) == Ok(stacks[k + 1]) {
      if k == 0 {
        assert [] + [Term(a)] == [Term(a)];
      }
    }
    BuildTrace(postfix, stacks);
  }

  /** A lone term, however parenthesised, becomes `AND{[term]}`. */
  lemma LoneTerm(a: string)
    requires IsOperand(a) && a != ""
    ensures Resolve(["(", "(", a, ")", ")"])
      == Ok(Expr(And, [Term(a)]))
  {
    LoneTermPostfix(a);
    LoneTermTree(a);
  }

  /** A bare term resolves like a parenthesised one. */
  lemma BareTerm(a: string)
    requires IsOperand(a) && a != ""
    ensures Resolve([a]) == Ok(Expr(And, [Term(a)]))
  {
    var states := [Shunt([], [], true), Shunt([a], [], false)];
    forall k | 0 <= k < 1 ensures ShuntStep(states[k], [a][k]) == Ok(states[k + 1]) {
      assert [] + [a] == [a];
    }
    ShuntTrace([a], states);
    LoneTermTree(a);
  }

  /** AND or OR where an operand is expected: nothing to its left. */
  lemma BinaryAtStart(a: string)
    requires IsOperand(a)
    ensures Resolve(["AND", a]) == Err(MissingLeftOperand(And))
  {
    assert ["AND"][..0] == [];
    assert ["AND", a][..1] == ["AND"];
    ShuntErrPersists(["AND", a], 1, MissingLeftOperand(And));
  }

  /** NOT where an operator is expected. */
  lemma NotAfterOperand(a: string, b: string)
    requires IsOperand(a) && IsOperand(b)
    ensures Resolve([a, "NOT", b]) == Err(NotMisplaced)
  {
    var states := [Shunt([], [], true), Shunt([a], [], false)];
    forall k | 0 <= k < 1 ensures ShuntStep(states[k], [a][k]) == Ok(states[k + 1]) {
      assert [] + [a] == [a];
    }
    ShuntTrace([a], states);
    assert [a, "NOT"][..1] == [a];
    assert [a, "NOT", b][..2] == [a, "NOT"];
    ShuntErrPersists([a, "NOT", b], 2, NotMisplaced);
  }

  /** Input that stops where an operand is expected. */
  lemma EndsAfterOperator(a: string)
    requires IsOperand(a)
    ensures Resolve([a, "OR"]) == Err(EndsUnexpectedly)
  {
    var lexemes := [a, "OR"];
    var states := [Shunt([], [], true), Shunt([a], [], false), Shunt([a], ["OR"], true)];
    forall k | 0 <= k < 2 ensures ShuntStep(states[k], lexemes[k]) == Ok(states[k + 1]) {
      if k == 0 {
        assert [] + [a] == [a];
      } else {
        assert [] + ["OR"] == ["OR"];
      }
    }
    ShuntTrace(lexemes, states);
  }

  /** A `)` right after `(`: the group is missing its operand. */
  lemma EmptyGroup()
    ensures Resolve(["(", ")"]) == Err(EndsUnexpectedly)
  {
    var states := [Shunt([], [], true), Shunt([], ["("], true)];
    forall k | 0 <= k < 1 ensures ShuntStep(states[k], ["("][k]) == Ok(states[k + 1]) {
      assert [] + ["("] == ["("];
    }
    ShuntTrace(["("], states);
    assert ["(", ")"][..1] == ["("];
  }

  /** A `(` still open at the end of the input. */
  lemma UnclosedGroup(a: string)
    requires IsOperand(a)
    ensures Resolve(["(", a]) == Err(MissingCloseParen)
  {
    var lexemes := ["(", a];
    var states := [Shunt([], [], true), Shunt([], ["("], true), Shunt([a], ["("], false)];
    forall k | 0 <= k < 2 ensures ShuntStep(states[k], lexemes[k]) == Ok(states[k + 1]) {
      if k == 0 {
        assert [] + ["("] == ["("];
      } else {
        assert [] + [a] == [a];
      }
    }
    ShuntTrace(lexemes, states);
  }

  /** A `)` with no `(` before it. */
  lemma UnopenedClose(a: string)
    requires IsOperand(a)
    ensures Resolve([a, ")"]) == Err(MissingOpenParen)
  {
    var states := [Shunt([], [], true), Shunt([a], [], false)];
    assert ShuntAll([a]) == Ok(Shunt([a], [], false)) by {
      forall k | 0 <= k < 1 ensures ShuntStep(states[k], [a][k]) == Ok(states[k + 1]) {
        assert [] + [a] == [a];
      }
      ShuntTrace([a], states);
    }
    assert ShuntStep(Shunt([a], [], false), ")") == Err(MissingOpenParen);
    assert ShuntAll([a, ")"]) == Err(MissingOpenParen) by {
      assert [a, ")"][..1] == [a];
    }
  }

  /**
   * Two operands with no operator between them pass `toPostfix` and are only
   * rejected by the tree builder, as "did not reduce to one root".
   */
  lemma JuxtapositionRejectedLate(x: string, y: string)
    requires IsOperand(x) && IsOperand(y)
    ensures Postfix([x, y]) == Ok([x, y])
    ensures Resolve([x, y]) == Err(InvalidRoot)
  {
    var lexemes := [x, y];
    var states := [Shunt([], [], true), Shunt([x], [], false), Shunt([x, y], [], false)];
    forall k | 0 <= k < 2 ensures ShuntStep(states[k], lexemes[k]) == Ok(states[k + 1]) {
      if k == 0 {
        assert [] + [x] == [x];
      } else {
        assert [x] + [y] == [x, y];
      }
    }
    ShuntTrace(lexemes, states);
    var stacks: seq<seq<Node>> := [[], [Term(x)], [Term(x), Term(y)]];
    forall k | 0 <= k < 2 ensures BuildStep(stacks[k], lexemes[k]) == Ok(stacks[k + 1]) {
      if k == 0 {
        assert [] + [Term(x)] == [Term(x)];
      } else {
        assert [Term(x)] + [Term(y)] == [Term(x), Term(y)];
      }
    }
    BuildTrace(lexemes, stacks);
  }
}
