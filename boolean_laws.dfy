// Properties of the boolean semantics in boolean_search.dfy: the meaning of AND and OR
// pointwise, the algebraic laws the strategy's equivalent queries rely on, soundness of the
// resolver's operand flattening, and how the universe behaves for negated queries.

module BooleanLaws {
  import opened Wrappers
  import opened BooleanQuery
  import opened DocInfo
  import opened BooleanSearch

  // ---------------------------------------------------------------------------
  // AND and OR, pointwise
  // ---------------------------------------------------------------------------

  /** A document is in an intersection iff it is in every operand's set. */
  lemma {:induction false} MeetMembers(xs: seq<Node>, u: set<DocId>, s: Store, d: DocId)
    requires xs != []
    ensures d in Meet(xs, u, s) <==> forall i :: 0 <= i < |xs| ==> d in Eval(xs[i], u, s)
    decreases |xs|
  {
    if |xs| > 1 {
      var init := xs[..|xs| - 1];
      MeetMembers(init, u, s, d);
      assert forall i :: 0 <= i < |init| ==> init[i] == xs[i];
    }
  }

  /** A document is in a union iff it is in some operand's set. */
  lemma {:induction false} JoinMembers(xs: seq<Node>, u: set<DocId>, s: Store, d: DocId)
    ensures d in Join(xs, u, s) <==> exists i :: 0 <= i < |xs| && d in Eval(xs[i], u, s)
    decreases |xs|
  {
    if xs != [] {
      var init := xs[..|xs| - 1];
      JoinMembers(init, u, s, d);
      assert forall i :: 0 <= i < |init| ==> init[i] == xs[i];
    }
  }

  /** Membership in an AND node, with the empty-operand case. */
  lemma AndMembers(xs: seq<Node>, u: set<DocId>, s: Store, d: DocId)
    ensures d in Eval(Expr(And, xs), u, s) <==> xs != [] && forall c :: c in xs ==> d in Eval(c, u, s)
  {
    if xs != [] {
      MeetMembers(xs, u, s, d);
      if forall i :: 0 <= i < |xs| ==> d in Eval(xs[i], u, s) {
        forall c | c in xs
          ensures d in Eval(c, u, s)
        {
          var i :| 0 <= i < |xs| && xs[i] == c;
        }
      }
    }
  }

  /** Membership in an OR node. */
  lemma OrMembers(xs: seq<Node>, u: set<DocId>, s: Store, d: DocId)
    ensures d in Eval(Expr(Or, xs), u, s) <==> exists c :: c in xs && d in Eval(c, u, s)
  {
    JoinMembers(xs, u, s, d);
    if exists c :: c in xs && d in Eval(c, u, s) {
      var c :| c in xs && d in Eval(c, u, s);
      var i :| 0 <= i < |xs| && xs[i] == c;
    }
  }

  // ---------------------------------------------------------------------------
  // Commutativity, associativity, idempotence: only the operand set matters
  // ---------------------------------------------------------------------------

  /** AND depends only on which operands occur: order and repetition are irrelevant. */
  lemma AndOperandSet(xs: seq<Node>, ys: seq<Node>, u: set<DocId>, s: Store)
    requires xs != [] && ys != []
    requires forall c :: c in xs <==> c in ys
    ensures Eval(Expr(And, xs), u, s) == Eval(Expr(And, ys), u, s)
  {
    forall d
      ensures d in Eval(Expr(And, xs), u, s) <==> d in Eval(Expr(And, ys), u, s)
    {
      AndMembers(xs, u, s, d);
      AndMembers(ys, u, s, d);
    }
  }

  /** OR depends only on which operands occur. */
  lemma OrOperandSet(xs: seq<Node>, ys: seq<Node>, u: set<DocId>, s: Store)
    requires forall c :: c in xs <==> c in ys
    ensures Eval(Expr(Or, xs), u, s) == Eval(Expr(Or, ys), u, s)
  {
    forall d
      ensures d in Eval(Expr(Or, xs), u, s) <==> d in Eval(Expr(Or, ys), u, s)
    {
      OrMembers(xs, u, s, d);
      OrMembers(ys, u, s, d);
    }
  }

  lemma AndCommutes(a: Node, b: Node, u: set<DocId>, s: Store)
    ensures Eval(Expr(And, [a, b]), u, s) == Eval(Expr(And, [b, a]), u, s)
  {
    AndOperandSet([a, b], [b, a], u, s);
  }

  lemma OrCommutes(a: Node, b: Node, u: set<DocId>, s: Store)
    ensures Eval(Expr(Or, [a, b]), u, s) == Eval(Expr(Or, [b, a]), u, s)
  {
    OrOperandSet([a, b], [b, a], u, s);
  }

  /** `a AND a` is `a`: the single-operand AND a lone term resolves to. */
  lemma AndIdempotent(a: Node, u: set<DocId>, s: Store)
    ensures Eval(Expr(And, [a, a]), u, s) == Eval(Expr(And, [a]), u, s) == Eval(a, u, s)
  {
    AndOperandSet([a, a], [a], u, s);
    assert Meet([a], u, s) == Eval(a, u, s);
  }

  lemma OrIdempotent(a: Node, u: set<DocId>, s: Store)
    ensures Eval(Expr(Or, [a, a]), u, s) == Eval(a, u, s)
  {
    OrOperandSet([a, a], [a], u, s);
    assert [a][..0] == [];
    assert Join([a], u, s) == Join([], u, s) + Eval(a, u, s);
  }

  // ---------------------------------------------------------------------------
  // Flattening (src/search/boolean-query-resolver.ts:119-125) preserves meaning
  // ---------------------------------------------------------------------------

  /** Operands of a node that flattening may splice: AND/OR nodes built with no operands never occur. */
  predicate Spliceable(op: Operator, n: Node)
  {
    n.Expr? && n.op == op ==> n.operands != []
  }

  lemma FlattenMembers(op: Operator, n: Node, u: set<DocId>, s: Store, d: DocId)
    requires op != Not && Spliceable(op, n)
    ensures op == And ==> (d in Eval(n, u, s) <==> forall c :: c in FlattenInto(op, n) ==> d in Eval(c, u, s))
    ensures op == Or ==> (d in Eval(n, u, s) <==> exists c :: c in FlattenInto(op, n) && d in Eval(c, u, s))
  {
    if n.Expr? && n.op == op {
      if op == And {
        AndMembers(n.operands, u, s, d);
      } else {
        OrMembers(n.operands, u, s, d);
      }
    }
  }

  /**
   * Splicing same-operator operands into their parent, as the resolver does when it
   * builds a binary node, leaves the denotation unchanged: associativity.
   */
  lemma FlattenPreservesMeaning(op: Operator, l: Node, r: Node, u: set<DocId>, s: Store)
    requires op != Not && Spliceable(op, l) && Spliceable(op, r)
    ensures Eval(Expr(op, FlattenInto(op, l) + FlattenInto(op, r)), u, s) == Eval(Expr(op, [l, r]), u, s)
  {
    var flat := FlattenInto(op, l) + FlattenInto(op, r);
    forall d
      ensures d in Eval(Expr(op, flat), u, s) <==> d in Eval(Expr(op, [l, r]), u, s)
    {
      FlattenMembers(op, l, u, s, d);
      FlattenMembers(op, r, u, s, d);
      if op == And {
        AndMembers(flat, u, s, d);
        AndMembers([l, r], u, s, d);
        assert FlattenInto(op, l) != [];
      } else {
        OrMembers(flat, u, s, d);
        OrMembers([l, r], u, s, d);
      }
    }
  }

  // ---------------------------------------------------------------------------
  // Distributivity, De Morgan, absorption, negation
  // ---------------------------------------------------------------------------

  function Negations(xs: seq<Node>): (r: seq<Node>)
    ensures |r| == |xs| && forall i :: 0 <= i < |xs| ==> r[i] == Expr(Not, [xs[i]])
  {
    seq(|xs|, i requires 0 <= i < |xs| => Expr(Not, [xs[i]]))
  }

  function Conjoined(a: Node, xs: seq<Node>): (r: seq<Node>)
    ensures |r| == |xs| && forall i :: 0 <= i < |xs| ==> r[i] == Expr(And, [a, xs[i]])
  {
    seq(|xs|, i requires 0 <= i < |xs| => Expr(And, [a, xs[i]]))
  }

  function Disjoined(a: Node, xs: seq<Node>): (r: seq<Node>)
    ensures |r| == |xs| && forall i :: 0 <= i < |xs| ==> r[i] == Expr(Or, [a, xs[i]])
  {
    seq(|xs|, i requires 0 <= i < |xs| => Expr(Or, [a, xs[i]]))
  }

  /** A two-operand AND is the intersection of the two sets. */
  lemma AndPair(a: Node, b: Node, u: set<DocId>, s: Store)
    ensures Eval(Expr(And, [a, b]), u, s) == Eval(a, u, s) * Eval(b, u, s)
  {
    assert [a, b][..1] == [a];
    assert Meet([a, b], u, s) == Meet([a], u, s) * Eval(b, u, s);
  }

  /** A two-operand OR is the union of the two sets. */
  lemma OrPair(a: Node, b: Node, u: set<DocId>, s: Store)
    ensures Eval(Expr(Or, [a, b]), u, s) == Eval(a, u, s) + Eval(b, u, s)
  {
    assert [a, b][..1] == [a];
    assert [a][..0] == [];
    assert Join([a, b], u, s) == Join([a], u, s) + Eval(b, u, s);
    assert Join([a], u, s) == Join([], u, s) + Eval(a, u, s);
  }

  /** a AND (x1 OR … OR xn) == (a AND x1) OR … OR (a AND xn). */
  lemma AndDistributesOverOr(a: Node, xs: seq<Node>, u: set<DocId>, s: Store)
    ensures Eval(Expr(And, [a, Expr(Or, xs)]), u, s) == Eval(Expr(Or, Conjoined(a, xs)), u, s)
  {
    forall d
      ensures d in Eval(Expr(And, [a, Expr(Or, xs)]), u, s) <==> d in Eval(Expr(Or, Conjoined(a, xs)), u, s)
    {
      AndDistributesAt(a, xs, u, s, d);
    }
  }

  lemma AndDistributesAt(a: Node, xs: seq<Node>, u: set<DocId>, s: Store, d: DocId)
    ensures d in Eval(Expr(And, [a, Expr(Or, xs)]), u, s) <==> d in Eval(Expr(Or, Conjoined(a, xs)), u, s)
  {
    var ys := Conjoined(a, xs);
    AndPair(a, Expr(Or, xs), u, s);
    JoinMembers(xs, u, s, d);
    JoinMembers(ys, u, s, d);
    forall i | 0 <= i < |xs|
      ensures d in Eval(ys[i], u, s) <==> d in Eval(a, u, s) && d in Eval(xs[i], u, s)
    {
      AndPair(a, xs[i], u, s);
    }
  }

  /** a OR (x1 AND … AND xn) == (a OR x1) AND … AND (a OR xn), for n ≥ 1. */
  lemma OrDistributesOverAnd(a: Node, xs: seq<Node>, u: set<DocId>, s: Store)
    requires xs != []
    ensures Eval(Expr(Or, [a, Expr(And, xs)]), u, s) == Eval(Expr(And, Disjoined(a, xs)), u, s)
  {
    forall d
      ensures d in Eval(Expr(Or, [a, Expr(And, xs)]), u, s) <==> d in Eval(Expr(And, Disjoined(a, xs)), u, s)
    {
      OrDistributesAt(a, xs, u, s, d);
    }
  }

  lemma OrDistributesAt(a: Node, xs: seq<Node>, u: set<DocId>, s: Store, d: DocId)
    requires xs != []
    ensures d in Eval(Expr(Or, [a, Expr(And, xs)]), u, s) <==> d in Eval(Expr(And, Disjoined(a, xs)), u, s)
  {
    var ys := Disjoined(a, xs);
    OrPair(a, Expr(And, xs), u, s);
    MeetMembers(xs, u, s, d);
    MeetMembers(ys, u, s, d);
    forall i | 0 <= i < |xs|
      ensures d in Eval(ys[i], u, s) <==> d in Eval(a, u, s) || d in Eval(xs[i], u, s)
    {
      OrPair(a, xs[i], u, s);
    }
  }

  /** NOT (x1 OR … OR xn) == NOT x1 AND … AND NOT xn, for n ≥ 1. */
  lemma DeMorganOr(xs: seq<Node>, u: set<DocId>, s: Store)
    requires xs != []
    ensures Eval(Expr(Not, [Expr(Or, xs)]), u, s) == Eval(Expr(And, Negations(xs)), u, s)
  {
    var ys := Negations(xs);
    forall d
      ensures d in Eval(Expr(Not, [Expr(Or, xs)]), u, s) <==> d in Eval(Expr(And, ys), u, s)
    {
      JoinMembers(xs, u, s, d);
      MeetMembers(ys, u, s, d);
    }
  }

  /** NOT (x1 AND … AND xn) == NOT x1 OR … OR NOT xn, for n ≥ 1. */
  lemma DeMorganAnd(xs: seq<Node>, u: set<DocId>, s: Store)
    requires xs != []
    ensures Eval(Expr(Not, [Expr(And, xs)]), u, s) == Eval(Expr(Or, Negations(xs)), u, s)
  {
    var ys := Negations(xs);
    forall d
      ensures d in Eval(Expr(Not, [Expr(And, xs)]), u, s) <==> d in Eval(Expr(Or, ys), u, s)
    {
      MeetMembers(xs, u, s, d);
      JoinMembers(ys, u, s, d);
    }
  }

  lemma OrAbsorbsAnd(a: Node, b: Node, u: set<DocId>, s: Store)
    ensures Eval(Expr(Or, [a, Expr(And, [a, b])]), u, s) == Eval(a, u, s)
  {
    forall d
      ensures d in Eval(Expr(Or, [a, Expr(And, [a, b])]), u, s) <==> d in Eval(a, u, s)
    {
      OrMembers([a, Expr(And, [a, b])], u, s, d);
      AndMembers([a, b], u, s, d);
    }
  }

  lemma AndAbsorbsOr(a: Node, b: Node, u: set<DocId>, s: Store)
    ensures Eval(Expr(And, [a, Expr(Or, [a, b])]), u, s) == Eval(a, u, s)
  {
    forall d
      ensures d in Eval(Expr(And, [a, Expr(Or, [a, b])]), u, s) <==> d in Eval(a, u, s)
    {
      AndMembers([a, Expr(Or, [a, b])], u, s, d);
      OrMembers([a, b], u, s, d);
    }
  }

  /** Double negation gives back the operand, cut down to the universe. */
  lemma DoubleNegation(x: Node, u: set<DocId>, s: Store)
    ensures Eval(Expr(Not, [Expr(Not, [x])]), u, s) == Eval(x, u, s) * u
  {
  }

  lemma TripleNegation(x: Node, u: set<DocId>, s: Store)
    ensures Eval(Expr(Not, [Expr(Not, [Expr(Not, [x])])]), u, s) == Eval(Expr(Not, [x]), u, s)
  {
  }

  // ---------------------------------------------------------------------------
  // The universe of negated queries
  // ---------------------------------------------------------------------------

  /** Below a NOT nothing is positive, however many NOTs follow. */
  lemma {:induction false} NothingPositiveUnderNot(n: Node)
    ensures PositiveTerms(n, true) == {}
    decreases n, 1
  {
    match n
    case Term(_) =>
    case Expr(_, xs) => NothingPositiveUnderNotSeq(xs);
  }

  lemma {:induction false} NothingPositiveUnderNotSeq(xs: seq<Node>)
    ensures PositiveTermsSeq(xs, true) == {}
    decreases xs, 0
  {
    if xs != [] {
      NothingPositiveUnderNotSeq(xs[..|xs| - 1]);
      NothingPositiveUnderNot(xs[|xs| - 1]);
    }
  }

  /** No NOT anywhere in the tree. */
  predicate NotFree(n: Node)
    decreases n
  {
    match n
    case Term(_) => true
    case Expr(op, xs) => op != Not && forall i :: 0 <= i < |xs| ==> NotFree(xs[i])
  }

  /** Without NOT the universe plays no part, and every match comes from some leaf. */
  lemma {:induction false} NotFreeFacts(n: Node, u: set<DocId>, u': set<DocId>, s: Store)
    requires NotFree(n)
    ensures Eval(n, u, s) == Eval(n, u', s)
    ensures Eval(n, u, s) <= DocsOf(AllTerms(n), s)
    decreases n
  {
    match n
    case Term(t) =>
      assert t in AllTerms(n);
    case Expr(op, xs) =>
      forall i | 0 <= i < |xs|
        ensures Eval(xs[i], u, s) == Eval(xs[i], u', s)
        ensures Eval(xs[i], u, s) <= DocsOf(AllTerms(n), s)
      {
        NotFreeFacts(xs[i], u, u', s);
        ChildTermsWithin(xs, i);
        DocsOfMono(AllTerms(xs[i]), AllTerms(n), s);
      }
      forall d
        ensures d in Eval(n, u, s) <==> d in Eval(n, u', s)
        ensures d in Eval(n, u, s) ==> d in DocsOf(AllTerms(n), s)
      {
        if op == And {
          if xs != [] {
            MeetMembers(xs, u, s, d);
            MeetMembers(xs, u', s, d);
          }
        } else {
          JoinMembers(xs, u, s, d);
          JoinMembers(xs, u', s, d);
        }
      }
  }

  lemma DocsOfMono(ts: set<string>, ts': set<string>, s: Store)
    requires ts <= ts'
    ensures DocsOf(ts, s) <= DocsOf(ts', s)
  {
  }

  /**
   * Double negation at the level of a whole query: for a NOT-free operand, the universe
   * of `NOT NOT x` (all of x's leaves, there being no positive one) contains everything x
   * matches, so both queries match the same documents.
   *
   * The laws above (distributivity, De Morgan, absorption) hold for `Eval` over one shared
   * universe.  Two whole queries related by such a law can seed different universes when
   * they contain a NOT, so a law carries over to `searchBoolean` only through a lifting
   * lemma like this one.
   */
  lemma DoubleNegationQuery(x: Node, s: Store)
    requires NotFree(x)
    ensures Matches(Expr(Not, [Expr(Not, [x])]), s) == Matches(x, s)
  {
    var n := Expr(Not, [x]);
    var nn := Expr(Not, [n]);
    NothingPositiveUnderNot(x);
    assert [x][..0] == [] && [n][..0] == [];
    assert PositiveTerms(n, true) == PositiveTermsSeq([x], true) == PositiveTerms(x, true);
    assert PositiveTerms(nn, false) == PositiveTermsSeq([n], true) == PositiveTerms(n, true);
    assert AllTerms(n) == AllTermsSeq([x]) == AllTerms(x);
    assert AllTerms(nn) == AllTermsSeq([n]) == AllTerms(n);
    assert SeedTerms(nn) == AllTerms(x);
    NotFreeFacts(x, Universe(nn, s), Universe(x, s), s);
    var U := Universe(nn, s);
    assert Eval(x, U, s) <= U;
    assert Eval(n, U, s) == U - Eval(x, U, s);
    assert Eval(nn, U, s) == U - Eval(n, U, s);
  }
}

/**
 * Laws stated on whole queries, through the resolver: what `searchBoolean` returns
 * for two lexeme lists, and the effect of the sticky NOT flag on the universe.
 */
module BooleanQueryLaws {
  import opened Wrappers
  import opened BooleanQuery
  import opened DocInfo
  import opened BooleanSearch
  import opened BooleanLaws
  import opened QueryResolverExamples

  /** `NOT NOT a` and `a` score the same documents. */
  lemma DoubleNegationScores(a: string, s: Store)
    requires IsOperand(a) && a != ""
    ensures BooleanScores(["NOT", "NOT", a], s) == BooleanScores([a], s)
  {
    NotNests(a);
    BareTerm(a);
    DoubleNegationQuery(Term(a), s);
    var lone := Expr(And, [Term(a)]);
    assert Matches(lone, s) == Matches(Term(a), s) by {
      assert Meet([Term(a)], Universe(lone, s), s) == TermDocs(s, a);
    }
  }

  /**
   * Because the NOT flag is sticky, a doubly negated operand inside a larger query no
   * longer seeds the universe: `b OR NOT NOT a` matches only b's documents, while
   * `b OR a` matches both terms' documents.  It is the example of a law that holds under
   * one universe (`NOT NOT a == a`) failing between two whole queries.
   */
  lemma StickyNegationInContext(a: string, b: string, da: DocId, db: DocId)
    requires a != b && da != db
    ensures var s := Store(0, map[a := [da], b := [db]], map[], map[], map[], {});
            && Matches(Expr(Or, [Term(b), Expr(Not, [Expr(Not, [Term(a)])])]), s) == {db}
            && Matches(Expr(Or, [Term(b), Term(a)]), s) == {da, db}
  {
    var s := Store(0, map[a := [da], b := [db]], map[], map[], map[], {});
    var na := Expr(Not, [Term(a)]);
    var nna := Expr(Not, [na]);
    var q1 := Expr(Or, [Term(b), nna]);
    var q2 := Expr(Or, [Term(b), Term(a)]);
    assert TermDocs(s, a) == {da} && TermDocs(s, b) == {db} by {
      assert s.DocIds(a) == [da] && s.DocIds(b) == [db];
    }
    assert [Term(a)][..0] == [] && [na][..0] == [];
    assert [Term(b), nna][..1] == [Term(b)] && [Term(b), Term(a)][..1] == [Term(b)];
    NothingPositiveUnderNot(nna);
    assert PositiveTerms(nna, false) == PositiveTermsSeq([na], true) == PositiveTerms(na, true) == {};
    assert PositiveTerms(q1, false) == PositiveTermsSeq([Term(b)], false) + {} == {b};
    assert PositiveTermsSeq([Term(b)], false) == {b};
    assert PositiveTerms(q2, false) == PositiveTermsSeq([Term(b), Term(a)], false);
    assert PositiveTermsSeq([Term(b), Term(a)], false) == {b} + PositiveTerms(Term(a), false);
    DocsOfAdd({}, b, s);
    DocsOfAdd({b}, a, s);
    assert {} + {b} == {b} && {b} + {a} == {b, a};
    var U1 := Universe(q1, s);
    assert U1 == {db};
    assert Eval(na, U1, s) == U1 - {da};
    assert Eval(nna, U1, s) == U1 - Eval(na, U1, s) == {};
    assert Join([Term(b)], U1, s) == {db};
    assert Universe(q2, s) == {da, db};
    assert Join([Term(b)], Universe(q2, s), s) == {db};
    assert Join([Term(b), nna], U1, s) == Join([Term(b)], U1, s) + Eval(nna, U1, s);
    assert Join([Term(b), Term(a)], Universe(q2, s), s) == {db} + {da};
  }
}
