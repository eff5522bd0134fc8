// The boolean search strategy (src/search/strategies/boolean.ts): resolve the query into
// an expression tree, fetch each leaf's documents through a per-query cache, take the
// universe from the "positive" leaves, and evaluate the tree with set algebra using an
// explicit post-order stack.  Every matching document scores 1.0.
//
// The recursive functions `Eval`, `AllTerms`, `PositiveTerms` and `Universe` are the
// reference semantics; the methods, which follow the source's work stacks and loops,
// are proved to compute exactly them.

module BooleanSearch {
  import opened Wrappers
  import opened BooleanQuery
  import opened DocInfo

  // ---------------------------------------------------------------------------
  // Reference semantics
  // ---------------------------------------------------------------------------

  /** The documents of a term, as a set (duplicates in the posting list collapse). */
  function TermDocs(s: Store, t: string): set<DocId>
  {
    set d | d in s.DocIds(t)
  }

  /**
   * What an expression denotes over universe `u`: a leaf is its documents, NOT is the
   * universe minus its (first) operand, AND intersects its operands, OR unites them.
   * An operator with no operands denotes the empty set.
   */
  function Eval(n: Node, u: set<DocId>, s: Store): set<DocId>
    decreases n, 1
  {
    match n
    case Term(t) => TermDocs(s, t)
    case Expr(Not, xs) => if xs == [] then {} else u - Eval(xs[0], u, s)
    case Expr(And, xs) => if xs == [] then {} else Meet(xs, u, s)
    case Expr(Or, xs) => Join(xs, u, s)
  }

  /** Intersection of the operands' denotations, folded from the left. */
  function Meet(xs: seq<Node>, u: set<DocId>, s: Store): set<DocId>
    requires xs != []
    decreases xs, 0
  {
    if |xs| == 1 then Eval(xs[0], u, s)
    else Meet(xs[..|xs| - 1], u, s) * Eval(xs[|xs| - 1], u, s)
  }

  /** Union of the operands' denotations, folded from the left. */
  function Join(xs: seq<Node>, u: set<DocId>, s: Store): set<DocId>
    decreases xs, 0
  {
    if xs == [] then {}
    else Join(xs[..|xs| - 1], u, s) + Eval(xs[|xs| - 1], u, s)
  }

  /** Every leaf term of an expression. */
  function AllTerms(n: Node): set<string>
    decreases n, 1
  {
    match n
    case Term(t) => {t}
    case Expr(_, xs) => AllTermsSeq(xs)
  }

  function AllTermsSeq(xs: seq<Node>): set<string>
    decreases xs, 0
  {
    if xs == [] then {} else AllTermsSeq(xs[..|xs| - 1]) + AllTerms(xs[|xs| - 1])
  }

  /**
   * The leaf terms with no NOT ancestor.  `underNot` is sticky: once set it stays set
   * for the whole subtree, whatever the number of NOTs.
   */
  function PositiveTerms(n: Node, underNot: bool): set<string>
    decreases n, 1
  {
    match n
    case Term(t) => if underNot then {} else {t}
    case Expr(op, xs) => PositiveTermsSeq(xs, underNot || op == Not)
  }

  function PositiveTermsSeq(xs: seq<Node>, underNot: bool): set<string>
    decreases xs, 0
  {
    if xs == [] then {}
    else PositiveTermsSeq(xs[..|xs| - 1], underNot) + PositiveTerms(xs[|xs| - 1], underNot)
  }

  /** The terms whose documents make up the universe. */
  function SeedTerms(n: Node): set<string>
  {
    var positive := PositiveTerms(n, false);
    if positive != {} then positive else AllTerms(n)
  }

  /** The union of the documents of a set of terms. */
  function DocsOf(ts: set<string>, s: Store): set<DocId>
  {
    set t, d | t in ts && d in TermDocs(s, t) :: d
  }

  function Universe(n: Node, s: Store): set<DocId>
  {
    DocsOf(SeedTerms(n), s)
  }

  /** The documents a whole query tree matches. */
  function Matches(n: Node, s: Store): set<DocId>
  {
    Eval(n, Universe(n, s), s)
  }

  /** Scores of a boolean search: no terms, no results; a query that does not parse fails. */
  function BooleanScores(terms: seq<string>, s: Store): Result<map<DocId, real>, ParseError>
  {
    if terms == [] then Ok(map[])
    else
      match Resolve(terms)
      case Err(e) => Err(e)
      case Ok(tree) => Ok(map d | d in Matches(tree, s) :: 1.0)
  }

  // ---------------------------------------------------------------------------
  // Work-stack frames and their measures
  // ---------------------------------------------------------------------------

  /** A stack entry: a node and a flag (`underNot` when collecting, `visited` when evaluating). */
  datatype Frame = Frame(node: Node, flag: bool)

  function Size(n: Node): nat
    decreases n, 1
  {
    match n
    case Term(_) => 1
    case Expr(_, xs) => 1 + SizeSeq(xs)
  }

  function SizeSeq(xs: seq<Node>): nat
    decreases xs, 0
  {
    if xs == [] then 0 else SizeSeq(xs[..|xs| - 1]) + Size(xs[|xs| - 1])
  }

  function FramesSize(st: seq<Frame>): nat
  {
    if st == [] then 0 else FramesSize(st[..|st| - 1]) + Size(st[|st| - 1].node)
  }

  /** Work left on the evaluation stack: an unvisited frame expands, a visited one retires. */
  function Pending(st: seq<Frame>): nat
  {
    if st == [] then 0
    else Pending(st[..|st| - 1]) + (if st[|st| - 1].flag then 1 else 2 * Size(st[|st| - 1].node))
  }

  function FramesAll(st: seq<Frame>): set<string>
  {
    if st == [] then {} else FramesAll(st[..|st| - 1]) + AllTerms(st[|st| - 1].node)
  }

  function FramesPositive(st: seq<Frame>): set<string>
  {
    if st == [] then {}
    else FramesPositive(st[..|st| - 1]) + PositiveTerms(st[|st| - 1].node, st[|st| - 1].flag)
  }

  lemma SeqPrefixStep<T>(xs: seq<T>, i: nat)
    requires 0 < i <= |xs|
    ensures xs[..i][..i - 1] == xs[..i - 1] && xs[..i][i - 1] == xs[i - 1]
  {
  }

  // ---------------------------------------------------------------------------
  // collectTerms
  // ---------------------------------------------------------------------------

  /** Walks the tree with an explicit stack, children pushed in reverse. */
  method CollectTerms(expr: Node) returns (positive: set<string>, all: set<string>)
    ensures positive == PositiveTerms(expr, false)
    ensures all == AllTerms(expr)
  {
    positive, all := {}, {};
    var stack := [Frame(expr, false)];
    assert stack[..0] == [];
    while stack != []
      invariant all + FramesAll(stack) == AllTerms(expr)
      invariant positive + FramesPositive(stack) == PositiveTerms(expr, false)
      decreases FramesSize(stack)
    {
      var top := stack[|stack| - 1];
      stack := stack[..|stack| - 1];
      match top.node
      case Term(t) =>
        all := all + {t};
        if !top.flag {
          positive := positive + {t};
        }
      case Expr(op, xs) =>
        stack := PushChildren(stack, xs, top.flag || op == Not);
    }
  }

  /** Pushes the children of a node, last child first, so that the first is popped next. */
  method PushChildren(stack: seq<Frame>, xs: seq<Node>, under: bool) returns (r: seq<Frame>)
    ensures FramesAll(r) == FramesAll(stack) + AllTermsSeq(xs)
    ensures FramesPositive(r) == FramesPositive(stack) + PositiveTermsSeq(xs, under)
    ensures FramesSize(r) == FramesSize(stack) + SizeSeq(xs)
  {
    r := stack;
    var i := |xs|;
    assert xs[..i] == xs;
    while i > 0
      invariant 0 <= i <= |xs|
      invariant FramesAll(r) + AllTermsSeq(xs[..i]) == FramesAll(stack) + AllTermsSeq(xs)
      invariant FramesPositive(r) + PositiveTermsSeq(xs[..i], under)
             == FramesPositive(stack) + PositiveTermsSeq(xs, under)
      invariant FramesSize(r) + SizeSeq(xs[..i]) == FramesSize(stack) + SizeSeq(xs)
    {
      SeqPrefixStep(xs, i);
      i := i - 1;
      var pushed := r + [Frame(xs[i], under)];
      assert pushed[..|pushed| - 1] == r;
      r := pushed;
    }
    assert xs[..0] == [];
  }

  // ---------------------------------------------------------------------------
  // getTermDocs: the per-query term cache
  // ---------------------------------------------------------------------------

  /** The service requests a run of cache misses makes, in order. */
  function Fetches(ts: seq<string>): (r: seq<Call>)
    ensures |r| == |ts|
  {
    seq(|ts|, i requires 0 <= i < |ts| => DocIdsForTerm(ts[i]))
  }

  predicate Distinct(ts: seq<string>)
  {
    forall i, j :: 0 <= i < j < |ts| ==> ts[i] != ts[j]
  }

  /**
   * The term cache of one search: every entry holds its term's documents, and the
   * service has been asked once for each cached term and for nothing else.
   */
  class TermCache {
    var entries: map<string, set<DocId>>
    const svc: DocumentInfoService
    ghost const before: seq<Call>
    ghost var fetched: seq<string>

    ghost predicate Valid()
      reads this, svc
    {
      && svc.calls == before + Fetches(fetched)
      && Distinct(fetched)
      && (forall t :: t in entries <==> t in fetched)
      && (forall t :: t in entries ==> entries[t] == TermDocs(svc.store, t))
    }

    constructor (svc: DocumentInfoService)
      ensures Valid() && entries == map[] && fetched == []
      ensures this.svc == svc && before == svc.calls
    {
      this.svc := svc;
      entries := map[];
      before := svc.calls;
      fetched := [];
    }

    /** A hit returns the cached set (a Set is never falsy); a miss asks the service once. */
    method Get(term: string) returns (d: set<DocId>)
      requires Valid()
      modifies this, svc
      ensures Valid()
      ensures d == TermDocs(svc.store, term)
      ensures term in old(entries) ==> fetched == old(fetched) && svc.calls == old(svc.calls)
      ensures term !in old(entries) ==> fetched == old(fetched) + [term]
      ensures entries.Keys == old(entries.Keys) + {term}
    {
      if term in entries {
        d := entries[term];
        return;
      }
      var ids := svc.GetDocIdsForTerm(term);
      d := set x | x in ids;
      entries := entries[term := d];
      assert Fetches(fetched + [term]) == Fetches(fetched) + [DocIdsForTerm(term)];
      fetched := fetched + [term];
    }
  }

  // ---------------------------------------------------------------------------
  // computeUniverse
  // ---------------------------------------------------------------------------

  lemma DocsOfAdd(ts: set<string>, t: string, s: Store)
    ensures DocsOf(ts + {t}, s) == DocsOf(ts, s) + TermDocs(s, t)
  {
    forall d | d in DocsOf(ts + {t}, s)
      ensures d in DocsOf(ts, s) + TermDocs(s, t)
    {
      var t' :| t' in ts + {t} && d in TermDocs(s, t');
      if t' != t {
        assert t' in ts;
      }
    }
  }

  method ComputeUniverse(expr: Node, cache: TermCache) returns (universe: set<DocId>)
    requires cache.Valid()
    modifies cache, cache.svc
    ensures cache.Valid()
    ensures universe == Universe(expr, cache.svc.store)
    ensures cache.entries.Keys == old(cache.entries.Keys) + SeedTerms(expr)
  {
    var positive, all := CollectTerms(expr);
    var seed := if positive != {} then positive else all;
    universe := {};
    var rest := seed;
    ghost var done: set<string> := {};
    ghost var keys0 := cache.entries.Keys;
    while rest != {}
      invariant rest + done == seed && rest !! done
      invariant cache.Valid()
      invariant universe == DocsOf(done, cache.svc.store)
      invariant cache.entries.Keys == keys0 + done
      decreases rest
    {
      var t :| t in rest;
      var ids := cache.Get(t);
      DocsOfAdd(done, t, cache.svc.store);
      universe := universe + ids;
      rest := rest - {t};
      done := done + {t};
    }
  }

  // ---------------------------------------------------------------------------
  // evalExpression
  // ---------------------------------------------------------------------------

  /** Every result recorded so far is the node's denotation. */
  ghost predicate ResultsSound(res: map<Node, set<DocId>>, u: set<DocId>, s: Store)
  {
    forall k :: k in res ==> res[k] == Eval(k, u, s)
  }

  /** A node is already evaluated, or some frame above position `i` still holds it. */
  ghost predicate Scheduled(c: Node, res: map<Node, set<DocId>>, st: seq<Frame>, i: int)
  {
    c in res || exists j :: 0 <= j < |st| && i < j && st[j].node == c
  }

  /** Post-order shape: each visited expression's operands are done or above it. */
  ghost predicate StackOrdered(st: seq<Frame>, res: map<Node, set<DocId>>)
  {
    forall i, c :: 0 <= i < |st| && st[i].flag && st[i].node.Expr? && c in st[i].node.operands && c.Expr?
      ==> Scheduled(c, res, st, i)
  }

  /** The set of an operand: a leaf goes through the cache, an expression is looked up. */
  method OperandDocs(c: Node, res: map<Node, set<DocId>>, u: set<DocId>, cache: TermCache)
    returns (d: set<DocId>)
    requires cache.Valid() && ResultsSound(res, u, cache.svc.store)
    requires c.Expr? ==> c in res
    modifies cache, cache.svc
    ensures cache.Valid()
    ensures d == Eval(c, u, cache.svc.store)
    ensures cache.entries.Keys == old(cache.entries.Keys) + (if c.Term? then {c.term} else {})
  {
    if c.Term? {
      d := cache.Get(c.term);
    } else {
      d := res[c];
    }
  }

  /** The set of operand `i` of `xs`; the terms it caches are among the operands' leaves. */
  method OperandAt(xs: seq<Node>, i: nat, res: map<Node, set<DocId>>, u: set<DocId>, cache: TermCache)
    returns (d: set<DocId>)
    requires i < |xs|
    requires cache.Valid() && ResultsSound(res, u, cache.svc.store)
    requires forall c :: c in xs && c.Expr? ==> c in res
    modifies cache, cache.svc
    ensures cache.Valid()
    ensures d == Eval(xs[i], u, cache.svc.store)
    ensures cache.entries.Keys <= old(cache.entries.Keys) + AllTermsSeq(xs)
  {
    assert xs[i] in xs;
    d := OperandDocs(xs[i], res, u, cache);
    LeafWithin(xs, i);
  }

  lemma {:induction false} MeetPrefix(xs: seq<Node>, i: nat, u: set<DocId>, s: Store)
    requires 0 < i <= |xs|
    ensures Meet(xs, u, s) <= Meet(xs[..i], u, s)
    decreases |xs|
  {
    if i < |xs| {
      MeetPrefix(xs[..|xs| - 1], i, u, s);
      assert xs[..|xs| - 1][..i] == xs[..i];
    } else {
      assert xs[..i] == xs;
    }
  }

  /** Once a prefix's intersection is empty, so is the whole intersection. */
  lemma MeetVanishes(xs: seq<Node>, i: nat, u: set<DocId>, s: Store)
    requires 0 < i <= |xs| && Meet(xs[..i], u, s) == {}
    ensures Meet(xs, u, s) == {}
  {
    MeetPrefix(xs, i, u, s);
  }

  lemma MeetStep(xs: seq<Node>, i: nat, u: set<DocId>, s: Store)
    requires 0 < i < |xs|
    ensures Meet(xs[..i + 1], u, s) == Meet(xs[..i], u, s) * Eval(xs[i], u, s)
  {
    assert xs[..i + 1][..i] == xs[..i];
  }

  lemma JoinStep(xs: seq<Node>, i: nat, u: set<DocId>, s: Store)
    requires 0 <= i < |xs|
    ensures Join(xs[..i + 1], u, s) == Join(xs[..i], u, s) + Eval(xs[i], u, s)
  {
    assert xs[..i + 1][..i] == xs[..i];
  }

  /** Intersects the operands left to right, stopping as soon as the running set is empty. */
  method EvalAnd(xs: seq<Node>, res: map<Node, set<DocId>>, u: set<DocId>, cache: TermCache)
    returns (acc: set<DocId>)
    requires xs != []
    requires cache.Valid() && ResultsSound(res, u, cache.svc.store)
    requires forall c :: c in xs && c.Expr? ==> c in res
    modifies cache, cache.svc
    ensures cache.Valid()
    ensures acc == Meet(xs, u, cache.svc.store)
    ensures cache.entries.Keys <= old(cache.entries.Keys) + AllTermsSeq(xs)
  {
    ghost var s := cache.svc.store;
    ghost var keys := cache.entries.Keys + AllTermsSeq(xs);
    acc := OperandAt(xs, 0, res, u, cache);
    assert xs[..1] == [xs[0]];
    var i := 1;
    while i < |xs|
      invariant 1 <= i <= |xs|
      invariant cache.Valid() && cache.svc.store == s
      invariant acc == Meet(xs[..i], u, s)
      invariant cache.entries.Keys <= keys
    {
      var next := OperandAt(xs, i, res, u, cache);
      MeetStep(xs, i, u, s);
      acc := acc * next;
      i := i + 1;
      if acc == {} {
        break;
      }
    }
    MeetDone(xs, i, acc, u, s);
  }

  /** The loop of `EvalAnd` stops with the whole intersection: at the end, or once it is empty. */
  lemma MeetDone(xs: seq<Node>, i: nat, acc: set<DocId>, u: set<DocId>, s: Store)
    requires 1 <= i <= |xs| && acc == Meet(xs[..i], u, s)
    requires i == |xs| || acc == {}
    ensures acc == Meet(xs, u, s)
  {
    if acc == {} {
      MeetVanishes(xs, i, u, s);
    } else {
      assert xs[..i] == xs;
    }
  }

  /** Unites the operands left to right. */
  method EvalOr(xs: seq<Node>, res: map<Node, set<DocId>>, u: set<DocId>, cache: TermCache)
    returns (out: set<DocId>)
    requires cache.Valid() && ResultsSound(res, u, cache.svc.store)
    requires forall c :: c in xs && c.Expr? ==> c in res
    modifies cache, cache.svc
    ensures cache.Valid()
    ensures out == Join(xs, u, cache.svc.store)
    ensures cache.entries.Keys <= old(cache.entries.Keys) + AllTermsSeq(xs)
  {
    ghost var s := cache.svc.store;
    ghost var keys := cache.entries.Keys + AllTermsSeq(xs);
    out := {};
    var i := 0;
    assert xs[..0] == [];
    while i < |xs|
      invariant 0 <= i <= |xs|
      invariant cache.Valid() && cache.svc.store == s
      invariant out == Join(xs[..i], u, s)
      invariant cache.entries.Keys <= keys
    {
      var d := OperandAt(xs, i, res, u, cache);
      JoinStep(xs, i, u, s);
      out := out + d;
      i := i + 1;
    }
    assert xs[..i] == xs;
  }

  /** An operand's leaves are among its parent's. */
  lemma {:induction false} ChildTermsWithin(xs: seq<Node>, i: nat)
    requires i < |xs|
    ensures AllTerms(xs[i]) <= AllTermsSeq(xs)
    decreases |xs|
  {
    if i < |xs| - 1 {
      ChildTermsWithin(xs[..|xs| - 1], i);
    }
  }

  lemma LeafWithin(xs: seq<Node>, i: nat)
    requires i < |xs|
    ensures xs[i].Term? ==> xs[i].term in AllTermsSeq(xs)
  {
    ChildTermsWithin(xs, i);
  }

  /** Post-order evaluation with an explicit stack of (node, visited) frames. */
  method EvalExpression(root: Node, cache: TermCache, universe: set<DocId>) returns (r: set<DocId>)
    requires root.Expr?
    requires cache.Valid()
    modifies cache, cache.svc
    ensures cache.Valid()
    ensures r == Eval(root, universe, cache.svc.store)
    ensures cache.entries.Keys <= old(cache.entries.Keys) + AllTerms(root)
  {
    ghost var s := cache.svc.store;
    ghost var keys := cache.entries.Keys + AllTerms(root);
    var res: map<Node, set<DocId>> := map[];
    var stack := [Frame(root, false)];
    while stack != []
      invariant cache.Valid() && cache.svc.store == s
      invariant ResultsSound(res, universe, s)
      invariant StackOrdered(stack, res)
      invariant Scheduled(root, res, stack, -1)
      invariant forall j :: 0 <= j < |stack| ==> AllTerms(stack[j].node) <= AllTerms(root)
      invariant cache.entries.Keys <= keys
      decreases Pending(stack)
    {
      var top := stack[|stack| - 1];
      var below := stack[..|stack| - 1];
      assert stack == below + [top];
      if !top.flag {
        stack := Expand(below, top.node, res);
        ExpandKeeps(below, top, stack, res, root);
        continue;
      }
      stack := below;
      ghost var res0 := res;
      if top.node.Term? {
        var _ := cache.Get(top.node.term);
      } else {
        OperandsReady(below, top, res, root);
        var value := EvalNode(top.node, res, universe, cache);
        res := res[top.node := value];
      }
      Retire(below, top, res0, res, root);
    }
    r := res[root];
  }

  /** The set of one expression node whose expression operands are all evaluated. */
  method EvalNode(n: Node, res: map<Node, set<DocId>>, universe: set<DocId>, cache: TermCache)
    returns (value: set<DocId>)
    requires n.Expr?
    requires cache.Valid() && ResultsSound(res, universe, cache.svc.store)
    requires forall c :: c in n.operands && c.Expr? ==> c in res
    modifies cache, cache.svc
    ensures cache.Valid()
    ensures value == Eval(n, universe, cache.svc.store)
    ensures cache.entries.Keys <= old(cache.entries.Keys) + AllTerms(n)
  {
    var xs := n.operands;
    if n.op == Not {
      if xs == [] {
        value := {};
      } else {
        assert xs[0] in xs;
        var child := OperandDocs(xs[0], res, universe, cache);
        LeafWithin(xs, 0);
        value := universe - child;
      }
    } else if n.op == And {
      if xs == [] {
        value := {};
      } else {
        value := EvalAnd(xs, res, universe, cache);
      }
    } else {
      value := EvalOr(xs, res, universe, cache);
    }
  }

  /** After expanding the top frame, the root is still scheduled and every frame stays within the root. */
  lemma ExpandKeeps(below: seq<Frame>, top: Frame, st: seq<Frame>, res: map<Node, set<DocId>>, root: Node)
    requires !top.flag
    requires Scheduled(root, res, below + [top], -1)
    requires forall j :: 0 <= j < |below + [top]| ==> AllTerms((below + [top])[j].node) <= AllTerms(root)
    requires |st| > |below| && st[|below|] == Frame(top.node, true)
    requires forall j :: 0 <= j < |below| ==> st[j] == below[j]
    requires forall j :: |below| < j < |st| ==> AllTerms(st[j].node) <= AllTerms(top.node)
    ensures Scheduled(root, res, st, -1)
    ensures forall j :: 0 <= j < |st| ==> AllTerms(st[j].node) <= AllTerms(root)
  {
    var popped := below + [top];
    if root !in res {
      var j :| 0 <= j < |popped| && -1 < j && popped[j].node == root;
      if j < |below| {
        assert st[j] == below[j] == popped[j];
      } else {
        assert st[|below|].node == root;
      }
    }
    assert AllTerms(top.node) <= AllTerms(root) by {
      assert popped[|below|] == top;
    }
    forall j | 0 <= j < |st|
      ensures AllTerms(st[j].node) <= AllTerms(root)
    {
      if j < |below| {
        assert st[j] == below[j] == popped[j];
      }
    }
  }

  /** A visited expression on top of an ordered stack has all its expression operands evaluated. */
  lemma OperandsReady(below: seq<Frame>, top: Frame, res: map<Node, set<DocId>>, root: Node)
    requires top.flag && top.node.Expr?
    requires StackOrdered(below + [top], res)
    ensures forall c :: c in top.node.operands && c.Expr? ==> c in res
  {
    forall c | c in top.node.operands && c.Expr?
      ensures c in res
    {
      assert (below + [top])[|below|] == top;
      assert Scheduled(c, res, below + [top], |below|);
    }
  }

  /** Replaces an unvisited frame by its visited copy with the operands, reversed, above it. */
  method Expand(below: seq<Frame>, n: Node, ghost res: map<Node, set<DocId>>) returns (st: seq<Frame>)
    requires StackOrdered(below + [Frame(n, false)], res)
    ensures StackOrdered(st, res)
    ensures Pending(st) < Pending(below + [Frame(n, false)])
    ensures |st| > |below| && st[|below|] == Frame(n, true)
    ensures forall j :: 0 <= j < |below| ==> st[j] == below[j]
    ensures forall j :: |below| < j < |st| ==> AllTerms(st[j].node) <= AllTerms(n)
  {
    st := below + [Frame(n, true)];
    assert st[..|st| - 1] == below;
    var xs := if n.Expr? then n.operands else [];
    var i := |xs|;
    assert xs[..i] == xs;
    while i > 0
      invariant 0 <= i <= |xs|
      invariant |st| == |below| + 1 + (|xs| - i)
      invariant st[|below|] == Frame(n, true)
      invariant forall j :: 0 <= j < |below| ==> st[j] == below[j]
      invariant forall j :: |below| < j < |st| ==> !st[j].flag && st[j].node == xs[|below| + |xs| - j]
      invariant Pending(st) + 2 * SizeSeq(xs[..i]) == Pending(below) + 1 + 2 * SizeSeq(xs)
    {
      SeqPrefixStep(xs, i);
      i := i - 1;
      var pushed := st + [Frame(xs[i], false)];
      assert pushed[..|pushed| - 1] == st;
      st := pushed;
    }
    ExpandOrdered(below, n, xs, st, res);
  }

  /** The frames pushed by `Expand` are the operands of the visited node: the order is kept and their terms lie within it. */
  lemma ExpandOrdered(below: seq<Frame>, n: Node, xs: seq<Node>, st: seq<Frame>, res: map<Node, set<DocId>>)
    requires StackOrdered(below + [Frame(n, false)], res)
    requires xs == (if n.Expr? then n.operands else [])
    requires |st| == |below| + 1 + |xs| && st[|below|] == Frame(n, true)
    requires forall j :: 0 <= j < |below| ==> st[j] == below[j]
    requires forall j :: |below| < j < |st| ==> !st[j].flag && st[j].node == xs[|below| + |xs| - j]
    ensures StackOrdered(st, res)
    ensures forall j :: |below| < j < |st| ==> AllTerms(st[j].node) <= AllTerms(n)
  {
    forall j | |below| < j < |st|
      ensures AllTerms(st[j].node) <= AllTerms(n)
    {
      ChildTermsWithin(xs, |below| + |xs| - j);
    }
    var old_st := below + [Frame(n, false)];
    forall i, c | 0 <= i < |st| && st[i].flag && st[i].node.Expr? && c in st[i].node.operands && c.Expr?
      ensures Scheduled(c, res, st, i)
    {
      if i == |below| {
        var m :| 0 <= m < |xs| && xs[m] == c;
        assert st[|below| + |xs| - m].node == c;
      } else if i < |below| {
        assert old_st[i] == below[i] == st[i];
        assert Scheduled(c, res, old_st, i);
        if c !in res {
          var j :| 0 <= j < |old_st| && i < j && old_st[j].node == c;
          if j < |below| {
            assert st[j] == below[j] == old_st[j];
          } else {
            assert st[|below|].node == n == c;
          }
        }
      }
    }
  }

  /** Popping a visited frame keeps the stack ordered once its node's result is recorded. */
  lemma Retire(below: seq<Frame>, top: Frame, res: map<Node, set<DocId>>, res': map<Node, set<DocId>>,
               root: Node)
    requires StackOrdered(below + [top], res)
    requires Scheduled(root, res, below + [top], -1) && root.Expr?
    requires forall j :: 0 <= j < |below + [top]| ==> AllTerms((below + [top])[j].node) <= AllTerms(root)
    requires top.node.Expr? ==> top.node in res'
    requires res.Keys <= res'.Keys
    ensures StackOrdered(below, res')
    ensures Scheduled(root, res', below, -1)
    ensures forall j :: 0 <= j < |below| ==> AllTerms(below[j].node) <= AllTerms(root)
  {
    var st := below + [top];
    forall i, c | 0 <= i < |below| && below[i].flag && below[i].node.Expr? && c in below[i].node.operands && c.Expr?
      ensures Scheduled(c, res', below, i)
    {
      assert st[i] == below[i];
      assert Scheduled(c, res, st, i);
      if c !in res' {
        var j :| 0 <= j < |st| && i < j && st[j].node == c;
        if j < |below| {
          assert below[j].node == c;
        }
      }
    }
    if root !in res' {
      var j :| 0 <= j < |st| && -1 < j && st[j].node == root;
      if j < |below| {
        assert below[j].node == root;
      }
    }
    forall j | 0 <= j < |below|
      ensures AllTerms(below[j].node) <= AllTerms(root)
    {
      assert st[j] == below[j];
    }
  }

  // ---------------------------------------------------------------------------
  // searchBoolean
  // ---------------------------------------------------------------------------

  /**
   * Empty input returns no scores without consulting the service; otherwise each
   * distinct term is fetched at most once, only leaf terms are fetched, and every
   * matching document scores 1.0.
   */
  method SearchBoolean(terms: seq<string>, svc: DocumentInfoService)
    returns (r: Result<map<DocId, real>, ParseError>, ghost fetched: seq<string>)
    modifies svc
    ensures r == BooleanScores(terms, svc.store)
    ensures svc.calls == old(svc.calls) + Fetches(fetched) && Distinct(fetched)
    ensures terms == [] ==> fetched == []
    ensures r.Ok? && terms != [] ==> forall t :: t in fetched ==> t in AllTerms(Resolve(terms).value)
  {
    fetched := [];
    if |terms| == 0 {
      assert Fetches([]) == [];
      return Ok(map[]), fetched;
    }
    var tree := ResolveBooleanQuery(terms);
    if tree.Err? {
      assert Fetches([]) == [];
      return Err(tree.error), fetched;
    }
    var expression := tree.value;
    var cache := new TermCache(svc);
    var universe := ComputeUniverse(expression, cache);
    var matching := EvalExpression(expression, cache, universe);
    var docScores: map<DocId, real> := map[];
    var rest := matching;
    while rest != {}
      invariant rest <= matching
      invariant docScores == map d | d in matching - rest :: 1.0
      decreases rest
    {
      var id :| id in rest;
      docScores := docScores[id := 1.0];
      rest := rest - {id};
    }
    PositiveWithinAll(expression, false);
    assert matching - rest == matching;
    assert matching == Matches(expression, svc.store);
    r := Ok(docScores);
    fetched := cache.fetched;
  }

  lemma {:induction false} PositiveWithinAll(n: Node, underNot: bool)
    ensures PositiveTerms(n, underNot) <= AllTerms(n)
    decreases n, 1
  {
    match n
    case Term(_) =>
    case Expr(op, xs) => PositiveWithinAllSeq(xs, underNot || op == Not);
  }

  lemma {:induction false} PositiveWithinAllSeq(xs: seq<Node>, underNot: bool)
    ensures PositiveTermsSeq(xs, underNot) <= AllTermsSeq(xs)
    decreases xs, 0
  {
    if xs != [] {
      PositiveWithinAllSeq(xs[..|xs| - 1], underNot);
      PositiveWithinAll(xs[|xs| - 1], underNot);
    }
  }
}
