/**
 * Node.Walk: a depth-first traversal with a Visitor. The visitor is
 * abstracted to the one decision it makes about each node: `descend(n)`
 * says whether Visit(n) returns a visitor (walk the children) or nil (prune).
 * A walk is recorded as its trace of Visit calls: Some(n) for Visit(n) and
 * None for Visit(nil).
 *
 * Each node is visited, then (when the visitor descends) each of its
 * children in grammar order, then Visit(nil) once (node.go:34-41). The
 * children and their order are what each variant's Walk method lists; they
 * are collected in Children.
 */
module Traversal {
  import opened Wrappers
  import opened Ast
  import opened Zero

  // Sizes: a measure under which every child listed by Children is smaller
  // than its parent, even where the child is a record wrapped as a Node.

  function Size(n: Node): nat
  {
    match n
    case ArrayExpression(_, es) => 1 + SizeAll(es)
    case ObjectExpression(_, ps) => 1 + SizeProperties(ps)
    case PropertyNode(p) => SizeProperty(p)
    case ConditionalExpression(_, t, c, a) => 1 + SizeOpt(t) + SizeOpt(c) + SizeOpt(a)
    case CallExpression(_, callee, args) => 1 + SizeOpt(callee) + SizeAll(args)
    case NewExpression(_, callee, args) => 1 + SizeOpt(callee) + SizeAll(args)
    case SequenceExpression(_, es) => 1 + SizeAll(es)
    case BinaryExpression(_, _, l, r) => 1 + SizeOpt(l) + SizeOpt(r)
    case AssignmentExpression(_, _, l, r) => 1 + SizeOpt(l) + SizeOpt(r)
    case LogicalExpression(_, _, l, r) => 1 + SizeOpt(l) + SizeOpt(r)
    case MemberExpression(_, o, p, _) => 1 + SizeOpt(o) + SizeOpt(p)
    case UnaryExpression(_, _, _, a) => 1 + SizeOpt(a)
    case UpdateExpression(_, _, a, _) => 1 + SizeOpt(a)
    case ExpressionStatement(_, e) => 1 + SizeOpt(e)
    case BlockStatementNode(b) => SizeBlock(b)
    case FunctionBodyNode(fb) => 1 + SizeAll(fb.body)
    case WithStatement(_, o, b) => 1 + SizeOpt(o) + SizeOpt(b)
    case ReturnStatement(_, a) => 1 + SizeOpt(a)
    case LabeledStatement(_, _, b) => 2 + SizeOpt(b)
    case BreakStatement(_, _) => 2
    case ContinueStatement(_, _) => 2
    case IfStatement(_, t, c, a) => 1 + SizeOpt(t) + SizeOpt(c) + SizeOpt(a)
    case SwitchStatement(_, d, cases) => 1 + SizeOpt(d) + SizeCases(cases)
    case SwitchCaseNode(sc) => SizeSwitchCase(sc)
    case ThrowStatement(_, a) => 1 + SizeOpt(a)
    case TryStatement(_, b, h, f) => 1 + SizeBlock(b) + SizeCatchClause(h) + SizeBlock(f)
    case CatchClauseNode(cc) => SizeCatchClause(cc)
    case WhileStatement(_, t, b) => 1 + SizeOpt(t) + SizeOpt(b)
    case DoWhileStatement(_, b, t) => 1 + SizeOpt(b) + SizeOpt(t)
    case ForStatement(_, i, t, u, b) => 1 + SizeOpt(i) + SizeOpt(t) + SizeOpt(u) + SizeOpt(b)
    case ForInStatement(_, l, r, b) => 1 + SizeOpt(l) + SizeOpt(r) + SizeOpt(b)
    case Program(_, body) => 1 + SizeAll(body)
    case _ => 1
  }

  function SizeOpt(o: Option<Node>): nat
  {
    if o.Some? then Size(o.value) else 0
  }

  function SizeAll(s: seq<Option<Node>>): nat
  {
    if |s| == 0 then 0 else SizeOpt(s[0]) + SizeAll(s[1..])
  }

  function SizeProperty(p: Property): nat
  {
    1 + SizeOpt(p.key) + SizeOpt(p.value)
  }

  function SizeProperties(ps: seq<Property>): nat
  {
    if |ps| == 0 then 0 else SizeProperty(ps[0]) + SizeProperties(ps[1..])
  }

  function SizeBlock(b: BlockStatement): nat
  {
    1 + SizeAll(b.body)
  }

  function SizeCatchClause(cc: CatchClause): nat
  {
    1 + SizeOpt(cc.param) + SizeBlock(cc.body)
  }

  function SizeSwitchCase(sc: SwitchCase): nat
  {
    1 + SizeOpt(sc.test) + SizeAll(sc.consequent)
  }

  function SizeCases(cs: seq<SwitchCase>): nat
  {
    if |cs| == 0 then 0 else SizeSwitchCase(cs[0]) + SizeCases(cs[1..])
  }

  lemma {:induction false} SizeAllAppend(a: seq<Option<Node>>, b: seq<Option<Node>>)
    ensures SizeAll(a + b) == SizeAll(a) + SizeAll(b)
    decreases |a|
  {
    if |a| == 0 {
      assert a + b == b;
    } else {
      assert (a + b)[1..] == a[1..] + b;
      SizeAllAppend(a[1..], b);
    }
  }

  lemma SizeOfSingle(a: Option<Node>)
    ensures SizeAll([a]) == SizeOpt(a)
  {
    assert [a][1..] == [];
  }

  lemma SizeOfPair(a: Option<Node>, b: Option<Node>)
    ensures SizeAll([a, b]) == SizeOpt(a) + SizeOpt(b)
  {
    assert [a, b][1..] == [b];
    assert [b][1..] == [];
    assert SizeAll([b]) == SizeOpt(b) + SizeAll([]);
  }

  lemma SizeOfTriple(a: Option<Node>, b: Option<Node>, c: Option<Node>)
    ensures SizeAll([a, b, c]) == SizeOpt(a) + SizeOpt(b) + SizeOpt(c)
  {
    assert [a, b, c][1..] == [b, c];
    SizeOfPair(b, c);
  }

  /** The properties of an ObjectExpression, each as the Node it is walked as. */
  function PropertyNodes(ps: seq<Property>): (s: seq<Option<Node>>)
    ensures |s| == |ps| && SizeAll(s) == SizeProperties(ps)
    ensures forall i :: 0 <= i < |ps| ==> s[i] == Some(PropertyNode(ps[i]))
  {
    if |ps| == 0 then []
    else
      var s := [Some(PropertyNode(ps[0]))] + PropertyNodes(ps[1..]);
      assert s[1..] == PropertyNodes(ps[1..]);
      assert SizeOpt(s[0]) == Size(PropertyNode(ps[0])) == SizeProperty(ps[0]);
      s
  }

  /** The cases of a SwitchStatement, each as the Node it is walked as. */
  function CaseNodes(cs: seq<SwitchCase>): (s: seq<Option<Node>>)
    ensures |s| == |cs| && SizeAll(s) == SizeCases(cs)
    ensures forall i :: 0 <= i < |cs| ==> s[i] == Some(SwitchCaseNode(cs[i]))
  {
    if |cs| == 0 then []
    else
      var s := [Some(SwitchCaseNode(cs[0]))] + CaseNodes(cs[1..]);
      assert s[1..] == CaseNodes(cs[1..]);
      assert SizeOpt(s[0]) == Size(SwitchCaseNode(cs[0])) == SizeSwitchCase(cs[0]);
      s
  }

  /**
   * The children each Walk method walks, in its order. A None entry is a nil
   * field, skipped by the walk. Struct-typed fields (a label, a try block, a
   * handler, a catch body, properties, cases) are always walked. SwitchCase
   * skips a zero test (choice.go:168). FunctionExpression walks nothing below
   * itself (expression.go:392-396), nor do the leaves.
   */
  function Children(n: Node): seq<Option<Node>>
  {
    match n
    case ArrayExpression(_, es) => es
    case ObjectExpression(_, ps) => PropertyNodes(ps)
    case PropertyNode(p) => [p.key, p.value]
    case ConditionalExpression(_, t, c, a) => [t, c, a]
    case CallExpression(_, callee, args) => [callee] + args
    case NewExpression(_, callee, args) => [callee] + args
    case SequenceExpression(_, es) => es
    case BinaryExpression(_, _, l, r) => [l, r]
    case AssignmentExpression(_, _, l, r) => [l, r]
    case LogicalExpression(_, _, l, r) => [l, r]
    case MemberExpression(_, o, p, _) => [o, p]
    case UnaryExpression(_, _, _, a) => [a]
    case UpdateExpression(_, _, a, _) => [a]
    case ExpressionStatement(_, e) => [e]
    case BlockStatementNode(b) => b.body
    case FunctionBodyNode(fb) => fb.body
    case WithStatement(_, o, b) => [o, b]
    case ReturnStatement(_, a) => [a]
    case LabeledStatement(_, lbl, b) => [Some(IdentifierNode(lbl)), b]
    case BreakStatement(_, lbl) => [Some(IdentifierNode(lbl))]
    case ContinueStatement(_, lbl) => [Some(IdentifierNode(lbl))]
    case IfStatement(_, t, c, a) => [t, c, a]
    case SwitchStatement(_, d, cases) => [d] + CaseNodes(cases)
    case SwitchCaseNode(sc) =>
      var test := if sc.test.Some? && !IsZero(sc.test.value) then [sc.test] else [];
      test + sc.consequent
    case ThrowStatement(_, a) => [a]
    case TryStatement(_, b, h, f) =>
      [Some(BlockStatementNode(b)), Some(CatchClauseNode(h)), Some(BlockStatementNode(f))]
    case CatchClauseNode(cc) => [cc.param, Some(BlockStatementNode(cc.body))]
    case WhileStatement(_, t, b) => [t, b]
    case DoWhileStatement(_, b, t) => [b, t]
    case ForStatement(_, i, t, u, b) => [i, t, u, b]
    case ForInStatement(_, l, r, b) => [l, r, b]
    case Program(_, body) => body
    case _ => []
  }

  /** Every child is smaller than its parent, so Walk terminates. */
  lemma ChildrenAreSmaller(n: Node)
    ensures SizeAll(Children(n)) < Size(n)
  {
    if n.PropertyNode? || n.ConditionalExpression? || n.CallExpression? || n.NewExpression? {
      CallChildrenAreSmaller(n);
    } else if n.BinaryExpression? || n.AssignmentExpression? || n.LogicalExpression? || n.MemberExpression? {
      OperandChildrenAreSmaller(n);
    } else if n.UnaryExpression? || n.UpdateExpression? || n.ExpressionStatement? || n.ReturnStatement? || n.ThrowStatement? {
      ArgumentChildrenAreSmaller(n);
    } else if n.WithStatement? || n.LabeledStatement? || n.BreakStatement? || n.ContinueStatement? {
      LabelChildrenAreSmaller(n);
    } else if n.IfStatement? || n.CatchClauseNode? {
      BranchChildrenAreSmaller(n);
    } else if n.SwitchStatement? {
      SwitchChildrenAreSmaller(n);
    } else if n.SwitchCaseNode? {
      SwitchCaseChildrenAreSmaller(n.switchCase);
    } else if n.TryStatement? {
      TryChildrenAreSmaller(n);
    } else if n.WhileStatement? || n.DoWhileStatement? {
      WhileChildrenAreSmaller(n);
    } else if n.ForStatement? || n.ForInStatement? {
      ForChildrenAreSmaller(n);
    } else {
      SliceChildrenAreSmaller(n);
    }
  }

  lemma CallChildrenAreSmaller(n: Node)
    requires n.PropertyNode? || n.ConditionalExpression? || n.CallExpression? || n.NewExpression?
    ensures SizeAll(Children(n)) < Size(n)
  {
    match n
    case PropertyNode(p) => SizeOfPair(p.key, p.value);
    case ConditionalExpression(_, t, c, a) => SizeOfTriple(t, c, a);
    case CallExpression(_, callee, args) => SizeAllAppend([callee], args);
    case NewExpression(_, callee, args) => SizeAllAppend([callee], args);
  }

  lemma OperandChildrenAreSmaller(n: Node)
    requires n.BinaryExpression? || n.AssignmentExpression? || n.LogicalExpression? || n.MemberExpression?
    ensures SizeAll(Children(n)) < Size(n)
  {
    match n
    case BinaryExpression(_, _, l, r) => SizeOfPair(l, r);
    case AssignmentExpression(_, _, l, r) => SizeOfPair(l, r);
    case LogicalExpression(_, _, l, r) => SizeOfPair(l, r);
    case MemberExpression(_, o, p, _) => SizeOfPair(o, p);
  }

  lemma ArgumentChildrenAreSmaller(n: Node)
    requires n.UnaryExpression? || n.UpdateExpression? || n.ExpressionStatement? || n.ReturnStatement? || n.ThrowStatement?
    ensures SizeAll(Children(n)) < Size(n)
  {
    match n
    case UnaryExpression(_, _, _, a) => SizeOfSingle(a);
    case UpdateExpression(_, _, a, _) => SizeOfSingle(a);
    case ExpressionStatement(_, e) => SizeOfSingle(e);
    case ReturnStatement(_, a) => SizeOfSingle(a);
    case ThrowStatement(_, a) => SizeOfSingle(a);
  }

  lemma LabelChildrenAreSmaller(n: Node)
    requires n.WithStatement? || n.LabeledStatement? || n.BreakStatement? || n.ContinueStatement?
    ensures SizeAll(Children(n)) < Size(n)
  {
    match n
    case WithStatement(_, o, b) => SizeOfPair(o, b);
    case LabeledStatement(loc, lbl, b) => LabeledSmaller(loc, lbl, b);
    case BreakStatement(loc, lbl) => BreakSmaller(loc, lbl);
    case ContinueStatement(loc, lbl) => ContinueSmaller(loc, lbl);
  }

  lemma LabeledSmaller(loc: SourceLocation, lbl: Identifier, b: Option<Node>)
    ensures SizeAll(Children(LabeledStatement(loc, lbl, b))) < Size(LabeledStatement(loc, lbl, b))
  {
    SizeOfPair(Some(IdentifierNode(lbl)), b);
  }

  lemma BreakSmaller(loc: SourceLocation, lbl: Identifier)
    ensures SizeAll(Children(BreakStatement(loc, lbl))) < Size(BreakStatement(loc, lbl))
  {
    SizeOfSingle(Some(IdentifierNode(lbl)));
  }

  lemma ContinueSmaller(loc: SourceLocation, lbl: Identifier)
    ensures SizeAll(Children(ContinueStatement(loc, lbl))) < Size(ContinueStatement(loc, lbl))
  {
    SizeOfSingle(Some(IdentifierNode(lbl)));
  }

  lemma BranchChildrenAreSmaller(n: Node)
    requires n.IfStatement? || n.CatchClauseNode?
    ensures SizeAll(Children(n)) < Size(n)
  {
    match n
    case IfStatement(_, t, c, a) => SizeOfTriple(t, c, a);
    case CatchClauseNode(cc) => CatchSmaller(cc);
  }

  lemma CatchSmaller(cc: CatchClause)
    ensures SizeAll(Children(CatchClauseNode(cc))) < Size(CatchClauseNode(cc))
  {
    SizeOfPair(cc.param, Some(BlockStatementNode(cc.body)));
  }

  lemma SwitchChildrenAreSmaller(n: Node)
    requires n.SwitchStatement?
    ensures SizeAll(Children(n)) < Size(n)
  {
    SizeAllAppend([n.discriminant], CaseNodes(n.cases));
    assert SizeAll([n.discriminant]) == SizeOpt(n.discriminant) + SizeAll([]);
  }

  lemma SwitchCaseChildrenAreSmaller(sc: SwitchCase)
    ensures SizeAll(Children(SwitchCaseNode(sc))) < Size(SwitchCaseNode(sc))
  {
    var test := if sc.test.Some? && !IsZero(sc.test.value) then [sc.test] else [];
    assert Children(SwitchCaseNode(sc)) == test + sc.consequent;
    SizeAllAppend(test, sc.consequent);
    assert SizeAll([sc.test]) == SizeOpt(sc.test) + SizeAll([]);
  }

  lemma TryChildrenAreSmaller(n: Node)
    requires n.TryStatement?
    ensures SizeAll(Children(n)) < Size(n)
  {
    SizeOfTriple(Some(BlockStatementNode(n.block)), Some(CatchClauseNode(n.handler)), Some(BlockStatementNode(n.finalizer)));
  }

  lemma WhileChildrenAreSmaller(n: Node)
    requires n.WhileStatement? || n.DoWhileStatement?
    ensures SizeAll(Children(n)) < Size(n)
  {
    match n
    case WhileStatement(_, t, b) => SizeOfPair(t, b);
    case DoWhileStatement(_, b, t) => SizeOfPair(b, t);
  }

  lemma ForChildrenAreSmaller(n: Node)
    requires n.ForStatement? || n.ForInStatement?
    ensures SizeAll(Children(n)) < Size(n)
  {
    match n
    case ForStatement(loc, i, t, u, b) => ForSmaller(loc, i, t, u, b);
    case ForInStatement(_, l, r, b) => SizeOfTriple(l, r, b);
  }

  lemma ForSmaller(loc: SourceLocation, i: Option<Node>, t: Option<Node>, u: Option<Node>, b: Option<Node>)
    ensures SizeAll(Children(ForStatement(loc, i, t, u, b))) < Size(ForStatement(loc, i, t, u, b))
  {
    SizeOfTriple(t, u, b);
    SizeAllAppend([i], [t, u, b]);
    assert [i] + [t, u, b] == [i, t, u, b];
  }

  /** The remaining variants list a slice of children, or none. */
  lemma SliceChildrenAreSmaller(n: Node)
    requires n.ArrayExpression? || n.ObjectExpression? || n.SequenceExpression? || n.BlockStatementNode?
      || n.FunctionBodyNode? || n.Program? || n.ThisExpression? || n.ArrayHole? || n.FunctionExpression?
      || IsLiteral(n) || n.IdentifierNode? || n.EmptyStatement? || n.DebuggerStatement?
      || n.FunctionDeclaration? || n.VariableDeclaration? || n.Directive?
    ensures SizeAll(Children(n)) < Size(n)
  {
  }

  /**
   * The slices a Walk method ranges over without a nil check: a nil entry
   * there makes Go call Walk on a nil interface and panic
   * (expression.go:547-549, 619-621, 683-685; statement.go:164-166, 223-225;
   * program.go:45-47).
   */
  function UncheckedSlice(n: Node): seq<Option<Node>>
  {
    match n
    case CallExpression(_, _, args) => args
    case NewExpression(_, _, args) => args
    case SequenceExpression(_, es) => es
    case BlockStatementNode(b) => b.body
    case FunctionBodyNode(fb) => fb.body
    case Program(_, body) => body
    case _ => []
  }

  predicate NoNil(s: seq<Option<Node>>)
  {
    forall i :: 0 <= i < |s| ==> s[i].Some?
  }

  /** The walk of n with this visitor completes without a panic. */
  predicate Walkable(n: Node, descend: Node -> bool)
    decreases Size(n), 1, 0
  {
    ChildrenAreSmaller(n);
    descend(n) ==> NoNil(UncheckedSlice(n)) && AllWalkable(Children(n), descend)
  }

  predicate AllWalkable(s: seq<Option<Node>>, descend: Node -> bool)
    decreases SizeAll(s), 2, |s|
  {
    |s| == 0 ||
    (assert SizeOpt(s[0]) <= SizeAll(s);
     (s[0].Some? ==> Walkable(s[0].value, descend)) && AllWalkable(s[1..], descend))
  }

  /** Node.Walk (node.go:34-41 and every variant's Walk method). */
  function Walk(n: Node, descend: Node -> bool): (t: seq<Option<Node>>)
    requires Walkable(n, descend)
    ensures |t| >= 1 && t[0] == Some(n)
    ensures descend(n) ==> |t| >= 2 && t[|t| - 1] == None
    ensures !descend(n) ==> t == [Some(n)]
    decreases Size(n), 1, 0
  {
    ChildrenAreSmaller(n);
    if descend(n) then [Some(n)] + WalkAll(Children(n), descend) + [None] else [Some(n)]
  }

  /** Walks each non-nil entry of s in turn. */
  function WalkAll(s: seq<Option<Node>>, descend: Node -> bool): seq<Option<Node>>
    requires AllWalkable(s, descend)
    decreases SizeAll(s), 2, |s|
  {
    if |s| == 0 then []
    else
      assert SizeOpt(s[0]) <= SizeAll(s);
      (if s[0].Some? then Walk(s[0].value, descend) else []) + WalkAll(s[1..], descend)
  }

  // Counting visits: every descended node is closed by exactly one Visit(nil).

  /** The Visit(n) calls whose visitor descended, minus the Visit(nil) calls. */
  function Open(t: seq<Option<Node>>, descend: Node -> bool): int
  {
    if |t| == 0 then 0
    else (if t[0].None? then -1 else if descend(t[0].value) then 1 else 0) + Open(t[1..], descend)
  }

  lemma {:induction false} OpenAppend(a: seq<Option<Node>>, b: seq<Option<Node>>, descend: Node -> bool)
    ensures Open(a + b, descend) == Open(a, descend) + Open(b, descend)
    decreases |a|
  {
    if |a| == 0 {
      assert a + b == b;
    } else {
      assert (a + b)[1..] == a[1..] + b;
      OpenAppend(a[1..], b, descend);
    }
  }

  /**
   * The walk is balanced: it calls Visit(nil) exactly once for every node
   * whose visit returned a visitor, and never for a pruned node.
   */
  lemma {:induction false} WalkIsBalanced(n: Node, descend: Node -> bool)
    requires Walkable(n, descend)
    ensures Open(Walk(n, descend), descend) == 0
    decreases Size(n), 1, 0
  {
    if descend(n) {
      ChildrenAreSmaller(n);
      var inner := WalkAll(Children(n), descend);
      WalkAllIsBalanced(Children(n), descend);
      OpenAppend([Some(n)] + inner, [None], descend);
      OpenAppend([Some(n)], inner, descend);
    }
  }

  lemma {:induction false} WalkAllIsBalanced(s: seq<Option<Node>>, descend: Node -> bool)
    requires AllWalkable(s, descend)
    ensures Open(WalkAll(s, descend), descend) == 0
    decreases SizeAll(s), 2, |s|
  {
    if |s| > 0 {
      var head := if s[0].Some? then Walk(s[0].value, descend) else [];
      if s[0].Some? {
        assert SizeOpt(s[0]) <= SizeAll(s);
        WalkIsBalanced(s[0].value, descend);
      }
      WalkAllIsBalanced(s[1..], descend);
      OpenAppend(head, WalkAll(s[1..], descend), descend);
    }
  }

  /** The number of Visit calls on non-nil nodes. */
  function Visited(t: seq<Option<Node>>): nat
  {
    if |t| == 0 then 0 else (if t[0].Some? then 1 else 0) + Visited(t[1..])
  }

  lemma {:induction false} VisitedAppend(a: seq<Option<Node>>, b: seq<Option<Node>>)
    ensures Visited(a + b) == Visited(a) + Visited(b)
    decreases |a|
  {
    if |a| == 0 {
      assert a + b == b;
    } else {
      assert (a + b)[1..] == a[1..] + b;
      VisitedAppend(a[1..], b);
    }
  }

  /**
   * Every non-nil child is visited: when the visitor descends into n, each
   * non-nil entry of Children(n) appears in the trace, and the trace holds
   * at least one visit per such entry plus n itself.
   */
  lemma {:induction false} WalkVisitsEveryChild(n: Node, descend: Node -> bool)
    requires Walkable(n, descend) && descend(n)
    ensures forall i :: 0 <= i < |Children(n)| && Children(n)[i].Some? ==> Children(n)[i] in Walk(n, descend)
    ensures Visited(Walk(n, descend)) >= 1 + Present(Children(n))
  {
    ChildrenAreSmaller(n);
    var inner := WalkAll(Children(n), descend);
    assert Walk(n, descend) == [Some(n)] + inner + [None];
    WalkAllContains(Children(n), descend);
    WalkAllVisitsEach(Children(n), descend);
    VisitedAppend([Some(n)] + inner, [None]);
    VisitedAppend([Some(n)], inner);
  }

  /** Each non-nil entry of s is the first visit of its own walk, so it is in the combined trace. */
  lemma {:induction false} WalkAllContains(s: seq<Option<Node>>, descend: Node -> bool)
    requires AllWalkable(s, descend)
    ensures forall i :: 0 <= i < |s| && s[i].Some? ==> s[i] in WalkAll(s, descend)
    decreases |s|
  {
    if |s| > 0 {
      var head := if s[0].Some? then Walk(s[0].value, descend) else [];
      assert WalkAll(s, descend) == head + WalkAll(s[1..], descend);
      WalkAllContains(s[1..], descend);
      forall i | 0 <= i < |s| && s[i].Some?
        ensures s[i] in WalkAll(s, descend)
      {
        if i == 0 {
          assert head[0] == s[0];
        } else {
          assert s[i] == s[1..][i - 1];
        }
      }
    }
  }

  /** The number of non-nil entries. */
  function Present(s: seq<Option<Node>>): nat
  {
    if |s| == 0 then 0 else (if s[0].Some? then 1 else 0) + Present(s[1..])
  }

  lemma {:induction false} WalkAllVisitsEach(s: seq<Option<Node>>, descend: Node -> bool)
    requires AllWalkable(s, descend)
    ensures Visited(WalkAll(s, descend)) >= Present(s)
    decreases |s|
  {
    if |s| > 0 {
      var head := if s[0].Some? then Walk(s[0].value, descend) else [];
      WalkAllVisitsEach(s[1..], descend);
      VisitedAppend(head, WalkAll(s[1..], descend));
    }
  }

  // The traces the tests expect from a visitor that always descends.

  const Always: Node -> bool := (n: Node) => true

  function WalkOpt(o: Option<Node>, descend: Node -> bool): seq<Option<Node>>
    requires o.Some? ==> Walkable(o.value, descend)
  {
    if o.Some? then Walk(o.value, descend) else []
  }

  /** A node without children is visited and then closed. */
  lemma WalkLeaf(n: Node, descend: Node -> bool)
    requires Children(n) == [] && UncheckedSlice(n) == [] && descend(n)
    ensures Walkable(n, descend) && Walk(n, descend) == [Some(n), None]
  {
  }

  lemma WalkPair(a: Option<Node>, b: Option<Node>, descend: Node -> bool)
    requires a.Some? ==> Walkable(a.value, descend)
    requires b.Some? ==> Walkable(b.value, descend)
    ensures AllWalkable([a, b], descend)
    ensures WalkAll([a, b], descend) == WalkOpt(a, descend) + WalkOpt(b, descend)
  {
    assert [a, b][1..] == [b];
    assert [b][1..] == [];
    assert WalkAll([b], descend) == WalkOpt(b, descend) + WalkAll([], descend);
    assert WalkAll([a, b], descend) == WalkOpt(a, descend) + WalkAll([b], descend);
  }

  /** ArrayExpression walks each element in order, ArrayHole included (expression_test.go:41-43). */
  lemma ArrayExpressionTrace(loc: SourceLocation, thisLoc: SourceLocation)
    ensures var ae := ArrayExpression(loc, [Some(ThisExpression(thisLoc)), Some(ArrayHole)]);
      Walkable(ae, Always) && Walk(ae, Always)
      == [Some(ae), Some(ThisExpression(thisLoc)), None, Some(ArrayHole), None, None]
  {
    WalkLeaf(ThisExpression(thisLoc), Always);
    WalkLeaf(ArrayHole, Always);
    WalkPair(Some(ThisExpression(thisLoc)), Some(ArrayHole), Always);
  }

  /** Left then right; a nil operand is skipped (binary_test.go:25-27). */
  lemma BinaryExpressionTrace(loc: SourceLocation, op: string, l: Node, r: Node)
    requires Children(l) == [] && UncheckedSlice(l) == []
    requires Children(r) == [] && UncheckedSlice(r) == []
    ensures var be := BinaryExpression(loc, op, Some(l), Some(r));
      Walkable(be, Always) && Walk(be, Always) == [Some(be), Some(l), None, Some(r), None, None]
    ensures var be := BinaryExpression(loc, op, None, Some(r));
      Walkable(be, Always) && Walk(be, Always) == [Some(be), Some(r), None, None]
  {
    WalkLeaf(l, Always);
    WalkLeaf(r, Always);
    WalkPair(Some(l), Some(r), Always);
    WalkPair(None, Some(r), Always);
  }

  /**
   * A BreakStatement always walks its label, even a zero one
   * (control.go:130-135; control_test.go:79).
   */
  lemma BreakStatementTrace(loc: SourceLocation, lbl: Identifier)
    ensures var bs := BreakStatement(loc, lbl);
      Walkable(bs, Always) && Walk(bs, Always) == [Some(bs), Some(IdentifierNode(lbl)), None, None]
  {
    WalkLeaf(IdentifierNode(lbl), Always);
    assert [Some(IdentifierNode(lbl))][1..] == [];
  }

  /** FunctionExpression does not walk its ID, parameters or body (expression.go:392-396). */
  lemma FunctionExpressionTrace(fe: Node)
    requires fe.FunctionExpression?
    ensures Walkable(fe, Always) && Walk(fe, Always) == [Some(fe), None]
  {
    WalkLeaf(fe, Always);
  }

  /** A pruning visitor sees only the root, whatever the tree holds. */
  lemma PrunedTrace(n: Node)
    ensures Walkable(n, (m: Node) => false) && Walk(n, (m: Node) => false) == [Some(n)]
  {
  }

  /**
   * A SwitchCase skips a zero test and nil consequent entries
   * (choice.go:165-177; choice_test.go:84-88).
   */
  lemma SwitchCaseTrace(loc: SourceLocation, test: Node, s: Node)
    requires IsZero(test) && Children(s) == [] && UncheckedSlice(s) == []
    ensures var sc := SwitchCaseNode(SwitchCase(loc, Some(test), [None, Some(s)]));
      Walkable(sc, Always) && Walk(sc, Always) == [Some(sc), Some(s), None, None]
  {
    var sc := SwitchCaseNode(SwitchCase(loc, Some(test), [None, Some(s)]));
    SwitchCaseSkipsZeroTest(loc, test, [None, Some(s)]);
    WalkLeaf(s, Always);
    WalkPair(None, Some(s), Always);
  }

  lemma SwitchCaseSkipsZeroTest(loc: SourceLocation, test: Node, consequent: seq<Option<Node>>)
    requires IsZero(test)
    ensures Children(SwitchCaseNode(SwitchCase(loc, Some(test), consequent))) == consequent
    ensures UncheckedSlice(SwitchCaseNode(SwitchCase(loc, Some(test), consequent))) == []
  {
  }
}
