/**
 * Encoding nodes as ESTree JSON: each node's MarshalJSON.
 *
 * Every node is written as an object holding its "type", its "loc" unless
 * the location is zero (nodeToMap), and its own members. A nil child is
 * null, and so is an ArrayHole. Some members are left out when they hold
 * nothing (the alternate of an if, the parts of a for header, a break label
 * without a name, ...).
 *
 * CallExpression.MarshalJSON and VariableDeclaration.MarshalJSON pass the
 * node itself back to json.Marshal, which calls the same method again: they
 * never return. Encode is None for such a node and for any node that writes
 * one; a member that MarshalJSON leaves out is never encoded, so a zero call
 * in an omitted slot does no harm.
 */
module Encoding {
  import opened Wrappers
  import opened Json
  import opened Ast
  import opened Zero

  /** Position has no json tags: its members are named after its fields. */
  function EncodePosition(p: Position): (j: Json)
    ensures j.JObject? && j.fields.Keys == {"Line", "Column"}
  {
    JObject(map["Line" := JNumber(p.line as real), "Column" := JNumber(p.column as real)])
  }

  /** SourceLocation.MarshalJSON (node.go:86-99): null when zero, and a null source when it is empty. */
  function EncodeLocation(sl: SourceLocation): (j: Json)
    ensures j.JNull? <==> sl.IsZero()
    ensures j.JObject? ==> j.fields.Keys == {"source", "start", "end"}
  {
    if sl.IsZero() then JNull
    else JObject(map["source" := if sl.source == "" then JNull else JString(sl.source),
                     "start" := EncodePosition(sl.start),
                     "end" := EncodePosition(sl.end)])
  }

  /** nodeToMap (node.go:57-64): the type, and the location unless it is zero. */
  function Header(t: string, loc: SourceLocation): (fs: map<string, Json>)
    ensures "type" in fs && fs["type"] == JString(t)
    ensures "loc" in fs <==> !loc.IsZero()
    ensures "loc" in fs ==> fs["loc"] == EncodeLocation(loc)
    ensures fs.Keys <= {"type", "loc"}
  {
    if loc.IsZero() then map["type" := JString(t)]
    else map["type" := JString(t), "loc" := EncodeLocation(loc)]
  }

  /** An interface-typed member: null for nil. */
  function EncodeOpt(o: Option<Node>): Option<Json>
    decreases o
  {
    if o.None? then Some(JNull) else Encode(o.value)
  }

  /** A slice of interface values, element by element. */
  function EncodeAll(s: seq<Option<Node>>): (r: Option<seq<Json>>)
    ensures r.Some? ==> |r.value| == |s|
    decreases s
  {
    if |s| == 0 then Some([])
    else
      var head :- EncodeOpt(s[0]);
      var tail :- EncodeAll(s[1..]);
      Some([head] + tail)
  }

  /** Identifier.MarshalJSON (identifier.go:37-41). */
  function EncodeIdentifier(i: Identifier): (j: Json)
    ensures j.JObject? && "name" in j.fields && j.fields["name"] == JString(i.name)
  {
    JObject(Header("Identifier", i.loc) + map["name" := JString(i.name)])
  }

  // The records: each writes nodeToMap's members and then its own. The
  // *Members functions give the own members, which the Node cases reuse.

  function BlockMembers(b: BlockStatement): (r: Option<map<string, Json>>)
    ensures r.Some? ==> r.value.Keys == {"body"}
    decreases b, 0
  {
    var body :- EncodeAll(b.body);
    Some(map["body" := JArray(body)])
  }

  /** BlockStatement.MarshalJSON (statement.go:179-183). */
  function EncodeBlock(b: BlockStatement): Option<Json>
    decreases b, 1
  {
    var own :- BlockMembers(b);
    Some(JObject(Header("BlockStatement", b.loc) + own))
  }

  /**
   * FunctionBody.MarshalJSON (statement.go:238-242) writes the same members
   * as BlockStatement's (statement.go:179-183): these are BlockMembers over
   * a FunctionBody's equally shaped fields.
   */
  function FunctionBodyMembers(fb: FunctionBody): (r: Option<map<string, Json>>)
    ensures r.Some? ==> r.value.Keys == {"body"}
    decreases fb, 0
  {
    var body :- EncodeAll(fb.body);
    Some(map["body" := JArray(body)])
  }

  /** FunctionBody.MarshalJSON (statement.go:238-242): also typed "BlockStatement". */
  function EncodeFunctionBody(fb: FunctionBody): Option<Json>
    decreases fb, 1
  {
    var own :- FunctionBodyMembers(fb);
    Some(JObject(Header("BlockStatement", fb.loc) + own))
  }

  function PropertyMembers(p: Property): (r: Option<map<string, Json>>)
    ensures r.Some? ==> r.value.Keys == {"key", "value", "kind"}
    decreases p, 0
  {
    var key :- EncodeOpt(p.key);
    var value :- EncodeOpt(p.value);
    Some(map["key" := key, "value" := value, "kind" := JString(p.kind)])
  }

  /** Property.MarshalJSON (expression.go:335-341). */
  function EncodeProperty(p: Property): Option<Json>
    decreases p, 1
  {
    var own :- PropertyMembers(p);
    Some(JObject(Header("Property", p.loc) + own))
  }

  function EncodeProperties(ps: seq<Property>): (r: Option<seq<Json>>)
    ensures r.Some? ==> |r.value| == |ps|
    decreases ps
  {
    if |ps| == 0 then Some([])
    else
      var head :- EncodeProperty(ps[0]);
      var tail :- EncodeProperties(ps[1..]);
      Some([head] + tail)
  }

  /** The test only when present, the consequent only when not empty. */
  function SwitchCaseMembers(sc: SwitchCase): (r: Option<map<string, Json>>)
    ensures r.Some? ==> r.value.Keys <= {"test", "consequent"}
    decreases sc, 0
  {
    var test :- EncodeOpt(sc.test);
    var consequent :- EncodeAll(sc.consequent);
    var fs := if sc.test.Some? then map["test" := test] else map[];
    Some(if |sc.consequent| > 0 then fs["consequent" := JArray(consequent)] else fs)
  }

  /** SwitchCase.MarshalJSON (choice.go:189-198). */
  function EncodeSwitchCase(sc: SwitchCase): Option<Json>
    decreases sc, 1
  {
    var own :- SwitchCaseMembers(sc);
    Some(JObject(Header("SwitchCase", sc.loc) + own))
  }

  function EncodeSwitchCases(cs: seq<SwitchCase>): (r: Option<seq<Json>>)
    ensures r.Some? ==> |r.value| == |cs|
    decreases cs
  {
    if |cs| == 0 then Some([])
    else
      var head :- EncodeSwitchCase(cs[0]);
      var tail :- EncodeSwitchCases(cs[1..]);
      Some([head] + tail)
  }

  function CatchClauseMembers(cc: CatchClause): (r: Option<map<string, Json>>)
    ensures r.Some? ==> r.value.Keys == {"param", "body"}
    decreases cc, 0
  {
    var param :- EncodeOpt(cc.param);
    var body :- EncodeBlock(cc.body);
    Some(map["param" := param, "body" := body])
  }

  /** CatchClause.MarshalJSON (exception.go:165-170). */
  function EncodeCatchClause(cc: CatchClause): Option<Json>
    decreases cc, 1
  {
    var own :- CatchClauseMembers(cc);
    Some(JObject(Header("CatchClause", cc.loc) + own))
  }

  /** VariableDeclarator.MarshalJSON (declaration.go:168-177): no location, init only when present. */
  function EncodeDeclarator(vd: VariableDeclarator): (r: Option<Json>)
    ensures r.Some? ==> r.value.JObject? && ("init" in r.value.fields <==> vd.init.Some?)
    decreases vd
  {
    var id :- EncodeOpt(vd.id);
    var init :- EncodeOpt(vd.init);
    var fs := map["type" := JString(VariableDeclaratorType), "id" := id];
    Some(JObject(if vd.init.Some? then fs["init" := init] else fs))
  }

  /** `x != nil && !x.IsZero()`: the test that keeps an optional member. */
  predicate Kept(o: Option<Node>)
  {
    o.Some? && !IsZero(o.value)
  }

  /**
   * The MarshalJSON of every node: null for an ArrayHole; otherwise the
   * members of nodeToMap followed by the node's own. None where the method
   * would never return.
   */
  function Encode(n: Node): (r: Option<Json>)
    decreases n, 3
  {
    if n.ArrayHole? then Some(JNull)
    else
      var own :- NodeMembers(n);
      Some(JObject(Header(Type(n), Location(n)) + own))
  }

  /**
   * The members each MarshalJSON adds after nodeToMap's, with the
   * omissions the source makes for members that hold nothing; one function
   * per source file.
   */
  function NodeMembers(n: Node): (r: Option<map<string, Json>>)
    ensures r.Some? ==> r.value.Keys !! {"type", "loc"}
    decreases n, 2
  {
    match n
    case ThisExpression(_) | ArrayHole | ArrayExpression(_, _) | ObjectExpression(_, _) | PropertyNode(_) | FunctionExpression(_, _, _, _) | ConditionalExpression(_, _, _, _) | CallExpression(_, _, _) | NewExpression(_, _, _) | SequenceExpression(_, _) => ExpressionMembers(n)
    case BinaryExpression(_, _, _, _) | AssignmentExpression(_, _, _, _) | LogicalExpression(_, _, _, _) | MemberExpression(_, _, _, _) | UnaryExpression(_, _, _, _) | UpdateExpression(_, _, _, _) => OperatorMembers(n)
    case StringLiteral(_, _) | BoolLiteral(_, _) | NullLiteral(_) | NumberLiteral(_, _) | RegExpLiteral(_, _, _) | IdentifierNode(_) => LeafMembers(n)
    case ExpressionStatement(_, _) | BlockStatementNode(_) | FunctionBodyNode(_) | EmptyStatement(_) | DebuggerStatement(_) | WithStatement(_, _, _) | ReturnStatement(_, _) | LabeledStatement(_, _, _) | BreakStatement(_, _) | ContinueStatement(_, _) => StatementMembers(n)
    case IfStatement(_, _, _, _) | SwitchStatement(_, _, _) | SwitchCaseNode(_) | ThrowStatement(_, _) | TryStatement(_, _, _, _) | CatchClauseNode(_) => ChoiceMembers(n)
    case WhileStatement(_, _, _) | DoWhileStatement(_, _, _) | ForStatement(_, _, _, _, _) | ForInStatement(_, _, _, _) => LoopMembers(n)
    case Program(_, _) | FunctionDeclaration(_, _, _) | VariableDeclaration(_, _) | Directive(_, _) => DeclarationMembers(n)
  }

  /** The own members of the nodes of expression.go. */
  function ExpressionMembers(n: Node): (r: Option<map<string, Json>>)
    requires n.ThisExpression? || n.ArrayHole? || n.ArrayExpression? || n.ObjectExpression? || n.PropertyNode? || n.FunctionExpression? || n.ConditionalExpression? || n.CallExpression? || n.NewExpression? || n.SequenceExpression?
    ensures r.Some? ==> r.value.Keys !! {"type", "loc"}
    decreases n, 1
  {
    match n
    case ThisExpression(_) => Some(map[])
    case ArrayHole => Some(map[])
    case ArrayExpression(_, elements) =>
      var es :- EncodeAll(elements);
      Some(map["elements" := JArray(es)])
    case ObjectExpression(_, properties) =>
      var ps :- EncodeProperties(properties);
      Some(map["properties" := JArray(ps)])
    case PropertyNode(p) => PropertyMembers(p)
    case FunctionExpression(_, id, params, body) =>
      var ps :- EncodeAll(params);
      var b :- EncodeFunctionBody(body);
      Some(map["id" := EncodeIdentifier(id), "params" := JArray(ps), "body" := b])
    case ConditionalExpression(_, test, consequent, alternate) =>
      var t :- EncodeOpt(test);
      var c :- EncodeOpt(consequent);
      var a :- EncodeOpt(alternate);
      Some(map["test" := t, "consequent" := c, "alternate" := a])
    case CallExpression(_, _, _) => None
    case NewExpression(_, callee, arguments) =>
      var c :- EncodeOpt(callee);
      var args :- EncodeAll(arguments);
      Some(map["callee" := c, "arguments" := JArray(args)])
    case SequenceExpression(_, expressions) =>
      var es :- EncodeAll(expressions);
      Some(map["expressions" := JArray(es)])
    case _ => assert false; None
  }

  /** The own members of the nodes of binary.go and unary.go. */
  function OperatorMembers(n: Node): (r: Option<map<string, Json>>)
    requires n.BinaryExpression? || n.AssignmentExpression? || n.LogicalExpression? || n.MemberExpression? || n.UnaryExpression? || n.UpdateExpression?
    ensures r.Some? ==> r.value.Keys !! {"type", "loc"}
    decreases n, 1
  {
    match n
    case BinaryExpression(_, op, left, right) =>
      var l :- EncodeOpt(left);
      var r :- EncodeOpt(right);
      Some(map["operator" := JString(op), "left" := l, "right" := r])
    case AssignmentExpression(_, op, left, right) =>
      var l :- EncodeOpt(left);
      var r :- EncodeOpt(right);
      Some(map["operator" := JString(op), "left" := l, "right" := r])
    case LogicalExpression(_, op, left, right) =>
      var l :- EncodeOpt(left);
      var r :- EncodeOpt(right);
      Some(map["operator" := JString(op), "left" := l, "right" := r])
    case MemberExpression(_, obj, property, computed) =>
      var o :- EncodeOpt(obj);
      var p :- EncodeOpt(property);
      Some(map["object" := o, "property" := p, "computed" := JBool(computed)])
    case UnaryExpression(_, op, prefix, argument) =>
      var a :- EncodeOpt(argument);
      Some(map["operator" := JString(op), "prefix" := JBool(prefix), "argument" := a])
    case UpdateExpression(_, op, argument, prefix) =>
      var a :- EncodeOpt(argument);
      Some(map["operator" := JString(op), "argument" := a, "prefix" := JBool(prefix)])
    case _ => assert false; None
  }

  /** The own members of the nodes of literal.go and identifier.go. */
  function LeafMembers(n: Node): (r: Option<map<string, Json>>)
    requires n.StringLiteral? || n.BoolLiteral? || n.NullLiteral? || n.NumberLiteral? || n.RegExpLiteral? || n.IdentifierNode?
    ensures r.Some? ==> r.value.Keys !! {"type", "loc"}
    decreases n, 1
  {
    match n
    case StringLiteral(_, s) => Some(map["value" := JString(s)])
    case BoolLiteral(_, b) => Some(map["value" := JBool(b)])
    case NullLiteral(_) => Some(map[])
    case NumberLiteral(_, v) => Some(map["value" := JNumber(v)])
    case RegExpLiteral(_, pattern, flags) =>
      Some(map["regex" := JObject(map["pattern" := JString(pattern), "flags" := JString(flags)])])
    case IdentifierNode(i) => Some(map["name" := JString(i.name)])
    case _ => assert false; None
  }

  /** The own members of the nodes of statement.go and control.go. */
  function StatementMembers(n: Node): (r: Option<map<string, Json>>)
    requires n.ExpressionStatement? || n.BlockStatementNode? || n.FunctionBodyNode? || n.EmptyStatement? || n.DebuggerStatement? || n.WithStatement? || n.ReturnStatement? || n.LabeledStatement? || n.BreakStatement? || n.ContinueStatement?
    ensures r.Some? ==> r.value.Keys !! {"type", "loc"}
    decreases n, 1
  {
    match n
    case ExpressionStatement(_, expression) =>
      var e :- EncodeOpt(expression);
      Some(map["expression" := e])
    case BlockStatementNode(b) => BlockMembers(b)
    case FunctionBodyNode(fb) => FunctionBodyMembers(fb)
    case EmptyStatement(_) => Some(map[])
    case DebuggerStatement(_) => Some(map[])
    case WithStatement(_, obj, body) =>
      var o :- EncodeOpt(obj);
      var b :- EncodeOpt(body);
      Some(map["object" := o, "body" := b])
    case ReturnStatement(_, argument) =>
      var a :- EncodeOpt(argument);
      Some(map["argument" := a])
    case LabeledStatement(_, lbl, body) =>
      var b :- EncodeOpt(body);
      Some(map["label" := EncodeIdentifier(lbl), "body" := b])
    case BreakStatement(_, lbl) => Some(LabelMember(lbl))
    case ContinueStatement(_, lbl) => Some(LabelMember(lbl))
    case _ => assert false; None
  }

  /** The "label" member of Break/ContinueStatement, written only when the label has a name. */
  function LabelMember(lbl: Identifier): (fs: map<string, Json>)
    ensures "label" in fs <==> lbl.name != ""
    ensures "label" in fs ==> fs["label"] == EncodeIdentifier(lbl)
    ensures fs.Keys <= {"label"}
  {
    if lbl.name != "" then map["label" := EncodeIdentifier(lbl)] else map[]
  }

  /** The own members of the nodes of choice.go and exception.go. */
  function ChoiceMembers(n: Node): (r: Option<map<string, Json>>)
    requires n.IfStatement? || n.SwitchStatement? || n.SwitchCaseNode? || n.ThrowStatement? || n.TryStatement? || n.CatchClauseNode?
    ensures r.Some? ==> r.value.Keys !! {"type", "loc"}
    decreases n, 1
  {
    match n
    case IfStatement(_, _, _, _) => IfMembers(n)
    case SwitchStatement(_, discriminant, cases) =>
      var d :- EncodeOpt(discriminant);
      var cs :- EncodeSwitchCases(cases);
      Some(if |cases| > 0 then map["test" := d, "cases" := JArray(cs)] else map["test" := d])
    case SwitchCaseNode(sc) => SwitchCaseMembers(sc)
    case ThrowStatement(_, argument) =>
      var a :- EncodeOpt(argument);
      Some(map["argument" := a])
    case TryStatement(_, _, _, _) => TryMembers(n)
    case CatchClauseNode(cc) => CatchClauseMembers(cc)
    case _ => assert false; None
  }

  /** IfStatement.MarshalJSON (choice.go:51-59): the alternate is encoded only when it is kept. */
  function IfMembers(n: Node): (r: Option<map<string, Json>>)
    requires n.IfStatement?
    ensures r.Some? ==> r.value.Keys !! {"type", "loc"}
    decreases n, 0
  {
    var t :- EncodeOpt(n.test);
    var c :- EncodeOpt(n.consequent);
    var fs := map["test" := t, "consequent" := c];
    if Kept(n.alternate) then
      var a :- EncodeOpt(n.alternate);
      Some(fs["alternate" := a])
    else Some(fs)
  }

  /** TryStatement.MarshalJSON (exception.go:100-110): the handler is encoded only when it is not zero. */
  function TryMembers(n: Node): (r: Option<map<string, Json>>)
    requires n.TryStatement?
    ensures r.Some? ==> r.value.Keys !! {"type", "loc"}
    decreases n, 0
  {
    var b :- EncodeBlock(n.block);
    var f :- EncodeBlock(n.finalizer);
    var keepHandler := !CatchClauseIsZero(n.handler);
    var h :- if keepHandler then EncodeCatchClause(n.handler) else Some(JNull);
    Some(TryFields(b, !n.finalizer.loc.IsZero() || |n.finalizer.body| > 0, f, keepHandler, h))
  }

  /** The block, then the finalizer and the handler when they are kept. */
  function TryFields(b: Json, keepFinalizer: bool, f: Json, keepHandler: bool, h: Json): (fs: map<string, Json>)
    ensures fs.Keys !! {"type", "loc"}
    ensures "block" in fs && ("finalizer" in fs <==> keepFinalizer) && ("handler" in fs <==> keepHandler)
  {
    var fs := map["block" := b];
    var fs := if keepFinalizer then fs["finalizer" := f] else fs;
    if keepHandler then fs["handler" := h] else fs
  }

  /** The own members of the nodes of loop.go. */
  function LoopMembers(n: Node): (r: Option<map<string, Json>>)
    requires n.WhileStatement? || n.DoWhileStatement? || n.ForStatement? || n.ForInStatement?
    ensures r.Some? ==> r.value.Keys !! {"type", "loc"}
    decreases n, 1
  {
    match n
    case WhileStatement(_, test, body) =>
      var t :- EncodeOpt(test);
      var b :- EncodeOpt(body);
      Some(map["test" := t, "body" := b])
    case DoWhileStatement(_, body, test) =>
      var b :- EncodeOpt(body);
      var t :- EncodeOpt(test);
      Some(map["body" := b, "test" := t])
    case ForStatement(_, init, test, update, body) =>
      // A member that is not kept is never encoded; its null placeholder is not written.
      var i :- if Kept(init) then EncodeOpt(init) else Some(JNull);
      var t :- if Kept(test) then EncodeOpt(test) else Some(JNull);
      var u :- if Kept(update) then EncodeOpt(update) else Some(JNull);
      var b :- EncodeOpt(body);
      var fs := if Kept(init) then map["init" := i] else map[];
      var fs := if Kept(test) then fs["test" := t] else fs;
      var fs := if Kept(update) then fs["update" := u] else fs;
      Some(fs["body" := b])
    case ForInStatement(_, left, right, body) =>
      var l :- EncodeOpt(left);
      var r :- EncodeOpt(right);
      var b :- EncodeOpt(body);
      Some(map["left" := l, "right" := r, "body" := b])
    case _ => assert false; None
  }

  /** The own members of the nodes of program.go, declaration.go and directive.go. */
  function DeclarationMembers(n: Node): (r: Option<map<string, Json>>)
    requires n.Program? || n.FunctionDeclaration? || n.VariableDeclaration? || n.Directive?
    ensures r.Some? ==> r.value.Keys !! {"type", "loc"}
    decreases n, 1
  {
    match n
    case Program(_, body) =>
      var items :- EncodeAll(body);
      Some(if |body| > 0 then map["body" := JArray(items)] else map[])
    case FunctionDeclaration(id, params, body) =>
      var ps :- EncodeAll(params);
      var b :- EncodeFunctionBody(body);
      Some(map["id" := EncodeIdentifier(id), "params" := JArray(ps), "body" := b])
    case VariableDeclaration(_, _) => None
    case Directive(expression, directive) =>
      var e :- EncodeOpt(expression);
      Some(map["expression" := e, "directive" := JString(directive)])
    case _ => assert false; None
  }

  // ---------------------------------------------------------------------
  // What the encoders promise
  // ---------------------------------------------------------------------

  /** The members nodeToMap writes: the type, and the location unless it is zero. */
  predicate HasHeader(fs: map<string, Json>, t: string, loc: SourceLocation)
  {
    "type" in fs && fs["type"] == JString(t)
    && ("loc" in fs <==> !loc.IsZero())
    && ("loc" in fs ==> fs["loc"] == EncodeLocation(loc))
  }

  /**
   * Every node that encodes is written as an object carrying its Type()
   * under "type" and, following nodeToMap, its location under "loc"
   * exactly when that location is not zero; ArrayHole alone is null.
   */
  lemma EncodeHeader(n: Node)
    requires Encode(n).Some?
    ensures Encode(n).value.JNull? <==> n.ArrayHole?
    ensures !n.ArrayHole? ==> Encode(n).value.JObject? && HasHeader(Encode(n).value.fields, Type(n), Location(n))
  {
  }

  /** A slice is encoded element by element: it encodes when every element does, each to its own value. */
  lemma {:induction false} EncodeAllElements(s: seq<Option<Node>>)
    ensures EncodeAll(s).Some? <==> forall i :: 0 <= i < |s| ==> EncodeOpt(s[i]).Some?
    ensures EncodeAll(s).Some? ==> forall i :: 0 <= i < |s| ==> EncodeAll(s).value[i] == EncodeOpt(s[i]).value
    decreases |s|
  {
    if |s| > 0 {
      EncodeAllElements(s[1..]);
      assert forall i :: 1 <= i < |s| ==> s[i] == s[1..][i - 1];
    }
  }

  /** CallExpression and VariableDeclaration marshal themselves again and never return. */
  lemma EncodeDoesNotReturn(loc: SourceLocation, callee: Option<Node>, arguments: seq<Option<Node>>, ds: seq<VariableDeclarator>, kind: string)
    ensures Encode(CallExpression(loc, callee, arguments)).None?
    ensures Encode(VariableDeclaration(ds, kind)).None?
  {
    assert NodeMembers(CallExpression(loc, callee, arguments)) == ExpressionMembers(CallExpression(loc, callee, arguments));
    assert NodeMembers(VariableDeclaration(ds, kind)) == DeclarationMembers(VariableDeclaration(ds, kind));
  }

  /** A member other than "type" and "loc" is in a node's encoding exactly when its MarshalJSON adds it. */
  lemma EncodedMember(n: Node, k: string)
    requires !n.ArrayHole? && Encode(n).Some? && k != "type" && k != "loc"
    ensures NodeMembers(n).Some?
    ensures k in Encode(n).value.fields <==> k in NodeMembers(n).value
    ensures k in NodeMembers(n).value ==> Encode(n).value.fields[k] == NodeMembers(n).value[k]
  {
  }

  // The omission rules. Each is shown first on the members the node's
  // MarshalJSON adds, then carried over to the encoding by EncodedMember.

  lemma IfOwnMembers(loc: SourceLocation, test: Option<Node>, consequent: Option<Node>, alternate: Option<Node>)
    requires ChoiceMembers(IfStatement(loc, test, consequent, alternate)).Some?
    ensures var own := ChoiceMembers(IfStatement(loc, test, consequent, alternate)).value;
      "test" in own && "consequent" in own && ("alternate" in own <==> Kept(alternate))
  {
  }

  /** IfStatement.MarshalJSON (choice.go:51-59): "alternate" only when the alternate is kept. */
  lemma IfOmitsAlternate(loc: SourceLocation, test: Option<Node>, consequent: Option<Node>, alternate: Option<Node>)
    requires Encode(IfStatement(loc, test, consequent, alternate)).Some?
    ensures var fs := Encode(IfStatement(loc, test, consequent, alternate)).value.fields;
      "test" in fs && "consequent" in fs && ("alternate" in fs <==> Kept(alternate))
  {
    var n := IfStatement(loc, test, consequent, alternate);
    EncodedMember(n, "test");
    EncodedMember(n, "consequent");
    EncodedMember(n, "alternate");
    assert NodeMembers(n) == ChoiceMembers(n);
    IfOwnMembers(loc, test, consequent, alternate);
  }

  lemma SwitchOwnMembers(loc: SourceLocation, discriminant: Option<Node>, cases: seq<SwitchCase>)
    requires ChoiceMembers(SwitchStatement(loc, discriminant, cases)).Some?
    ensures var own := ChoiceMembers(SwitchStatement(loc, discriminant, cases)).value;
      "test" in own && EncodeOpt(discriminant) == Some(own["test"]) && ("cases" in own <==> |cases| > 0)
  {
  }

  /** SwitchStatement.MarshalJSON (choice.go:123-130): the discriminant under "test", "cases" only when there are some. */
  lemma SwitchOmitsNoCases(loc: SourceLocation, discriminant: Option<Node>, cases: seq<SwitchCase>)
    requires Encode(SwitchStatement(loc, discriminant, cases)).Some?
    ensures var fs := Encode(SwitchStatement(loc, discriminant, cases)).value.fields;
      "test" in fs && EncodeOpt(discriminant) == Some(fs["test"]) && ("cases" in fs <==> |cases| > 0)
  {
    var n := SwitchStatement(loc, discriminant, cases);
    EncodedMember(n, "test");
    EncodedMember(n, "cases");
    assert NodeMembers(n) == ChoiceMembers(n);
    SwitchOwnMembers(loc, discriminant, cases);
  }

  /** SwitchCase.MarshalJSON (choice.go:189-198): "test" only when there is one, "consequent" only when not empty. */
  lemma SwitchCaseOmissions(sc: SwitchCase)
    requires Encode(SwitchCaseNode(sc)).Some?
    ensures var fs := Encode(SwitchCaseNode(sc)).value.fields;
      ("test" in fs <==> sc.test.Some?) && ("consequent" in fs <==> |sc.consequent| > 0)
  {
    var n := SwitchCaseNode(sc);
    EncodedMember(n, "test");
    EncodedMember(n, "consequent");
    assert NodeMembers(n) == ChoiceMembers(n) == SwitchCaseMembers(sc);
  }

  lemma TryOwnMembers(loc: SourceLocation, block: BlockStatement, handler: CatchClause, finalizer: BlockStatement)
    requires ChoiceMembers(TryStatement(loc, block, handler, finalizer)).Some?
    ensures var own := ChoiceMembers(TryStatement(loc, block, handler, finalizer)).value;
      "block" in own
      && ("handler" in own <==> !CatchClauseIsZero(handler))
      && ("finalizer" in own <==> !finalizer.loc.IsZero() || |finalizer.body| > 0)
  {
  }

  /**
   * TryStatement.MarshalJSON (exception.go:100-110): always the block; the
   * handler only when it is not zero; the finalizer only when it has a
   * location or statements.
   */
  lemma TryOmissions(loc: SourceLocation, block: BlockStatement, handler: CatchClause, finalizer: BlockStatement)
    requires Encode(TryStatement(loc, block, handler, finalizer)).Some?
    ensures var fs := Encode(TryStatement(loc, block, handler, finalizer)).value.fields;
      "block" in fs
      && ("handler" in fs <==> !CatchClauseIsZero(handler))
      && ("finalizer" in fs <==> !finalizer.loc.IsZero() || |finalizer.body| > 0)
  {
    var n := TryStatement(loc, block, handler, finalizer);
    EncodedMember(n, "block");
    EncodedMember(n, "handler");
    EncodedMember(n, "finalizer");
    assert NodeMembers(n) == ChoiceMembers(n);
    TryOwnMembers(loc, block, handler, finalizer);
  }

  lemma ForOwnMembers(loc: SourceLocation, init: Option<Node>, test: Option<Node>, update: Option<Node>, body: Option<Node>)
    requires LoopMembers(ForStatement(loc, init, test, update, body)).Some?
    ensures var own := LoopMembers(ForStatement(loc, init, test, update, body)).value;
      "body" in own && ("init" in own <==> Kept(init)) && ("test" in own <==> Kept(test)) && ("update" in own <==> Kept(update))
  {
  }

  /** ForStatement.MarshalJSON (loop.go:175-188): init, test and update only when kept; the body always. */
  lemma ForOmissions(loc: SourceLocation, init: Option<Node>, test: Option<Node>, update: Option<Node>, body: Option<Node>)
    requires Encode(ForStatement(loc, init, test, update, body)).Some?
    ensures var fs := Encode(ForStatement(loc, init, test, update, body)).value.fields;
      "body" in fs && ("init" in fs <==> Kept(init)) && ("test" in fs <==> Kept(test)) && ("update" in fs <==> Kept(update))
  {
    var n := ForStatement(loc, init, test, update, body);
    EncodedMember(n, "body");
    EncodedMember(n, "init");
    EncodedMember(n, "test");
    EncodedMember(n, "update");
    assert NodeMembers(n) == LoopMembers(n);
    ForOwnMembers(loc, init, test, update, body);
  }

  // A member left out is never marshalled, so what it holds (a zero call,
  // say) does not stop its parent from encoding.

  /** IfStatement.MarshalJSON (choice.go:51-59) returns exactly when its test, consequent and kept alternate do. */
  lemma IfEncodes(loc: SourceLocation, test: Option<Node>, consequent: Option<Node>, alternate: Option<Node>)
    ensures Encode(IfStatement(loc, test, consequent, alternate)).Some?
      <==> EncodeOpt(test).Some? && EncodeOpt(consequent).Some? && (Kept(alternate) ==> EncodeOpt(alternate).Some?)
  {
    var n := IfStatement(loc, test, consequent, alternate);
    assert NodeMembers(n) == ChoiceMembers(n) == IfMembers(n);
  }

  /** TryStatement.MarshalJSON (exception.go:100-110) returns exactly when its blocks and a non-zero handler do. */
  lemma TryEncodes(loc: SourceLocation, block: BlockStatement, handler: CatchClause, finalizer: BlockStatement)
    ensures Encode(TryStatement(loc, block, handler, finalizer)).Some?
      <==> EncodeBlock(block).Some? && EncodeBlock(finalizer).Some? && (!CatchClauseIsZero(handler) ==> EncodeCatchClause(handler).Some?)
  {
    var n := TryStatement(loc, block, handler, finalizer);
    assert NodeMembers(n) == ChoiceMembers(n) == TryMembers(n);
  }

  /** ForStatement.MarshalJSON (loop.go:175-188) returns exactly when its body and its kept header parts do. */
  lemma ForEncodes(loc: SourceLocation, init: Option<Node>, test: Option<Node>, update: Option<Node>, body: Option<Node>)
    ensures Encode(ForStatement(loc, init, test, update, body)).Some?
      <==> (EncodeOpt(body).Some? && (Kept(init) ==> EncodeOpt(init).Some?)
           && (Kept(test) ==> EncodeOpt(test).Some?) && (Kept(update) ==> EncodeOpt(update).Some?))
  {
    var n := ForStatement(loc, init, test, update, body);
    assert NodeMembers(n) == LoopMembers(n);
  }

  /** A zero CallExpression, which has no encoding, does no harm in a slot that is left out. */
  lemma ZeroCallInOmittedSlot(loc: SourceLocation)
    ensures var call := Some(CallExpression(ZeroLocation, None, []));
      && Encode(ForStatement(loc, None, call, None, Some(EmptyStatement(loc)))).Some?
      && Encode(IfStatement(loc, Some(ThisExpression(loc)), Some(EmptyStatement(loc)), Some(ExpressionStatement(ZeroLocation, call)))).Some?
  {
    var call := Some(CallExpression(ZeroLocation, None, []));
    assert !Kept(call);
    assert !Kept(Some(ExpressionStatement(ZeroLocation, call)));
    assert EncodeOpt(Some(EmptyStatement(loc))).Some? by {
      assert NodeMembers(EmptyStatement(loc)) == StatementMembers(EmptyStatement(loc));
    }
    assert EncodeOpt(Some(ThisExpression(loc))).Some? by {
      assert NodeMembers(ThisExpression(loc)) == ExpressionMembers(ThisExpression(loc));
    }
    ForEncodes(loc, None, call, None, Some(EmptyStatement(loc)));
    IfEncodes(loc, Some(ThisExpression(loc)), Some(EmptyStatement(loc)), Some(ExpressionStatement(ZeroLocation, call)));
  }

  /** Break/ContinueStatement.MarshalJSON (control.go:141-147, 190-196): "label" only when the label has a name. */
  lemma LabelOmissions(loc: SourceLocation, lbl: Identifier)
    ensures Encode(BreakStatement(loc, lbl)).Some? && Encode(ContinueStatement(loc, lbl)).Some?
    ensures "label" in Encode(BreakStatement(loc, lbl)).value.fields <==> lbl.name != ""
    ensures "label" in Encode(ContinueStatement(loc, lbl)).value.fields <==> lbl.name != ""
  {
    assert NodeMembers(BreakStatement(loc, lbl)) == StatementMembers(BreakStatement(loc, lbl));
    assert NodeMembers(ContinueStatement(loc, lbl)) == StatementMembers(ContinueStatement(loc, lbl));
    EncodedMember(BreakStatement(loc, lbl), "label");
    EncodedMember(ContinueStatement(loc, lbl), "label");
  }

  /** Program.MarshalJSON (program.go:60-66): "body" only when the program has statements. */
  lemma ProgramOmitsEmptyBody(loc: SourceLocation, body: seq<Option<Node>>)
    requires Encode(Program(loc, body)).Some?
    ensures "body" in Encode(Program(loc, body)).value.fields <==> |body| > 0
  {
    EncodedMember(Program(loc, body), "body");
    assert NodeMembers(Program(loc, body)) == DeclarationMembers(Program(loc, body));
  }

  /** Directive.MarshalJSON (directive.go:19-25): type, expression and directive, and no location. */
  lemma DirectiveMembers(expression: Option<Node>, directive: string)
    requires Encode(Directive(expression, directive)).Some?
    ensures Encode(Directive(expression, directive)).value.fields.Keys == {"type", "expression", "directive"}
  {
    var n := Directive(expression, directive);
    assert NodeMembers(n) == DeclarationMembers(n);
  }

  // The literals' MarshalJSON (literal.go:95-183): type "Literal" and the
  // value under "value", except that null has no "value" and a regular
  // expression has only "regex", holding its pattern and flags.

  lemma EncodeStringLiteral(loc: SourceLocation, v: string)
    ensures Encode(StringLiteral(loc, v)) == Some(JObject(Header(LiteralType, loc) + map["value" := JString(v)]))
  {
    assert NodeMembers(StringLiteral(loc, v)) == LeafMembers(StringLiteral(loc, v));
  }

  lemma EncodeBoolLiteral(loc: SourceLocation, v: bool)
    ensures Encode(BoolLiteral(loc, v)) == Some(JObject(Header(LiteralType, loc) + map["value" := JBool(v)]))
  {
    assert NodeMembers(BoolLiteral(loc, v)) == LeafMembers(BoolLiteral(loc, v));
  }

  lemma EncodeNullLiteral(loc: SourceLocation)
    ensures Encode(NullLiteral(loc)) == Some(JObject(Header(LiteralType, loc) + map[]))
  {
    assert NodeMembers(NullLiteral(loc)) == LeafMembers(NullLiteral(loc));
  }

  lemma EncodeNumberLiteral(loc: SourceLocation, v: real)
    ensures Encode(NumberLiteral(loc, v)) == Some(JObject(Header(LiteralType, loc) + map["value" := JNumber(v)]))
  {
    assert NodeMembers(NumberLiteral(loc, v)) == LeafMembers(NumberLiteral(loc, v));
  }

  lemma EncodeRegExpLiteral(loc: SourceLocation, pattern: string, flags: string)
    ensures Encode(RegExpLiteral(loc, pattern, flags))
         == Some(JObject(Header(LiteralType, loc) + map["regex" := JObject(map["pattern" := JString(pattern), "flags" := JString(flags)])]))
  {
    assert NodeMembers(RegExpLiteral(loc, pattern, flags)) == LeafMembers(RegExpLiteral(loc, pattern, flags));
  }

  /** An Identifier used as a node writes its type, location and name (identifier.go:37-42). */
  lemma EncodeIdentifierNode(i: Identifier)
    ensures Encode(IdentifierNode(i)) == Some(JObject(Header("Identifier", i.loc) + map["name" := JString(i.name)]))
  {
    assert NodeMembers(IdentifierNode(i)) == LeafMembers(IdentifierNode(i));
  }

  // The leaf statements and Directive, written out.

  lemma EncodeEmptyStatement(loc: SourceLocation)
    ensures Encode(EmptyStatement(loc)) == Some(JObject(Header("EmptyStatement", loc) + map[]))
  {
    assert NodeMembers(EmptyStatement(loc)) == StatementMembers(EmptyStatement(loc));
  }

  lemma EncodeDebuggerStatement(loc: SourceLocation)
    ensures Encode(DebuggerStatement(loc)) == Some(JObject(Header("DebuggerStatement", loc) + map[]))
  {
    assert NodeMembers(DebuggerStatement(loc)) == StatementMembers(DebuggerStatement(loc));
  }

  lemma EncodeBreakStatement(loc: SourceLocation, lbl: Identifier)
    ensures Encode(BreakStatement(loc, lbl)) == Some(JObject(Header("BreakStatement", loc) + LabelMember(lbl)))
  {
    assert NodeMembers(BreakStatement(loc, lbl)) == StatementMembers(BreakStatement(loc, lbl));
  }

  lemma EncodeContinueStatement(loc: SourceLocation, lbl: Identifier)
    ensures Encode(ContinueStatement(loc, lbl)) == Some(JObject(Header("ContinueStatement", loc) + LabelMember(lbl)))
  {
    assert NodeMembers(ContinueStatement(loc, lbl)) == StatementMembers(ContinueStatement(loc, lbl));
  }

  /** A Directive holding an encodable expression. */
  lemma EncodeDirective(e: Node, directive: string)
    requires Encode(e).Some?
    ensures Encode(Directive(Some(e), directive))
         == Some(JObject(Header("Directive", ZeroLocation) + map["expression" := Encode(e).value, "directive" := JString(directive)]))
  {
    var n := Directive(Some(e), directive);
    assert NodeMembers(n) == DeclarationMembers(n);
    assert EncodeOpt(Some(e)) == Encode(e);
    assert Location(n) == ZeroLocation;
    assert Type(n) == "Directive";
  }
}
