# ESTree (ES5) nodes in Dafny

This project models the node layer of a Go package for the ESTree abstract
syntax tree of ECMAScript 5. It covers six parts:

- The node types and their `Type`, `Location`, `MinVersion` and `IsZero`
  methods.
- The operator and kind token sets, with `IsValid` and `GoString`.
- The depth-first `Walk` of a node, as the trace of visits a visitor sees.
- The per-node `Errors` validation, built on the `nodeChecker` helper.
- The union dispatchers that read a JSON value's `"type"` and pick a node
  type (`unmarshalExpression`, `unmarshalStatement`, `unmarshalPattern`,
  `unmarshalLiteral` and the combined ones).
- Each node's `MarshalJSON` and `UnmarshalJSON`.

Module layout, one module per file:

- `Json` (json.dfy) is an abstract JSON value. An object is a map. `Raw`
  stands for `json.RawMessage`: `None` is the empty message an absent key
  leaves behind. The module also models encoding/json decoding into a Go
  struct:
  - a value of the wrong JSON kind is remembered, and decoding goes on;
  - a nested `UnmarshalJSON` error stops it.
- `Text` (text.dfy) models `%d` and `%q` printing, with their inverses. `%q`
  escapes quotes, backslashes and the ASCII control characters.
- `Ast` (ast.dfy) holds the `Node` datatype (one constructor per Go node
  type), `Type`, `Location`, `MinVersion` and the marker-interface groups.
- `Tokens` (tokens.dfy) holds the token sets, with `IsValid` and `GoString`.
- `Zero` (zero.dfy) holds `IsZero` and `Missing`, which is "nil or zero".
- `Traversal` (traversal.dfy) defines `Walk` as the sequence of visits. A
  `Some(n)` entry is a visit of `n`. A `None` entry is the closing
  `Visit(nil)`.
- `Checker` (checker.dfy) has the class `NodeChecker`. Its fields are the
  `checked` and `locations` slices the Go methods append to, plus the ghost
  list of faults found so far. The module also holds `SyntaxError.Error` and
  `findPosition`.
- `Validation` (validation.dfy) has one driver method per `Errors` method,
  each proved against a function that lists the faults in checking order.
  `NodeErrors` dispatches over every node.
- `Decoding` (decoding.dfy) models every dispatcher and every
  `UnmarshalJSON`. Each returns its value together with its error.
  Dispatchers return `(node, matched, error)`.
- `Encoding` (encoding.dfy) models every `MarshalJSON`, including which keys
  each one omits.
- `Dispatch`, `NodeDecoding`, `RoundTrip` and `Slices` hold lemmas about
  decoding: the type gate, behaviour on null and empty input, the decode of
  an encoding, and array holes.

Three behaviours are modelled as the code has them, even where the tests or
the surrounding prose suggest otherwise:

- `FunctionDeclaration`, `VariableDeclaration` and `VariableDeclarator`
  report the type strings `"FunctionDelaration"`, `"VariableDelaration"` and
  `"VariableDelarator"`. The encoder writes them and the decoders demand
  them.
- Several decoders drop or lose what they read:
  - `IfStatement` and `SwitchCase` pass their optional member to a
    dispatcher even when the key is absent, and the dispatcher fails with a
    syntax error;
  - `ForStatement` decodes nothing but its type unless `init` is present,
    and later members overwrite an earlier member's error;
  - `ObjectExpression` keeps its location only on the wrong-type path, and
    never keeps its properties;
  - `NewExpression` never reads its location, and `VariableDeclaration`
    never stores its declarations;
  - the expression dispatcher returns the zero `ThisExpression` without
    decoding the object.
- `findPosition` tests `locations[i]` where `locations[j]` is meant, and
  `VariableDeclarationKind.GoString` compares with `"Var"`, not `"var"`.

Some of the Go functions return three results but are called with two. That
cannot compile in Go, so those calls are modelled as (value, error) pairs.
This affects the declaration and directive dispatchers.

## Model

| member | source | states |
|---|---|---|
| Json.Members | unary.go:101-108 | json.Unmarshal into a struct succeeds exactly for an object or null; an object yields its members, anything else none |
| Json.UnmarshalError | unary.go:108 | the error is the opening one if any, else the first stopping field error, else the first remembered kind error; none exactly when all are none |
| Json.Field | unary.go:106 | a RawMessage field holds the member's value exactly when the key is present, and is empty otherwise |
| Json.StringOf | unary.go:104 | a string field reads a JSON string as itself; absent or null leaves "" without error; any other value is a type error and leaves "" |
| Ast.ZeroLocationIsOnlyZero | node.go:81-84 | a source location is zero exactly when it is the empty source with both positions at 0:0 |
| Ast.VersionString | node.go:132-152 | each known revision ES5 through ES2021 prints as its "ES" name; any other version prints as its decimal number |
| Ast.VersionStringInjective | node.go:132-152 | two versions that print alike are equal, so ES2015 prints as ES6 and no number collides with a name |
| Ast.Location | expression.go:134 | ArrayHole reports the zero location; so do the three declaration-like nodes that have no location field |
| Ast.TypeSharedStrings | statement.go:216 | the type string tells the variants apart except that the five literals all report "Literal" and FunctionBody reports "BlockStatement" |
| Ast.MinVersion | statement.go:87-105 | every node whose MinVersion is defined requires ES5, proved through the recursive call for an ExpressionStatement, which takes its expression's version |
| Zero.ZeroHasZeroLocation | binary.go:112-117 | a node that IsZero has a zero location, over every variant of Zero.IsZero |
| Zero.ZeroStatementsAreZero | control.go:18-21 | the zero ExpressionStatement and ReturnStatement are zero |
| Zero.ZeroJumpsAreZero | control.go:126-128 | the zero BreakStatement and ContinueStatement are zero |
| Zero.ZeroTryIsZero | exception.go:73-78 | the zero TryStatement is zero |
| Zero.PrefixUnaryIsNotZero | unary.go:62-67 | a prefix UnaryExpression is never zero, and the zero UnaryExpression is zero |
| Zero.NeverZeroIsNotZero | expression.go:93 | the node types whose IsZero is a constant false are never zero |
| Zero.MemberIsZeroIgnoresComputed | binary.go:443-447 | MemberExpression.IsZero is the same whatever Computed holds |
| Text.Decimal | node.go:151 | %d of an integer is non-empty and starts with a digit exactly when the integer is non-negative |
| Text.DecimalRoundTrip | node.go:151 | %d of an integer reads back as that integer |
| Text.Quote | binary.go:81 | %q of a string is delimited by double quotes around the escaped characters |
| Text.EscapeChar | binary.go:81 | a character is written as itself exactly when it is not a control character, a quote or a backslash; otherwise the escape starts with a backslash |
| Text.QuoteHasNoControl | binary.go:81 | no control character appears in %q output: each is written as a named or \x escape |
| Text.QuoteRoundTrip | binary.go:81 | %q of a string unquotes back to that string |
| Tokens.BinaryOperatorGoString | binary.go:36-82 | a valid operator prints as the name of its constant (no leading quote); any other string prints quoted with %q |
| Tokens.BinaryOperatorGoStringRoundTrip | binary.go:36-93 | the GoString of any string determines it: reading it back yields the same operator |
| Tokens.AssignmentOperatorGoString | binary.go:198-226 | a valid operator prints as its constant's name; any other string prints quoted |
| Tokens.AssignmentOperatorGoStringRoundTrip | binary.go:198-237 | the GoString of any string reads back as that string |
| Tokens.LogicalOperatorGoString | binary.go:328-336 | a valid operator prints as its constant's name; any other string prints quoted |
| Tokens.LogicalOperatorGoStringRoundTrip | binary.go:328-345 | the GoString of any string reads back as that string |
| Tokens.UnaryOperatorGoString | unary.go:22-40 | a valid operator prints as its constant's name; any other string prints quoted |
| Tokens.UnaryOperatorGoStringRoundTrip | unary.go:22-48 | the GoString of any string reads back as that string |
| Tokens.UpdateOperatorGoString | unary.go:136-144 | a valid operator prints as its constant's name; any other string prints quoted |
| Tokens.UpdateOperatorGoStringRoundTrip | unary.go:136-152 | the GoString of any string reads back as that string |
| Tokens.PropertyKindGoString | expression.go:274-284 | a valid kind prints as its constant's name; any other string prints quoted |
| Tokens.PropertyKindGoStringRoundTrip | expression.go:274-292 | the GoString of any string reads back as that string |
| Tokens.VariableDeclarationKindGoString | declaration.go:116-121 | the comparison is with "Var", so only the string "Var" prints bare (unquoted) and every other string, the kind Var ("var") included, prints quoted; Tokens.VariableDeclarationKindGoStringRoundTrip reads every output back |
| Traversal.Walk | node.go:34-41 | the node is visited first; when the visitor descends, the trace ends with the closing nil visit; when it prunes, the trace is the node alone |
| Traversal.WalkIsBalanced | node.go:34-41 | in a walk, every visit the visitor descends into is closed by exactly one nil visit |
| Traversal.WalkVisitsEveryChild | node.go:34-41 | a descended walk contains every non-nil entry of Children(n), and at least one visit per such child besides the node's own |
| Traversal.ChildrenAreSmaller | node.go:34-41 | the children Walk descends into (Traversal.Children, in each Walk method's order) are together smaller than the node |
| Traversal.WalkAllContains | node.go:34-41 | walking a list of children contains every non-nil child of the list |
| Traversal.ArrayExpressionTrace | expression.go:161-170 | an array of ThisExpression and a hole visits the array, each element, and closes each |
| Traversal.BinaryExpressionTrace | binary.go:119-129 | left operand then right operand, each closed; a nil operand is skipped |
| Traversal.BreakStatementTrace | control.go:130-135 | a BreakStatement visits its label even when the label is zero |
| Traversal.FunctionExpressionTrace | expression.go:392-396 | a FunctionExpression visits no children |
| Traversal.PrunedTrace | binary.go:119-129 | a visitor that returns nil sees only the node, with no nil visit |
| Traversal.SwitchCaseTrace | choice.go:165-177 | a SwitchCase with a zero test skips the test and the nil consequents |
| Traversal.SwitchCaseSkipsZeroTest | choice.go:165-177 | a zero test is not walked; the consequents are |
| Checker.ErrorPrefix | error.go:42-64 | the prefix is empty exactly when there is no source name, no positive line and no non-negative column; otherwise it ends in a space |
| Checker.ErrorFallsBackToNodeStart | error.go:51-53 | an error at line 0 prints the node's start position |
| Checker.ErrorEndsWithFault | error.go:63-64 | the message ends with the wrapped error's text |
| Checker.PositionForErrors | error.go:124-143 | findPosition does not index out of range for any index that holds an error |
| Checker.PositionForIgnoresEarlierEnds | error.go:130-134 | the loop tests locations[i] instead of locations[j], so an earlier node's end is skipped when the error's own location is zero |
| Checker.Reported | error.go:146-158 | the reported errors are exactly the checked entries that hold an error, in order |
| Checker.MissingFaults | error.go:105-113 | one missing-node fault per nil or zero element, each naming an index below the bound |
| Checker.MissingFaultsEmpty | error.go:105-113 | no fault exactly when no element is nil or zero |
| Checker.MissingFaultsOrdered | error.go:105-113 | the faults come in increasing index order |
| Checker.MissingFaultsComplete | error.go:105-113 | every nil or zero element gets its fault |
| Checker.NodeChecker.constructor | error.go:71-75 | a fresh checker for a node has nothing checked |
| Checker.NodeChecker.Appendf | error.go:78-84 | appends one error naming the node and one zero location |
| Checker.NodeChecker.Require | error.go:88-94 | appends an error for a nil or zero node, otherwise only that node's location |
| Checker.NodeChecker.RequireEach | error.go:105-113 | appends, element by element, an error or the element's location |
| Checker.NodeChecker.Optional | error.go:116-121 | for a non-nil node, appends an empty entry and its location; finds no fault |
| Checker.NodeChecker.FindPosition | error.go:124-143 | returns the position findPosition computes, or None where it would index out of range |
| Checker.NodeChecker.Errors | error.go:146-158 | returns every checked error with its position filled in; their faults are exactly those found, each naming the node |
| Checker.CheckNode | expression.go:172-179 | running a list of checks on a fresh checker reports exactly the faults the checks find, in order, each naming the node |
| Checker.ReportedFaults | error.go:146-158 | errors() drops no fault and adds none |
| Checker.FirstErrorAtNodeStart | error.go:125-128 | when the first check fails, the first error is placed at the node start |
| Checker.ReportedPrefix | error.go:146-158 | reporting a prefix of the checks gives a prefix of the errors |
| Checker.ReportedNode | error.go:146-158 | every reported error names the checked node |
| Validation.ArrayExpressionErrors | expression.go:172-179 | one missing-element error per nil or zero element, and nothing else |
| Validation.ObjectExpressionErrors | expression.go:235-242 | one missing-property error per zero property, and nothing else |
| Validation.PropertyErrors | expression.go:325-333 | a missing key, a missing value, an invalid kind, in that order |
| Validation.FunctionExpressionErrors | expression.go:398-407 | one error per nil or zero parameter; the body check never fails |
| Validation.ConditionalExpressionErrors | expression.go:482-488 | a missing test, consequent or alternate, in that order |
| Validation.CallExpressionErrors | expression.go:554-562 | a missing callee, then one error per missing argument |
| Validation.NewExpressionErrors | expression.go:626-634 | a missing callee, then one error per missing argument |
| Validation.SequenceExpressionErrors | expression.go:689-696 | one error per missing expression |
| Validation.BinaryExpressionErrors | binary.go:131-139 | a missing left operand, an invalid operator, a missing right operand, in that order |
| Validation.AssignmentExpressionErrors | binary.go:271-279 | a missing left side, an invalid operator, a missing right side, in that order |
| Validation.LogicalExpressionErrors | binary.go:377-385 | a missing left operand, an invalid operator, a missing right operand, in that order |
| Validation.MemberExpressionErrors | binary.go:461-466 | a missing object, then a missing property |
| Validation.UnaryExpressionErrors | unary.go:78-90 | argument before operator when prefix, operator before argument otherwise |
| Validation.UpdateExpressionErrors | unary.go:182-194 | argument before operator when prefix, operator before argument otherwise |
| Validation.IdentifierErrors | identifier.go:28-35 | exactly one wrong-value error when the name is empty |
| Validation.ExpressionStatementErrors | statement.go:120-124 | an error exactly when the expression is nil or zero |
| Validation.BlockStatementErrors | statement.go:170-177 | one error per missing statement |
| Validation.FunctionBodyErrors | statement.go:229-236 | one error per missing directive or statement |
| Validation.WithStatementErrors | statement.go:368-373 | a missing object, then a missing body |
| Validation.IfStatementErrors | choice.go:43-49 | a missing test, then a missing consequent; the alternate is only marked |
| Validation.SwitchStatementErrors | choice.go:117-121 | an error exactly when the discriminant is missing; the cases are not checked |
| Validation.SwitchCaseErrors | choice.go:179-187 | one error per missing consequent statement; the test is only marked |
| Validation.ThrowStatementErrors | exception.go:31-35 | an error exactly when the argument is missing |
| Validation.TryStatementErrors | exception.go:89-98 | one error when both handler and finalizer are zero, else none |
| Validation.CatchClauseErrors | exception.go:158-163 | an error exactly when the parameter is missing; the body check never fails |
| Validation.ProgramErrors | program.go:51-58 | one error per missing directive or statement |
| Validation.NodeErrors | node.go:43-48 | every node's Errors returns the faults its own checks find, each naming the node; the stub Errors methods report none |
| Validation.OperatorFaultsShape | binary.go:131-139 | no fault exactly when both operands are present and the operator is valid; a wrong-value fault exactly when it is not; a missing left comes first, a missing right last |
| Validation.PrefixedFaultOrder | unary.go:78-90 | with a missing argument and a bad operator, prefix reports the argument first and postfix the operator first |
| Validation.PrefixedFaultsEmpty | unary.go:78-90 | no fault exactly when the argument is present and the operator valid; prefix changes only the order |
| Validation.IdentifierFaultsIffEmptyName | identifier.go:28-35 | an Identifier has a fault exactly when its name is empty, and it is a wrong-value fault |
| Validation.TryFaultsIffIncomplete | exception.go:89-98 | a fault exactly when handler and finalizer are both zero; the block is not checked; the zero TryStatement has exactly that fault |
| Validation.FunctionBodyNeverMissing | expression.go:398-407 | a FunctionExpression's faults are exactly its missing parameters |
| Validation.CatchBlockNeverMissing | exception.go:158-163 | a CatchClause's faults are exactly a missing parameter |
| Validation.IfAlternateUnchecked | choice.go:43-49 | the alternate never changes the faults, of which there are at most two |
| Validation.ArrayFaultsByIndex | expression.go:172-179 | every missing element has a fault at its index, and the faults are in index order |
| Validation.ObjectFaultsByIndex | expression.go:235-242 | no fault exactly when no property is zero |
| Validation.UncheckedAcceptsAll | control.go:32-34 | nodes whose Errors is a stub or absent report no fault |
| Validation.ZeroOperatorExpressionFaults | binary.go:131-139 | a zero binary, assignment or logical expression has exactly three faults: missing, wrong value, missing |
| Decoding.DecodePosition | node.go:102-111 | an absent position decodes to 0:0 without error |
| Decoding.DecodeLocation | node.go:67-79 | an absent location decodes to the zero location without error |
| Decoding.CheckType | expression.go:112-114 | no error exactly when there was none before and the type is the expected one; an earlier error is kept |
| Decoding.PeekType | expression.go:21-24 | a type is read only from an object or null; the empty message is a syntax error |
| Decoding.DecodeIdentifier | identifier.go:43-57 | on any error the receiver is left unchanged |
| Decoding.UnmarshalLiteral | literal.go:17-51 | a literal comes back exactly when there is no error; an unmatched type is the wrong-type error |
| Decoding.UnmarshalLiteralOrIdentifier | literal.go:58-67 | yields a literal or an Identifier, a node whenever there is no error, and wrong-type with no node when neither matches; Dispatch.LiteralMatchIsFinal states the priority |
| Decoding.UnmarshalPattern | pattern.go:16-26 | an Identifier comes back exactly when there is no error; no match exactly on the wrong-type error |
| Decoding.UnmarshalExpression | expression.go:20-75 | a match exactly for a readable type among the expression types; an expression exactly when there is no error; otherwise the read error or wrong type |
| Decoding.PrimaryCases | expression.go:27-38 | matches exactly the primary expression types |
| Decoding.UnaryCases | expression.go:39-44 | matches exactly the unary and update expression types |
| Decoding.BinaryCases | expression.go:45-56 | matches exactly the binary, assignment, logical and member expression types |
| Decoding.CompoundCases | expression.go:57-68 | matches exactly the conditional, call, new and sequence types and decodes each with its own decoder; any other type is unmatched with the wrong-type error |
| Decoding.UnmarshalStatement | statement.go:14-85 | a read error counts as a match and is returned; otherwise a match exactly for the statement types; a statement exactly when there is no error |
| Decoding.SimpleStatementCases | statement.go:23-43 | matches exactly the expression, block, empty, debugger and with statement types |
| Decoding.ControlCases | statement.go:44-55 | matches exactly the return, labeled, break and continue types |
| Decoding.ChoiceCases | statement.go:56-67 | matches exactly the if, switch, throw and try types |
| Decoding.LoopCases | statement.go:68-79 | matches exactly the while, do-while, for and for-in types |
| Decoding.UnmarshalPatternOrExpression | pattern.go:33-41 | yields a pattern or an expression exactly when there is no error |
| Decoding.UnmarshalDirectiveOrStatement | program.go:15-26 | yields a directive or a statement exactly when there is no error |
| Decoding.UnmarshalVariableDeclarationOrExpression | declaration.go:70-85 | yields a VariableDeclaration or an expression exactly when there is no error; Dispatch.DeclarationErrorIsFinal states the priority |
| Decoding.UnmarshalVariableDeclarationOrPattern | declaration.go:93-108 | yields a VariableDeclaration or a pattern exactly when there is no error; Dispatch.DeclarationErrorIsFinal states the priority |
| Decoding.DecodeElement | expression.go:201-208 | null decodes to ArrayHole; an element exactly when there is no error |
| Decoding.DecodeElements | expression.go:200-209 | one decoded element per array item |
| Decoding.DecodeArgumentsUntilError | expression.go:588-592 | one entry per argument item; what each entry holds and the error it stops at are stated by Slices.LoopAt and Slices.LoopError |
| Decoding.DecodeParamsUntilError | expression.go:431-435 | one entry per parameter item; Slices.LoopAt and Slices.LoopError state the entries up to the first bad parameter, nil after it, and that error |
| Decoding.DecodeParams | expression.go:439-445 | one entry per parameter item; Slices.LoopAt and Slices.LoopError state that every parameter is decoded and the first error kept |
| Decoding.DecodeStatements | statement.go:195-205 | one entry per statement item; Slices.LoopAt and Slices.LoopError state each entry and the first error kept |
| Decoding.DecodeBodyItems | statement.go:254-264 | one entry per body item; Slices.LoopAt and Slices.LoopError state each entry and the first error kept |
| Decoding.DecodeThisExpression | expression.go:106-119 | yields a ThisExpression; NodeDecoding.ExpressionGate states its type gate and Dispatch.ThisExpressionIsZero that every result is the zero node |
| Decoding.DecodeArrayExpression | expression.go:187-213 | yields an ArrayExpression; NodeDecoding.ExpressionGate states its type gate |
| Decoding.DecodeObjectExpression | expression.go:250-262 | yields an ObjectExpression; NodeDecoding.ObjectExpressionDropsFields and NodeDecoding.ObjectExpressionWrongTypeKeepsLocation state its result |
| Decoding.DecodeFunctionExpression | expression.go:417-448 | yields a FunctionExpression; NodeDecoding.CallGate states its type gate |
| Decoding.DecodeConditionalExpression | expression.go:498-522 | yields a ConditionalExpression; NodeDecoding.ExpressionGate states its type gate |
| Decoding.DecodeCallExpression | expression.go:571-595 | yields a CallExpression; NodeDecoding.CallGate states its type gate and Slices.LoopAt its argument loop |
| Decoding.DecodeNewExpression | expression.go:643-664 | yields a NewExpression whose location is always zero, because the loc key is never read; NodeDecoding.NewExpressionGate states its type gate and that loc is ignored |
| Decoding.DecodeSequenceExpression | expression.go:704-725 | yields a SequenceExpression; NodeDecoding.ExpressionGate states its type gate |
| Decoding.DecodeBinaryExpression | binary.go:149-177 | yields a BinaryExpression; NodeDecoding.OperatorGate states its type gate and NodeDecoding.BinaryOperands its operands, operator and error |
| Decoding.DecodeAssignmentExpression | binary.go:289-317 | yields an AssignmentExpression; NodeDecoding.OperatorGate states its type gate and NodeDecoding.AssignmentLeftIsPattern that the left side is read as a pattern or expression |
| Decoding.DecodeLogicalExpression | binary.go:395-420 | yields a LogicalExpression; NodeDecoding.OperatorGate states its type gate and NodeDecoding.BinaryOperands its operands, operator and error |
| Decoding.DecodeMemberExpression | binary.go:476-497 | yields a MemberExpression; NodeDecoding.OperatorGate states its type gate |
| Decoding.DecodeUnaryExpression | unary.go:100-125 | yields a UnaryExpression; NodeDecoding.UnaryGate states its type gate and NodeDecoding.UnaryOperatorOnlyWhenValid what it reads |
| Decoding.DecodeUpdateExpression | unary.go:204-229 | yields an UpdateExpression; NodeDecoding.UnaryGate states its type gate and NodeDecoding.UpdateOperatorOnlyWhenValid what it reads |
| Decoding.DecodeExpressionStatement | statement.go:132-147 | yields an ExpressionStatement; NodeDecoding.SimpleStatementGate states its type gate |
| Decoding.DecodeEmptyStatement | statement.go:288-301 | yields an EmptyStatement; NodeDecoding.SimpleStatementGate states its type gate and RoundTrip.EmptyStatementFromFields its result |
| Decoding.DecodeDebuggerStatement | statement.go:324-337 | yields a DebuggerStatement; NodeDecoding.SimpleStatementGate states its type gate and RoundTrip.DebuggerStatementFromFields its result |
| Decoding.DecodeWithStatement | statement.go:382-401 | yields a WithStatement; NodeDecoding.SimpleStatementGate states its type gate and NodeDecoding.WithBodyAfterObject the order of its members |
| Decoding.DecodeReturnStatement | control.go:42-57 | yields a ReturnStatement; NodeDecoding.ControlGate states its type gate and NodeDecoding.NullArgumentFails its null argument |
| Decoding.DecodeLabeledStatement | control.go:98-114 | yields a LabeledStatement; NodeDecoding.JumpGate states its type gate |
| Decoding.DecodeBreakStatement | control.go:149-163 | yields a BreakStatement; NodeDecoding.JumpGate and NodeDecoding.JumpDecoding state its gate and its result for any input |
| Decoding.DecodeContinueStatement | control.go:198-212 | yields a ContinueStatement; NodeDecoding.JumpGate and NodeDecoding.JumpDecoding state its gate and its result for any input |
| Decoding.DecodeIfStatement | choice.go:61-85 | yields an IfStatement; NodeDecoding.ControlGate states its type gate and NodeDecoding.IfWithoutAlternate its missing alternate |
| Decoding.DecodeSwitchStatement | choice.go:132-148 | yields a SwitchStatement; NodeDecoding.ChoiceGate states its type gate and NodeDecoding.SwitchReadsTest that the discriminant is read from "test" |
| Decoding.DecodeThrowStatement | exception.go:43-58 | yields a ThrowStatement; NodeDecoding.ControlGate states its type gate |
| Decoding.DecodeTryStatement | exception.go:112-129 | yields a TryStatement; NodeDecoding.ChoiceGate states its type gate |
| Decoding.DecodeWhileStatement | loop.go:48-68 | yields a WhileStatement; NodeDecoding.LoopGate states its type gate |
| Decoding.DecodeDoWhileStatement | loop.go:110-130 | yields a DoWhileStatement; NodeDecoding.LoopGate states its type gate |
| Decoding.DecodeForStatement | loop.go:190-224 | yields a ForStatement; NodeDecoding.LoopGate states its type gate and NodeDecoding.ForWithoutInit its missing init |
| Decoding.DecodeForInStatement | loop.go:271-295 | yields a ForInStatement; NodeDecoding.LoopGate states its type gate |
| Decoding.DecodeProgram | program.go:68-94 | yields a Program; NodeDecoding.ChoiceGate states its type gate and NodeDecoding.ProgramDecodesEveryItem its body |
| Decoding.DecodeDirective | directive.go:27-44 | yields a Directive; NodeDecoding.DirectiveGate states its type gate and RoundTrip.DirectiveDecoded its result |
| Decoding.DecodeFunctionDeclaration | declaration.go:39-62 | yields a FunctionDeclaration; NodeDecoding.FunctionDeclarationGate, NodeDecoding.FunctionDeclarationDecodes and NodeDecoding.BadParameterStops state its gate and its result |
| Decoding.DecodeVariableDeclaration | declaration.go:141-159 | yields a VariableDeclaration whose declarations are always empty, because the decoded slice is never stored |
| Dispatch.NullDiscriminator | expression.go:21-24 | null reads as the empty type without error |
| Dispatch.NullIsNoExpression | expression.go:20-75 | null is not an expression: no match, wrong type |
| Dispatch.NullIsNoStatement | statement.go:14-85 | null is not a statement: no match, wrong type |
| Dispatch.NullIsNoLeaf | pattern.go:16-26 | null is neither a pattern nor a literal |
| Dispatch.EmptyIsSyntaxError | statement.go:19-21 | the empty message is a syntax error; only the expression dispatcher reports it as no match |
| Dispatch.LeavesAreNotExpressions | expression.go:20-75 | an object typed Identifier or Literal is not matched as an expression |
| Dispatch.ThisExpressionIsZero | expression.go:26-27 | any object typed ThisExpression becomes the zero ThisExpression; its location is dropped |
| Dispatch.BlockStatementDispatch | statement.go:26 | BlockStatement is always matched and yields a BlockStatement |
| Dispatch.UnknownStatementType | statement.go:14-85 | any other readable type: no match, wrong type |
| Dispatch.PatternMatchIsFinal | pattern.go:33-41 | once the pattern dispatcher matches, its result is final, error included |
| Dispatch.BadIdentifierIsFinal | pattern.go:33-41 | an Identifier with a numeric name fails, and the expression dispatcher is not tried |
| Dispatch.BadIdentifierName | identifier.go:43-57 | an Identifier with a numeric name is a matched type error |
| Dispatch.StatementMatchIsFinal | program.go:15-26 | once the statement dispatcher matches, its result is final |
| Dispatch.EmptyBodyItem | program.go:15-26 | an empty body item is a syntax error |
| Dispatch.KindErrorIsFinal | declaration.go:141-159 | a kind other than "var" fails the declaration with the kind error, in both combined dispatchers |
| Dispatch.LiteralMatchIsFinal | literal.go:58-67 | a matched literal decoding is the union's result and Identifier is not tried; the union matches exactly when the literal does or the Identifier error is not wrong-type, and then returns the Identifier result |
| Dispatch.DeclarationErrorIsFinal | declaration.go:70-85 | a decoded VariableDeclaration is returned; a VariableDeclaration error other than wrong type is returned without trying the other decoder; after wrong type, the result is the expression (or pattern) decoder's, in both unions |
| Dispatch.DeclarationSpelling | declaration.go:129 | a document typed with the correct spelling "VariableDeclaration" is rejected as the wrong type |
| NodeDecoding.ExpressionGate | expression.go:106-114 | a readable object whose type is not ThisExpression, ConditionalExpression, ArrayExpression or SequenceExpression decodes, under that decoder, to the zero node with the wrong-type error (the slice decoders need a well-formed list) |
| NodeDecoding.CallGate | expression.go:571-581 | the same type gate for CallExpression and FunctionExpression |
| NodeDecoding.NewExpressionGate | expression.go:643-664 | the same type gate for NewExpression; and its decoding is the same whatever the loc key holds |
| NodeDecoding.OperatorGate | binary.go:149-160 | the same type gate for the binary, assignment, logical and member expressions |
| NodeDecoding.UnaryGate | unary.go:100-111 | the same type gate for the unary and update expressions |
| NodeDecoding.UnaryOperatorOnlyWhenValid | unary.go:112-123 | past the gate, loc and prefix are copied, the operator is stored only when valid and left empty otherwise, and the argument is decoded; its error is the one returned |
| NodeDecoding.UpdateOperatorOnlyWhenValid | unary.go:216-227 | past the gate, loc and prefix are copied; a valid operator is stored and the argument's error returned; an invalid one leaves the operator empty and an error is returned |
| NodeDecoding.JumpGate | control.go:98-108 | the same type gate for the labeled, break and continue statements |
| NodeDecoding.JumpDecoding | control.go:149-163 | for any input, Break and Continue succeed exactly when the object, type, loc and label read cleanly, and then hold that location and label; otherwise they are zero |
| NodeDecoding.ChoiceGate | program.go:68-77 | the same type gate for the switch and try statements and the Program |
| NodeDecoding.RecordGate | statement.go:185-194 | the same type gate for BlockStatement, FunctionBody, Property, SwitchCase, CatchClause and VariableDeclarator |
| NodeDecoding.WithBodyAfterObject | statement.go:391-400 | a bad object stops the decode with its error and no body; a good object is followed by the body, whose error is returned |
| NodeDecoding.ProgramDecodesEveryItem | program.go:79-91 | every body item is decoded in place, an empty body gives no items, the error is the first item error, and none when every item decodes |
| NodeDecoding.SimpleStatementGate | statement.go:132-147 | the same type gate for the expression, empty, debugger and with statements |
| NodeDecoding.ControlGate | control.go:42-57 | the same type gate for the return, throw and if statements |
| NodeDecoding.LoopGate | loop.go:48-68 | the same type gate for the four loops |
| NodeDecoding.IdentifierGate | identifier.go:43-57 | a wrong type leaves the receiver unchanged and reports wrong type |
| NodeDecoding.DirectiveGate | directive.go:27-44 | a wrong type yields the zero Directive and wrong type |
| NodeDecoding.ForWithoutInit | loop.go:190-224 | a ForStatement without init decodes to a ForStatement whose test, update and body are all dropped, without error |
| NodeDecoding.IfWithoutAlternate | choice.go:61-85 | an IfStatement without alternate fails with a syntax error |
| NodeDecoding.DefaultCaseFails | choice.go:200-229 | a SwitchCase without test fails with a syntax error |
| NodeDecoding.NullArgumentFails | control.go:42-57 | a ReturnStatement with a null argument fails with wrong type |
| NodeDecoding.ObjectExpressionDropsFields | expression.go:250-262 | a successful decode yields the empty ObjectExpression |
| NodeDecoding.ObjectExpressionWrongTypeKeepsLocation | expression.go:256-259 | the location is kept only on the wrong-type path |
| NodeDecoding.EmptyConsequent | choice.go:200-229 | an absent, null or empty consequent decodes to no statements |
| NodeDecoding.BadParameterStops | declaration.go:51-57 | a bad parameter stops the decode: id and body stay zero and its error is returned |
| NodeDecoding.BinaryOperands | binary.go:161-175 | past the gate, Binary and Logical copy loc, keep the operator only when valid (never reporting an invalid one), read both operands with unmarshalExpression, and report the right operand's error, else the left's |
| NodeDecoding.AssignmentLeftIsPattern | binary.go:301-315 | past the gate, the left side is read with unmarshalPatternOrExpression and the right with unmarshalExpression; the error is the right's, else the left's |
| NodeDecoding.SwitchReadsTest | choice.go:132-148 | the discriminant is decoded from the "test" member, and a "discriminant" member changes nothing; the error is test's |
| NodeDecoding.CatchParamIsPattern | exception.go:172-188 | past the gate, the param is read with unmarshalPattern (an Identifier when present) and its error is the result's |
| NodeDecoding.DeclaratorDecoding | declaration.go:179-196 | the id is read as a pattern; init is read as an expression only when the id decodes and "init" is present, and the error is the first of the two |
| NodeDecoding.FunctionDeclarationGate | declaration.go:39-50 | any type other than the misspelt "FunctionDelaration", the correct spelling included, gives the zero FunctionDeclaration and wrong type |
| NodeDecoding.FunctionDeclarationDecodes | declaration.go:51-61 | past the gate, the params and the error are the parameter loop's; id and body are assigned exactly when it has no error, otherwise they stay zero |
| Slices.StoppingLoopNoError | declaration.go:51-57 | a loop that stops at its first error but met none holds every item's decoding, in order |
| Tokens.VariableDeclarationKindGoStringRoundTrip | declaration.go:116-121 | every kind string is read back from its GoString |
| Encoding.EncodePosition | node.go:102-111 | a position encodes with the exported field names Line and Column |
| Encoding.EncodeLocation | node.go:86-99 | a zero location encodes as null; any other as source, start and end |
| Encoding.Header | node.go:57-64 | the type is always written; loc exactly when the location is not zero |
| Encoding.EncodeIdentifier | identifier.go:37-41 | an Identifier writes its name |
| Encoding.BlockMembers | statement.go:179-183 | a BlockStatement writes body |
| Encoding.FunctionBodyMembers | statement.go:238-242 | a FunctionBody writes body |
| Encoding.PropertyMembers | expression.go:335-341 | a Property writes key, value and kind |
| Encoding.SwitchCaseMembers | choice.go:189-198 | a SwitchCase writes at most test and consequent |
| Encoding.CatchClauseMembers | exception.go:165-170 | a CatchClause writes param and body |
| Encoding.EncodeDeclarator | declaration.go:168-177 | a declarator writes init exactly when it has one |
| Encoding.LabelMember | control.go:141-147 | label is written exactly when its name is not empty |
| Encoding.EncodeHeader | node.go:57-64 | every node Encoding.Encode encodes, but ArrayHole, is an object with its own type and its location header; ArrayHole is null |
| Encoding.NodeMembers | node.go:57-64 | the members a MarshalJSON adds never overwrite the type and loc keys nodeToMap wrote |
| Encoding.ExpressionMembers | expression.go:181-185 | the expression nodes' own members never use the type or loc key |
| Encoding.OperatorMembers | binary.go:141-147 | the operator nodes' own members never use the type or loc key |
| Encoding.LeafMembers | literal.go:95-99 | the literal and Identifier members never use the type or loc key |
| Encoding.StatementMembers | statement.go:126-130 | the statement nodes' own members never use the type or loc key |
| Encoding.ChoiceMembers | choice.go:51-59 | the branch and exception nodes' own members never use the type or loc key |
| Encoding.LoopMembers | loop.go:175-188 | the loop nodes' own members never use the type or loc key |
| Encoding.DeclarationMembers | program.go:60-66 | the Program and declaration members never use the type or loc key |
| Encoding.EncodeAllElements | expression.go:181-185 | a slice encodes when each element does, element by element |
| Encoding.EncodeDoesNotReturn | expression.go:564-569 | CallExpression and VariableDeclaration have no encoding |
| Encoding.IfOmitsAlternate | choice.go:51-59 | test and consequent are always written; alternate exactly when non-nil and not zero, including an If whose omitted alternate holds a zero CallExpression |
| Encoding.SwitchOmitsNoCases | choice.go:123-130 | the discriminant is written under "test"; cases exactly when there are some |
| Encoding.SwitchCaseOmissions | choice.go:189-198 | test exactly when non-nil; consequent exactly when non-empty |
| Encoding.TryOmissions | exception.go:100-110 | block always; handler and finalizer exactly when not zero |
| Encoding.ForOmissions | loop.go:175-188 | body always; init, test and update exactly when non-nil and not zero, whatever an omitted slot holds |
| Encoding.IfEncodes | choice.go:51-59 | an IfStatement encodes exactly when its test and consequent do and, if kept, its alternate; an omitted alternate is never encoded |
| Encoding.TryEncodes | exception.go:100-110 | a TryStatement encodes exactly when its block and finalizer do and, if not zero, its handler |
| Encoding.ForEncodes | loop.go:175-188 | a ForStatement encodes exactly when its body does and each of init, test and update that is kept |
| Encoding.ZeroCallInOmittedSlot | loop.go:175-188 | a ForStatement whose omitted test is a zero CallExpression, and an IfStatement whose omitted alternate holds one, both encode |
| Encoding.LabelOmissions | control.go:141-147 | break and continue write label exactly when its name is not empty |
| Encoding.ProgramOmitsEmptyBody | program.go:60-66 | body exactly when non-empty |
| Encoding.DirectiveMembers | directive.go:19-25 | a Directive writes type, expression and directive, never loc |
| Encoding.EncodeStringLiteral | literal.go:95-99 | a string literal writes its value as a JSON string |
| Encoding.EncodeBoolLiteral | literal.go:115-119 | a bool literal writes its value as a JSON boolean |
| Encoding.EncodeNullLiteral | literal.go:134-136 | a null literal writes no value key |
| Encoding.EncodeNumberLiteral | literal.go:152-156 | a number literal writes its value as a JSON number |
| Encoding.EncodeRegExpLiteral | literal.go:176-183 | a regexp literal writes regex with pattern and flags |
| Encoding.EncodeIdentifierNode | identifier.go:37-42 | an Identifier node writes its type, location and name |
| Encoding.EncodeEmptyStatement | statement.go:284-286 | only the header |
| Encoding.EncodeDebuggerStatement | statement.go:320-322 | only the header |
| Encoding.EncodeBreakStatement | control.go:141-147 | the header and the label member |
| Encoding.EncodeContinueStatement | control.go:190-196 | the header and the label member |
| Encoding.EncodeDirective | directive.go:19-25 | type, expression and directive |
| RoundTrip.PositionRoundTrip | node.go:102-111 | a position decodes back from its encoding |
| RoundTrip.LocationRoundTrip | node.go:86-99 | a source location decodes back from its encoding, zero included |
| RoundTrip.IdentifierRoundTrip | identifier.go:43-57 | an Identifier decodes back from its encoding, whatever the receiver held |
| RoundTrip.LiteralFromFields | literal.go:36-48 | without regex, the value's JSON kind picks the literal: string, bool, null or absent, number; an array or object is wrong type |
| RoundTrip.RegExpFromFields | literal.go:31-34 | a non-empty pattern or flags gives a RegExpLiteral; both empty give a null literal |
| RoundTrip.LiteralTypeGate | literal.go:29-30 | any other type is not a literal: no match, wrong type |
| RoundTrip.StringLiteralRoundTrip | literal.go:95-99 | a string literal decodes back from its encoding |
| RoundTrip.BoolLiteralRoundTrip | literal.go:115-119 | a bool literal decodes back from its encoding |
| RoundTrip.NullLiteralRoundTrip | literal.go:134-136 | a null literal decodes back from its encoding |
| RoundTrip.NumberLiteralRoundTrip | literal.go:152-156 | a number literal decodes back from its encoding |
| RoundTrip.RegExpLiteralRoundTrip | literal.go:176-183 | a regexp literal with a pattern or flags decodes back from its encoding |
| RoundTrip.EmptyRegExpBecomesNull | literal.go:31 | a regexp literal with empty pattern and flags comes back as a null literal |
| RoundTrip.PatternRoundTrip | pattern.go:16-26 | an Identifier comes back through the pattern dispatcher |
| RoundTrip.EmptyStatementFromFields | statement.go:288-301 | an object typed EmptyStatement decodes to an EmptyStatement at its location |
| RoundTrip.EmptyStatementRoundTrip | statement.go:284-301 | an EmptyStatement comes back through the statement dispatcher |
| RoundTrip.DebuggerStatementFromFields | statement.go:324-337 | an object typed DebuggerStatement decodes to a DebuggerStatement at its location |
| RoundTrip.DebuggerStatementRoundTrip | statement.go:320-337 | a DebuggerStatement comes back through the statement dispatcher |
| RoundTrip.BreakStatementFromFields | control.go:149-163 | an object typed BreakStatement decodes with its location and label |
| RoundTrip.BreakStatementRoundTrip | control.go:141-163 | a BreakStatement comes back; a label with an empty name comes back as the zero Identifier |
| RoundTrip.ContinueStatementFromFields | control.go:198-212 | an object typed ContinueStatement decodes with its location and label |
| RoundTrip.ContinueStatementRoundTrip | control.go:190-212 | a ContinueStatement comes back; a label with an empty name comes back as the zero Identifier |
| RoundTrip.DirectiveFromMembers | program.go:15-26 | a directive object whose expression is a literal comes back as that Directive |
| RoundTrip.DirectiveFromFields | program.go:15-26 | any object typed Directive with a literal expression comes back as that Directive |
| RoundTrip.DirectiveDecoded | directive.go:27-44 | Directive decodes its literal expression and its directive string |
| RoundTrip.DirectiveRoundTrip | directive.go:19-44 | a Directive holding a literal that round-trips comes back through the body-item dispatcher |
| RoundTrip.IdentifierIsOperand | pattern.go:33-41 | an Identifier comes back through the pattern-or-expression dispatcher |
| RoundTrip.IdentifierIsNoExpression | expression.go:20-75 | an Identifier is not matched by the expression dispatcher |
| RoundTrip.LiteralIsNoExpression | expression.go:20-75 | an encoded literal is not matched by the expression dispatcher |
| Slices.DecodeElementsAt | expression.go:198-209 | the k-th decoded element is the k-th item's decoding |
| Slices.DecodeElementsError | expression.go:198-209 | the slice error is the first element error, and none when no element fails |
| Slices.DecodeArrayElements | expression.go:198-209 | the loop computes the element decoding: every item in turn, keeping the first error |
| Slices.LoopAt | expression.go:588-592 | for each of the element, expression, argument, statement, body-item and parameter loops, entry k is item k's decoding; in the loops that break at an error, entries at and after the first bad item are nil |
| Slices.LoopError | expression.go:439-445 | for every such loop, the error is that of the first bad item, and none exactly when every item decodes |
| Slices.HolesComeBack | expression.go:146-148 | a nil element or a hole encodes as null and decodes back as ArrayHole at the same index |

## Left out

- JSON bytes: byte-level syntax, key order and duplicate keys are not modelled. An object is a map, so the source's document order is replaced by struct-field order when decoders are chained.
- Key letter case: encoding/json matches keys case-insensitively. Only the two spellings of the Position fields ("Line"/"line", "Column"/"column") are modelled.
- Numbers: JSON numbers are exact reals. float64 rounding, NaN and Go's int range are not modelled.
- panic, defer and the `VisitorFunc` adapter are not modelled. Walk requires the slices Go walks without nil checks to hold no nil, since Go would panic there. MinVersion is undefined on an ExpressionStatement with a nil expression, for the same reason.
- function.go, doc.go and util.go are not part of this model.
- Text.Quote: characters above DEL that Go does not count as printable (U+0085, U+00A0, U+200B and the like) are written as themselves, where Go's %q writes a \u escape. Invalid UTF-8 cannot occur, since a string here is a sequence of Unicode scalar values. For such strings this affects the quoted output of Tokens.BinaryOperatorGoString, AssignmentOperatorGoString, LogicalOperatorGoString, UnaryOperatorGoString, UpdateOperatorGoString, PropertyKindGoString and VariableDeclarationKindGoString.
- Encoding.EncodeDoesNotReturn: CallExpression and VariableDeclaration have no encoding (`None`), because their MarshalJSON marshals the value itself and never returns.
- Decoding: the declaration and directive dispatchers use calls that take two results from functions returning three. They are modelled as (value, error) pairs.
- Nil and empty slices are not distinguished.
- UnmarshalJSON receivers: each is modelled as the value returned. The receiver is always the zero value where a decoder is called, except for Identifier, which takes its receiver.
- No round trip is stated for the composite nodes, for CallExpression or VariableDeclaration (no encoding), for ObjectExpression (its decode drops the fields), or for the decoders that overwrite an earlier error. For these decoders the model states the type gate (NodeDecoding's *Gate lemmas) and selected behaviours (the operator, jump, With and Program lemmas); the members each one decodes are stated only by its definition.
- Error messages: fmt message text is not modelled. An error is its kind (missing node, wrong value, wrong type, kind, syntax, unmarshal type) and its subject. Checker.ErrorPrefix prints the position prefix only.
- The correspondence between each node's `Type` string and the decoder that accepts it is stated per node type, not as one general lemma.
- FunctionDeclaration and VariableDeclaration have no Location, IsZero, Walk or Errors methods in the source; their MinVersion is ES5, through the baseStatement their baseDeclaration embeds. Directive has none of these methods, MinVersion included. The model gives all three the zero location, ES5, never zero, a leaf walk and no errors.
