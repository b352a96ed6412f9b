/**
 * Shallow validation support: the SyntaxError type and the nodeChecker
 * accumulator every Errors method drives (error.go).
 *
 * A nodeChecker records, in `checked`, one entry per appended error and one
 * placeholder (no error) per optional node, and in `locations` the location
 * of each checked node (the zero location for an error). `require` on a
 * present node records its location only, so the two sequences drift apart;
 * errors() then positions the i'th entry by findPosition(i), which reads
 * `locations` with the same index.
 */
module Checker {
  import opened Wrappers
  import opened Ast
  import opened Zero
  import Text

  /** The sentinel errors ErrWrongType, ErrWrongValue and ErrMissingNode. */
  datatype Sentinel = WrongType | WrongValue | MissingNode

  /**
   * What a check is about: one value per call of require, requireEach or
   * appendf in the Errors methods, each standing for the words that call
   * writes ("left-hand expression", "binary operator", ...).
   */
  datatype Subject =
    ArrayElement | ObjectProperty | PropertyName | PropertyExpression | PropertyKindValue
    | FunctionParameter | FunctionBodyPart | ConditionTest | ConditionConsequent
    | ConditionAlternate | Callee | Argument | NewCallee | NewArgument | SequenceElement
    | LeftOperand | BinaryOperatorValue | RightOperand | AssignmentLeft | AssignmentOperatorValue
    | AssignmentRight | LogicalOperatorValue | MemberObject | MemberProperty | UnaryArgument
    | UnaryOperatorValue | UpdateArgument | UpdateOperatorValue | IdentifierName
    | StatementExpression | BlockStatementPart | DirectiveOrStatement | WithObject | WithBody
    | IfTest | IfConsequent | SwitchDiscriminant | SwitchCaseStatement | ThrowArgument
    | CatchOrFinalBlock | CatchParam | CatchBlock

  /** The words each check writes after its sentinel. */
  function SubjectText(w: Subject): string
  {
    match w
    case ArrayElement => "array element"
    case ObjectProperty => "object property"
    case PropertyName => "property name"
    case PropertyExpression => "property expression"
    case PropertyKindValue => "PropertyKind"
    case FunctionParameter => "function parameter"
    case FunctionBodyPart => "function body"
    case ConditionTest => "condition test"
    case ConditionConsequent => "condition consequent"
    case ConditionAlternate => "condition alternate"
    case Callee => "callee"
    case Argument => "argument"
    case NewCallee => "new callee"
    case NewArgument => "new argument"
    case SequenceElement => "expression in sequence"
    case LeftOperand => "left-hand expression"
    case BinaryOperatorValue => "binary operator"
    case RightOperand => "right-hand expression"
    case AssignmentLeft => "left-hand expression in assignment"
    case AssignmentOperatorValue => "assignment operator"
    case AssignmentRight => "right-hand expression in assignment"
    case LogicalOperatorValue => "logical operator"
    case MemberObject => "object in member expression"
    case MemberProperty => "property or index in member expression"
    case UnaryArgument => "unary argument"
    case UnaryOperatorValue => "UnaryOperator"
    case UpdateArgument => "update argument"
    case UpdateOperatorValue => "UpdateOperator"
    case IdentifierName => "empty identifier not allowed"
    case StatementExpression => "expression"
    case BlockStatementPart => "statement"
    case DirectiveOrStatement => "directive or statement"
    case WithObject => "with expression"
    case WithBody => "with body"
    case IfTest => "if expression"
    case IfConsequent => "if statement block"
    case SwitchDiscriminant => "switch expression"
    case SwitchCaseStatement => "switch case statement"
    case ThrowArgument => "throw argument"
    case CatchOrFinalBlock => "catch or final block"
    case CatchParam => "catch expression"
    case CatchBlock => "catch block"
  }

  /**
   * A wrapped error: the sentinel it wraps, what was checked and, for an
   * element of a slice, its index.
   */
  datatype Fault = Fault(sentinel: Sentinel, what: Subject, index: Option<nat>)

  /** SyntaxError: Err (None only in a placeholder), the node, a position. */
  datatype SyntaxError = SyntaxError(err: Option<Fault>, node: Option<Node>, position: Position)

  function SentinelText(s: Sentinel): string
  {
    match s
    case WrongType => "expected"
    case WrongValue => "unrecognized"
    case MissingNode => "missing"
  }

  /** The text of a fault: the sentinel's text, what was checked, and the index. */
  function FaultText(f: Fault): string
  {
    SentinelText(f.sentinel) + " " + SubjectText(f.what)
    + (if f.index.Some? then " at index " + Text.Decimal(f.index.value) else "")
  }

  /** The position an error reports: its own, or the node's start when its own line is 0. */
  function ReportedPosition(e: SyntaxError): Position
  {
    if e.node.Some? && e.position.line == 0 then Location(e.node.value).start else e.position
  }

  /**
   * The prefix SyntaxError.Error writes before the wrapped error's text:
   * "source:" when the node has a source, "line:" when the line is positive,
   * "column:" when the column is not negative, then a space if anything was
   * written (error.go:42-64).
   */
  function ErrorPrefix(e: SyntaxError): (p: string)
    ensures p == "" <==>
      (e.node.None? || Location(e.node.value).source == "")
      && ReportedPosition(e).line <= 0 && ReportedPosition(e).column < 0
    ensures p != "" ==> p[|p| - 1] == ' '
  {
    var pos := ReportedPosition(e);
    var s := (if e.node.Some? && Location(e.node.value).source != "" then Location(e.node.value).source + ":" else "")
      + (if pos.line > 0 then Text.Decimal(pos.line) + ":" else "")
      + (if pos.column >= 0 then Text.Decimal(pos.column) + ":" else "");
    if |s| > 0 then s + " " else s
  }

  /** SyntaxError.Error. Err is required, so a placeholder has no text. */
  function Error(e: SyntaxError): (s: string)
    requires e.err.Some?
  {
    ErrorPrefix(e) + FaultText(e.err.value)
  }

  /** SyntaxError.Unwrap: errors.Is(e, sentinel) holds exactly for the wrapped sentinel. */
  predicate Is(e: SyntaxError, s: Sentinel)
  {
    e.err.Some? && e.err.value.sentinel == s
  }

  /**
   * A position of 0 lines defers to the node: Error reads the same as if the
   * error had been given the node's start (error.go:51-53).
   */
  lemma ErrorFallsBackToNodeStart(e: SyntaxError)
    requires e.err.Some? && e.node.Some? && e.position.line == 0
    ensures Error(e) == Error(e.(position := Location(e.node.value).start))
  {
  }

  /** Error ends with the fault's own text, so every error names its sentinel. */
  lemma ErrorEndsWithFault(e: SyntaxError)
    requires e.err.Some?
    ensures var s := Error(e); var f := FaultText(e.err.value);
      |s| >= |f| && s[|s| - |f|..] == f
  {
  }

  // The checker's state as values, and what its operations compute.

  /**
   * The invariant the checker operations keep: at least as many locations
   * as entries, and when there are exactly as many (no `require` has
   * succeeded yet) a last entry that is an error sits at the zero location
   * appended with it. That is all findPosition needs not to run off the end.
   */
  predicate Consistent(checked: seq<SyntaxError>, locations: seq<SourceLocation>)
  {
    |locations| >= |checked|
    && (|locations| == |checked| > 0 && checked[|checked| - 1].err.Some? ==>
          locations[|locations| - 1] == ZeroLocation)
  }

  /** Some location from index `from` on has a start line. */
  predicate StartFrom(locations: seq<SourceLocation>, from: int)
  {
    exists k :: from <= k < |locations| && 0 <= k && locations[k].start.line > 0
  }

  /**
   * What findPosition(i) returns as written (error.go:124-143): the zero
   * position for i == 0; otherwise, when locations[i] has an end line, the
   * end of locations[i-1]; otherwise, when some location from i on has a
   * start line, the start of locations[i+1]; otherwise the zero position.
   * None stands for the index-out-of-range panic.
   */
  function PositionFor(locations: seq<SourceLocation>, i: int): Option<Position>
  {
    if i == 0 then Some(ZeroPosition)
    else if i < 0 || i >= |locations| then None
    else if locations[i].end.line > 0 then Some(locations[i - 1].end)
    else if StartFrom(locations, i) then (if i + 1 < |locations| then Some(locations[i + 1].start) else None)
    else Some(ZeroPosition)
  }

  /** In a consistent checker, findPosition never panics for an error entry. */
  lemma PositionForErrors(checked: seq<SyntaxError>, locations: seq<SourceLocation>, i: int)
    requires Consistent(checked, locations)
    requires 0 <= i < |checked| && checked[i].err.Some?
    ensures PositionFor(locations, i).Some?
  {
  }

  /**
   * findPosition tests locations[i] in its backward loop, not locations[j]:
   * an earlier node's end is ignored when locations[i] has none.
   */
  lemma PositionForIgnoresEarlierEnds()
    ensures var earlier := SourceLocation("", Position(1, 0), Position(1, 5));
      PositionFor([earlier, ZeroLocation], 1) == Some(ZeroPosition)
  {
  }

  /** The entries errors() returns for the first k entries: the error entries, positioned. */
  function Reported(checked: seq<SyntaxError>, locations: seq<SourceLocation>, k: nat): (r: seq<SyntaxError>)
    requires Consistent(checked, locations) && k <= |checked|
    ensures forall e :: e in r ==> e.err.Some?
    ensures Faults(r) == Faults(checked[..k])
  {
    if k == 0 then []
    else
      var e := checked[k - 1];
      assert checked[..k][..k - 1] == checked[..k - 1];
      if e.err.Some? then
        PositionForErrors(checked, locations, k - 1);
        var r := Reported(checked, locations, k - 1) + [e.(position := PositionFor(locations, k - 1).value)];
        assert r[..|r| - 1] == Reported(checked, locations, k - 1);
        r
      else
        Reported(checked, locations, k - 1)
  }

  /** The faults of the error entries, in order. */
  function Faults(s: seq<SyntaxError>): seq<Fault>
  {
    if |s| == 0 then []
    else Faults(s[..|s| - 1]) + (if s[|s| - 1].err.Some? then [s[|s| - 1].err.value] else [])
  }

  /** The fault require adds: a missing-node fault when o is nil or zero. */
  function RequiredFault(o: Option<Node>, what: Subject): seq<Fault>
  {
    if Missing(o) then [Fault(MissingNode, what, None)] else []
  }

  /** The entry require appends: an error entry when o is nil or zero, nothing otherwise. */
  function RequiredEntry(o: Option<Node>, what: Subject, node: Node): seq<SyntaxError>
  {
    if Missing(o) then [SyntaxError(Some(Fault(MissingNode, what, None)), Some(node), ZeroPosition)] else []
  }

  /** The entries one requireEach call appends for the first k elements of s. */
  function EachChecked(s: seq<Option<Node>>, what: Subject, node: Node, k: nat): seq<SyntaxError>
    requires k <= |s|
  {
    if k == 0 then []
    else
      var entry := if Missing(s[k - 1]) then [SyntaxError(Some(Fault(MissingNode, what, Some(k - 1))), Some(node), ZeroPosition)] else [];
      EachChecked(s, what, node, k - 1) + entry
  }

  /** The locations one requireEach call appends for the first k elements of s. */
  function EachLocations(s: seq<Option<Node>>, k: nat): seq<SourceLocation>
    requires k <= |s|
  {
    if k == 0 then []
    else EachLocations(s, k - 1) + [if Missing(s[k - 1]) then ZeroLocation else Location(s[k - 1].value)]
  }

  /**
   * The faults requireEach adds: one missing-node fault per nil or zero
   * element, tagged with its index, in index order.
   */
  function MissingFaults(s: seq<Option<Node>>, what: Subject, k: nat): (r: seq<Fault>)
    requires k <= |s|
    ensures |r| <= k
    ensures forall j :: 0 <= j < |r| ==> r[j].sentinel == MissingNode && r[j].what == what
    ensures forall j :: 0 <= j < |r| ==> r[j].index.Some? && r[j].index.value < k && Missing(s[r[j].index.value])
  {
    if k == 0 then []
    else MissingFaults(s, what, k - 1) + (if Missing(s[k - 1]) then [Fault(MissingNode, what, Some(k - 1))] else [])
  }

  /** requireEach reports no fault exactly when every element is present and non-zero. */
  lemma {:induction false} MissingFaultsEmpty(s: seq<Option<Node>>, what: Subject, k: nat)
    requires k <= |s|
    ensures MissingFaults(s, what, k) == [] <==> forall j :: 0 <= j < k ==> !Missing(s[j])
  {
    if k > 0 {
      MissingFaultsEmpty(s, what, k - 1);
      var prev := MissingFaults(s, what, k - 1);
      if Missing(s[k - 1]) {
        assert MissingFaults(s, what, k) == prev + [Fault(MissingNode, what, Some(k - 1))];
      } else {
        assert MissingFaults(s, what, k) == prev;
      }
    }
  }

  /** requireEach reports the nil or zero elements in increasing index order. */
  lemma {:induction false} MissingFaultsOrdered(s: seq<Option<Node>>, what: Subject, k: nat)
    requires k <= |s|
    ensures forall j, j' :: 0 <= j < j' < |MissingFaults(s, what, k)| ==>
      MissingFaults(s, what, k)[j].index.value < MissingFaults(s, what, k)[j'].index.value
  {
    if k > 0 {
      MissingFaultsOrdered(s, what, k - 1);
      var prev := MissingFaults(s, what, k - 1);
      if Missing(s[k - 1]) {
        var r := prev + [Fault(MissingNode, what, Some(k - 1))];
        assert MissingFaults(s, what, k) == r;
        forall j, j' | 0 <= j < j' < |r|
          ensures r[j].index.value < r[j'].index.value
        {
          assert r[j] == prev[j];
          if j' == |prev| {
            assert prev[j].index.value < k - 1;
            assert r[j'].index.value == k - 1;
          } else {
            assert r[j'] == prev[j'];
            assert prev[j].index.value < prev[j'].index.value;
          }
        }
      }
    }
  }

  /** requireEach reports every nil or zero element, by its index. */
  lemma {:induction false} MissingFaultsComplete(s: seq<Option<Node>>, what: Subject, k: nat)
    requires k <= |s|
    ensures forall i :: 0 <= i < k && Missing(s[i]) ==> Fault(MissingNode, what, Some(i)) in MissingFaults(s, what, k)
  {
    if k > 0 {
      MissingFaultsComplete(s, what, k - 1);
      var prev := MissingFaults(s, what, k - 1);
      if Missing(s[k - 1]) {
        var f := Fault(MissingNode, what, Some(k - 1));
        assert MissingFaults(s, what, k) == prev + [f];
        assert forall g :: g in prev ==> g in prev + [f];
      }
    }
  }

  /**
   * One call an Errors method makes on its nodeChecker: require,
   * requireEach, optional, or an appendf under the condition the method
   * tests before it.
   */
  datatype Check =
    | RequireCall(o: Option<Node>, what: Subject)
    | RequireEachCall(s: seq<Option<Node>>, what: Subject)
    | OptionalCall(o: Option<Node>)
    | AppendfWhen(cond: bool, f: Fault)

  /** The entries one call appends. */
  function CheckEntries(ch: Check, node: Node): seq<SyntaxError>
  {
    match ch
    case RequireCall(o, what) => RequiredEntry(o, what, node)
    case RequireEachCall(s, what) => EachChecked(s, what, node, |s|)
    case OptionalCall(o) => if o.Some? then [SyntaxError(None, None, ZeroPosition)] else []
    case AppendfWhen(cond, f) => if cond then [SyntaxError(Some(f), Some(node), ZeroPosition)] else []
  }

  /** The locations one call appends. */
  function CheckLocations(ch: Check): seq<SourceLocation>
  {
    match ch
    case RequireCall(o, _) => [if Missing(o) then ZeroLocation else Location(o.value)]
    case RequireEachCall(s, _) => EachLocations(s, |s|)
    case OptionalCall(o) => if o.Some? then [Location(o.value)] else []
    case AppendfWhen(cond, _) => if cond then [ZeroLocation] else []
  }

  /** The faults one call adds. */
  function CheckFaults(ch: Check): seq<Fault>
  {
    match ch
    case RequireCall(o, what) => RequiredFault(o, what)
    case RequireEachCall(s, what) => MissingFaults(s, what, |s|)
    case OptionalCall(_) => []
    case AppendfWhen(cond, f) => if cond then [f] else []
  }

  // What a sequence of calls appends, call after call.

  function ScriptEntries(checks: seq<Check>, node: Node): seq<SyntaxError>
  {
    if |checks| == 0 then [] else ScriptEntries(checks[..|checks| - 1], node) + CheckEntries(checks[|checks| - 1], node)
  }

  function ScriptLocations(checks: seq<Check>): seq<SourceLocation>
  {
    if |checks| == 0 then [] else ScriptLocations(checks[..|checks| - 1]) + CheckLocations(checks[|checks| - 1])
  }

  function ScriptFaults(checks: seq<Check>): seq<Fault>
  {
    if |checks| == 0 then [] else ScriptFaults(checks[..|checks| - 1]) + CheckFaults(checks[|checks| - 1])
  }

  lemma AppendAssoc<T>(a: seq<T>, b: seq<T>, c: seq<T>)
    ensures a + (b + c) == (a + b) + c
  {
  }

  lemma ScriptFaultsSnoc(checks: seq<Check>, ch: Check)
    ensures ScriptFaults(checks + [ch]) == ScriptFaults(checks) + CheckFaults(ch)
  {
    assert (checks + [ch])[..|checks|] == checks;
  }

  /** The faults of a call sequence of up to four calls, call by call. */
  lemma ScriptFaultsOf(a: Check, b: Check, c: Check, d: Check)
    ensures ScriptFaults([a]) == CheckFaults(a)
    ensures ScriptFaults([a, b]) == CheckFaults(a) + CheckFaults(b)
    ensures ScriptFaults([a, b, c]) == CheckFaults(a) + CheckFaults(b) + CheckFaults(c)
    ensures ScriptFaults([a, b, c, d]) == CheckFaults(a) + CheckFaults(b) + CheckFaults(c) + CheckFaults(d)
  {
    ScriptFaultsSnoc([], a);
    assert [] + [a] == [a];
    ScriptFaultsSnoc([a], b);
    assert [a] + [b] == [a, b];
    ScriptFaultsSnoc([a, b], c);
    assert [a, b] + [c] == [a, b, c];
    ScriptFaultsSnoc([a, b, c], d);
    assert [a, b, c] + [d] == [a, b, c, d];
  }

  /** A call to optional only marks a location: what follows it alone can fault. */
  lemma MarkedThen(a: Check, b: Check)
    requires a.OptionalCall?
    ensures ScriptFaults([a, b]) == CheckFaults(b)
  {
    ScriptFaultsSnoc([a], b);
    assert [a] + [b] == [a, b];
    assert ScriptFaults([a]) == [] by {
      ScriptFaultsSnoc([], a);
      assert [] + [a] == [a];
    }
  }

  /** nodeChecker. */
  class NodeChecker {
    const node: Node
    var checked: seq<SyntaxError>
    var locations: seq<SourceLocation>
    /** The faults appended so far, in order. */
    ghost var faults: seq<Fault>

    ghost predicate Valid()
      reads this
    {
      Consistent(checked, locations) && AllFrom(checked, node) && Faults(checked) == faults
    }

    constructor(n: Node)
      ensures node == n && checked == [] && locations == [] && faults == []
      ensures Valid()
    {
      node := n;
      checked := [];
      locations := [];
      faults := [];
    }

    /** appendf: one error entry at the zero location (error.go:78-84). */
    method Appendf(f: Fault)
      requires Valid()
      modifies this
      ensures checked == old(checked) + [SyntaxError(Some(f), Some(node), ZeroPosition)]
      ensures locations == old(locations) + [ZeroLocation]
      ensures faults == old(faults) + [f]
      ensures Valid()
    {
      var entry := SyntaxError(Some(f), Some(node), ZeroPosition);
      assert (checked + [entry])[..|checked|] == checked;
      checked := checked + [entry];
      locations := locations + [ZeroLocation];
      faults := faults + [f];
    }

    /**
     * require: a missing-node error when o is nil or zero, otherwise only the
     * node's location (error.go:88-94).
     */
    method Require(o: Option<Node>, what: Subject)
      requires Valid()
      modifies this
      ensures checked == old(checked) + RequiredEntry(o, what, node)
      ensures locations == old(locations) + [if Missing(o) then ZeroLocation else Location(o.value)]
      ensures faults == old(faults) + RequiredFault(o, what)
      ensures Valid()
    {
      if o.None? || IsZero(o.value) {
        Appendf(Fault(MissingNode, what, None));
      } else {
        locations := locations + [Location(o.value)];
      }
    }

    /**
     * requireEach: scans the slice in index order; a missing-node error
     * tagged with its index for each nil or zero element, the location of
     * each other one (error.go:105-113).
     */
    method RequireEach(s: seq<Option<Node>>, what: Subject)
      requires Valid()
      modifies this
      ensures checked == old(checked) + EachChecked(s, what, node, |s|)
      ensures locations == old(locations) + EachLocations(s, |s|)
      ensures faults == old(faults) + MissingFaults(s, what, |s|)
      ensures Valid()
    {
      var i := 0;
      while i < |s|
        invariant 0 <= i <= |s|
        invariant checked == old(checked) + EachChecked(s, what, node, i)
        invariant locations == old(locations) + EachLocations(s, i)
        invariant faults == old(faults) + MissingFaults(s, what, i)
        invariant Valid()
      {
        if s[i].None? || IsZero(s[i].value) {
          var f := Fault(MissingNode, what, Some(i));
          Appendf(f);
          AppendAssoc(old(checked), EachChecked(s, what, node, i), [SyntaxError(Some(f), Some(node), ZeroPosition)]);
          AppendAssoc(old(locations), EachLocations(s, i), [ZeroLocation]);
          AppendAssoc(old(faults), MissingFaults(s, what, i), [f]);
        } else {
          locations := locations + [Location(s[i].value)];
          AppendAssoc(old(locations), EachLocations(s, i), [Location(s[i].value)]);
        }
        i := i + 1;
      }
    }

    /** optional: a placeholder entry and the node's location, or nothing for nil (error.go:116-121). */
    method Optional(o: Option<Node>)
      requires Valid()
      modifies this
      ensures checked == old(checked) + (if o.Some? then [SyntaxError(None, None, ZeroPosition)] else [])
      ensures locations == old(locations) + (if o.Some? then [Location(o.value)] else [])
      ensures faults == old(faults)
      ensures Valid()
    {
      if o.Some? {
        assert (checked + [SyntaxError(None, None, ZeroPosition)])[..|checked|] == checked;
        checked := checked + [SyntaxError(None, None, ZeroPosition)];
        locations := locations + [Location(o.value)];
      }
    }

    /** One call, dispatched to the method it names. */
    method Apply(ch: Check)
      requires Valid()
      modifies this
      ensures checked == old(checked) + CheckEntries(ch, node)
      ensures locations == old(locations) + CheckLocations(ch)
      ensures faults == old(faults) + CheckFaults(ch)
      ensures Valid()
    {
      match ch
      case RequireCall(o, what) => Require(o, what);
      case RequireEachCall(s, what) => RequireEach(s, what);
      case OptionalCall(o) => Optional(o);
      case AppendfWhen(cond, f) =>
        if cond {
          Appendf(f);
        }
    }

    /** The calls of an Errors method, made in order. */
    method Run(checks: seq<Check>)
      requires Valid()
      modifies this
      ensures checked == old(checked) + ScriptEntries(checks, node)
      ensures locations == old(locations) + ScriptLocations(checks)
      ensures faults == old(faults) + ScriptFaults(checks)
      ensures Valid()
    {
      var i := 0;
      while i < |checks|
        invariant 0 <= i <= |checks|
        invariant checked == old(checked) + ScriptEntries(checks[..i], node)
        invariant locations == old(locations) + ScriptLocations(checks[..i])
        invariant faults == old(faults) + ScriptFaults(checks[..i])
        invariant Valid()
      {
        assert checks[..i + 1][..i] == checks[..i];
        Apply(checks[i]);
        AppendAssoc(old(checked), ScriptEntries(checks[..i], node), CheckEntries(checks[i], node));
        AppendAssoc(old(locations), ScriptLocations(checks[..i]), CheckLocations(checks[i]));
        AppendAssoc(old(faults), ScriptFaults(checks[..i]), CheckFaults(checks[i]));
        i := i + 1;
      }
      assert checks[..i] == checks;
    }

    /** findPosition, loop by loop as written; None is the index-out-of-range panic. */
    method FindPosition(i: int) returns (p: Option<Position>)
      ensures p == PositionFor(locations, i)
    {
      if i == 0 {
        return Some(ZeroPosition);
      }
      var j := i - 1;
      while j >= 0
        invariant j <= i - 1
        invariant j < i - 1 ==> 0 <= i < |locations| && locations[i].end.line <= 0
      {
        if i < 0 || i >= |locations| {
          return None;
        }
        if locations[i].end.line > 0 {
          return Some(locations[j].end);
        }
        j := j - 1;
      }
      // The second loop advances i itself and always reads locations[i + 1].
      var k := i;
      var next := i + 1;
      while k < |locations|
        invariant i <= k
        invariant i < 0 ==> k == i
        invariant i > 0 && k > i ==> k <= |locations|
        invariant forall m :: i <= m < k && 0 <= m ==> locations[m].start.line <= 0
        decreases |locations| - k
      {
        if k < 0 {
          return None;
        }
        if locations[k].start.line > 0 {
          if next >= |locations| {
            return None;
          }
          return Some(locations[next].start);
        }
        k := k + 1;
      }
      return Some(ZeroPosition);
    }

    /**
     * errors: the error entries in order, each positioned by findPosition; no
     * entry when there is no error (error.go:146-158).
     */
    method Errors() returns (errs: seq<SyntaxError>)
      requires Valid()
      ensures errs == Reported(checked, locations, |checked|)
      ensures Faults(errs) == faults
      ensures forall e :: e in errs ==> e.err.Some? && e.node == Some(node)
    {
      errs := [];
      var i := 0;
      while i < |checked|
        invariant 0 <= i <= |checked|
        invariant errs == Reported(checked, locations, i)
      {
        var e := checked[i];
        if e.err.Some? {
          PositionForErrors(checked, locations, i);
          var pos := FindPosition(i);
          errs := errs + [e.(position := pos.value)];
        }
        i := i + 1;
      }
      ReportedFaults(checked, locations);
      ReportedNode(checked, locations, |checked|, node);
    }
  }

  /**
   * What every Errors method does: a fresh nodeChecker for n makes the calls
   * in order and hands back its errors().
   */
  method CheckNode(n: Node, checks: seq<Check>) returns (errs: seq<SyntaxError>)
    ensures Faults(errs) == ScriptFaults(checks)
    ensures forall e :: e in errs ==> e.err.Some? && e.node == Some(n)
  {
    var c := new NodeChecker(n);
    c.Run(checks);
    errs := c.Errors();
  }

  /**
   * errors() returns exactly the faults that were appended, in order, and
   * every entry wraps an error.
   */
  lemma ReportedFaults(checked: seq<SyntaxError>, locations: seq<SourceLocation>)
    requires Consistent(checked, locations)
    ensures Faults(Reported(checked, locations, |checked|)) == Faults(checked)
    ensures forall e :: e in Reported(checked, locations, |checked|) ==> e.err.Some?
  {
    assert checked[..|checked|] == checked;
  }

  /** The first error is always reported at the zero position, i.e. at the node's start. */
  lemma FirstErrorAtNodeStart(checked: seq<SyntaxError>, locations: seq<SourceLocation>)
    requires Consistent(checked, locations) && |checked| > 0 && checked[0].err.Some?
    ensures |Reported(checked, locations, |checked|)| > 0
    ensures Reported(checked, locations, |checked|)[0].position == ZeroPosition
  {
    ReportedPrefix(checked, locations, 1, |checked|);
  }

  /** Later entries only extend what errors() reports for a prefix. */
  lemma {:induction false} ReportedPrefix(checked: seq<SyntaxError>, locations: seq<SourceLocation>, j: nat, k: nat)
    requires Consistent(checked, locations) && j <= k <= |checked|
    ensures var a := Reported(checked, locations, j); var c := Reported(checked, locations, k);
      |a| <= |c| && c[..|a|] == a
    decreases k - j
  {
    if j < k {
      ReportedPrefix(checked, locations, j, k - 1);
      var a := Reported(checked, locations, j);
      var b := Reported(checked, locations, k - 1);
      var c := Reported(checked, locations, k);
      assert |b| <= |c| && c[..|b|] == b;
      assert c[..|a|] == b[..|a|];
    }
  }

  /** Every error entry was appended by this checker, so every reported error names its node. */
  predicate AllFrom(checked: seq<SyntaxError>, node: Node)
  {
    |checked| == 0
    || (AllFrom(checked[..|checked| - 1], node)
        && (checked[|checked| - 1].err.Some? ==> checked[|checked| - 1].node == Some(node)))
  }

  lemma {:induction false} AllFromAt(checked: seq<SyntaxError>, node: Node, i: nat)
    requires AllFrom(checked, node) && i < |checked|
    ensures checked[i].err.Some? ==> checked[i].node == Some(node)
  {
    if i < |checked| - 1 {
      AllFromAt(checked[..|checked| - 1], node, i);
    }
  }

  lemma {:induction false} ReportedNode(checked: seq<SyntaxError>, locations: seq<SourceLocation>, k: nat, node: Node)
    requires Consistent(checked, locations) && k <= |checked| && AllFrom(checked, node)
    ensures forall e :: e in Reported(checked, locations, k) ==> e.node == Some(node)
  {
    if k > 0 {
      ReportedNode(checked, locations, k - 1, node);
      AllFromAt(checked, node, k - 1);
    }
  }
}
