/**
 * ArrayExpression's element loop: the recursive definition in Decoding
 * element by element, the loop itself as the source writes it, and what
 * becomes of the holes of an array on the way out and back.
 *
 * The element-by-element facts are proved once over an abstract unfolding
 * (the loop's result from each index on, and each element's own result),
 * and then instantiated with DecodeElements and DecodeElement.
 */
module Slices {
  import opened Wrappers
  import opened Json
  import opened Ast
  import opened Encoding
  import opened Decoding

  /**
   * vs[i] is the loop's result from element i on and hs[i] element i's own
   * result: each vs[i] puts hs[i]'s node in front of vs[i + 1] and keeps
   * the first error, and past the last element there is nothing.
   */
  predicate Unfolds(vs: seq<Decoded<seq<Option<Node>>>>, hs: seq<Dispatched>)
  {
    && |vs| == |hs| + 1
    && vs[|hs|] == Decoded([], None)
    && forall i :: 0 <= i < |hs| ==> Steps(vs, hs, i)
  }

  /** Step i of Unfolds. */
  predicate Steps(vs: seq<Decoded<seq<Option<Node>>>>, hs: seq<Dispatched>, i: nat)
    requires |vs| == |hs| + 1 && i < |hs|
  {
    vs[i] == Decoded([hs[i].node] + vs[i + 1].value, KeepFirst(hs[i].err, vs[i + 1].err))
  }

  /** Element k of the result from i on is element k's own node. */
  lemma {:induction false} UnfoldsAt(vs: seq<Decoded<seq<Option<Node>>>>, hs: seq<Dispatched>, i: nat, k: nat)
    requires Unfolds(vs, hs) && i <= k < |hs|
    ensures |vs[i].value| == |hs| - i
    ensures vs[i].value[k - i] == hs[k].node
    decreases k - i
  {
    UnfoldsLength(vs, hs, i);
    assert Steps(vs, hs, i);
    if i < k {
      UnfoldsAt(vs, hs, i + 1, k);
    }
  }

  /** One step of Unfolds, taken apart. */
  lemma UnfoldsStep(vs: seq<Decoded<seq<Option<Node>>>>, hs: seq<Dispatched>, i: nat)
    requires Unfolds(vs, hs) && i < |hs|
    ensures vs[i].value == [hs[i].node] + vs[i + 1].value
    ensures vs[i].err == KeepFirst(hs[i].err, vs[i + 1].err)
  {
    assert Steps(vs, hs, i);
  }

  /** UnfoldsAt for the whole loop, from element 0 on. */
  lemma UnfoldsFromStart(vs: seq<Decoded<seq<Option<Node>>>>, hs: seq<Dispatched>, k: nat)
    requires Unfolds(vs, hs) && k < |hs|
    ensures |vs[0].value| == |hs| && vs[0].value[k] == hs[k].node
  {
    UnfoldsAt(vs, hs, 0, k);
  }

  lemma {:induction false} UnfoldsLength(vs: seq<Decoded<seq<Option<Node>>>>, hs: seq<Dispatched>, i: nat)
    requires Unfolds(vs, hs) && i <= |hs|
    ensures |vs[i].value| == |hs| - i
    decreases |hs| - i
  {
    if i < |hs| {
      assert Steps(vs, hs, i);
      UnfoldsLength(vs, hs, i + 1);
    }
  }

  /**
   * The error from i on is nil exactly when no element from i on failed,
   * and otherwise the error of the first element that failed.
   */
  lemma {:induction false} UnfoldsError(vs: seq<Decoded<seq<Option<Node>>>>, hs: seq<Dispatched>, i: nat)
    requires Unfolds(vs, hs) && i <= |hs|
    ensures vs[i].err.None? <==> forall k :: i <= k < |hs| ==> hs[k].err.None?
    ensures vs[i].err.Some? ==> exists k :: i <= k < |hs| && hs[k].err == vs[i].err && forall j :: i <= j < k ==> hs[j].err.None?
    decreases |hs| - i
  {
    if i < |hs| {
      assert Steps(vs, hs, i);
      UnfoldsError(vs, hs, i + 1);
      if hs[i].err.None? && vs[i].err.Some? {
        var k :| i + 1 <= k < |hs| && hs[k].err == vs[i + 1].err && forall j :: i + 1 <= j < k ==> hs[j].err.None?;
        assert forall j :: i <= j < k ==> hs[j].err.None?;
      }
    }
  }

  /**
   * vs[i] and hs[i] for the loops that stop at the first error: an element
   * that fails leaves itself and every later element nil and its error is
   * returned; otherwise its node goes in front of vs[i + 1].
   */
  predicate UnfoldsUntilError(vs: seq<Decoded<seq<Option<Node>>>>, hs: seq<Dispatched>)
  {
    && |vs| == |hs| + 1
    && vs[|hs|] == Decoded([], None)
    && forall i :: 0 <= i < |hs| ==> StepsUntilError(vs, hs, i)
  }

  /** Step i of UnfoldsUntilError. */
  predicate StepsUntilError(vs: seq<Decoded<seq<Option<Node>>>>, hs: seq<Dispatched>, i: nat)
    requires |vs| == |hs| + 1 && i < |hs|
  {
    if hs[i].err.Some? then vs[i] == Decoded(Nils(|hs| - i), hs[i].err)
    else vs[i] == Decoded([hs[i].node] + vs[i + 1].value, vs[i + 1].err)
  }

  /** n nil elements. */
  function Nils(n: nat): (s: seq<Option<Node>>)
    ensures |s| == n && forall j :: 0 <= j < n ==> s[j].None?
  {
    seq(n, _ => None)
  }

  /** Element k of the result from i on: element k's node while no element from i to k failed, nil after. */
  lemma {:induction false} UntilErrorAt(vs: seq<Decoded<seq<Option<Node>>>>, hs: seq<Dispatched>, i: nat, k: nat)
    requires UnfoldsUntilError(vs, hs) && i <= k < |hs|
    ensures |vs[i].value| == |hs| - i
    ensures vs[i].value[k - i] == if forall j :: i <= j <= k ==> hs[j].err.None? then hs[k].node else None
    decreases k - i
  {
    UntilErrorLength(vs, hs, i);
    assert StepsUntilError(vs, hs, i);
    if hs[i].err.Some? {
      assert vs[i].value == Nils(|hs| - i);
    } else {
      assert vs[i].value == [hs[i].node] + vs[i + 1].value;
      if i < k {
        UntilErrorAt(vs, hs, i + 1, k);
      }
    }
  }

  /** UntilErrorAt for the whole loop, from element 0 on. */
  lemma UntilErrorFromStart(vs: seq<Decoded<seq<Option<Node>>>>, hs: seq<Dispatched>, k: nat)
    requires UnfoldsUntilError(vs, hs) && k < |hs|
    ensures |vs[0].value| == |hs|
    ensures vs[0].value[k] == if forall j :: 0 <= j <= k ==> hs[j].err.None? then hs[k].node else None
  {
    UntilErrorAt(vs, hs, 0, k);
  }

  /** With no error from element 0 on, every element is in place. */
  lemma UntilNoError(vs: seq<Decoded<seq<Option<Node>>>>, hs: seq<Dispatched>, k: nat)
    requires UnfoldsUntilError(vs, hs) && vs[0].err.None? && k < |hs|
    ensures |vs[0].value| == |hs| && vs[0].value[k] == hs[k].node
  {
    UntilErrorError(vs, hs, 0);
    UntilErrorAt(vs, hs, 0, k);
  }

  lemma {:induction false} UntilErrorLength(vs: seq<Decoded<seq<Option<Node>>>>, hs: seq<Dispatched>, i: nat)
    requires UnfoldsUntilError(vs, hs) && i <= |hs|
    ensures |vs[i].value| == |hs| - i
    decreases |hs| - i
  {
    if i < |hs| {
      assert StepsUntilError(vs, hs, i);
      if hs[i].err.Some? {
        assert vs[i].value == Nils(|hs| - i);
      } else {
        assert vs[i].value == [hs[i].node] + vs[i + 1].value;
        UntilErrorLength(vs, hs, i + 1);
      }
    }
  }

  /** The loops that stop report the same error as the ones that go on: the first one. */
  lemma {:induction false} UntilErrorError(vs: seq<Decoded<seq<Option<Node>>>>, hs: seq<Dispatched>, i: nat)
    requires UnfoldsUntilError(vs, hs) && i <= |hs|
    ensures vs[i].err.None? <==> forall k :: i <= k < |hs| ==> hs[k].err.None?
    ensures vs[i].err.Some? ==> exists k :: i <= k < |hs| && hs[k].err == vs[i].err && forall j :: i <= j < k ==> hs[j].err.None?
    decreases |hs| - i
  {
    if i < |hs| {
      assert StepsUntilError(vs, hs, i);
      if hs[i].err.Some? {
        assert vs[i].err == hs[i].err;
      } else {
        assert vs[i].err == vs[i + 1].err;
        UntilErrorError(vs, hs, i + 1);
        if vs[i].err.Some? {
          var k :| i + 1 <= k < |hs| && hs[k].err == vs[i + 1].err && forall j :: i + 1 <= j < k ==> hs[j].err.None?;
          assert forall j :: i <= j < k ==> hs[j].err.None?;
        }
      }
    }
  }

  /** The loops over a []json.RawMessage field that decode one node per element. */
  datatype SliceLoop =
    | ElementLoop          // ArrayExpression
    | ExpressionLoop       // NewExpression, SequenceExpression
    | ArgumentLoop         // CallExpression, stopping at the first error
    | StatementLoop        // BlockStatement, SwitchCase
    | BodyItemLoop         // FunctionBody, Program
    | ParamLoop            // FunctionExpression's second loop
    | ParamUntilErrorLoop  // FunctionExpression's first loop, FunctionDeclaration

  predicate StopsAtError(l: SliceLoop)
  {
    l.ArgumentLoop? || l.ParamUntilErrorLoop?
  }

  /** The loop's result from element i on. */
  function Run(l: SliceLoop, arr: Raw, i: nat): Decoded<seq<Option<Node>>>
    requires i <= |Elements(arr)|
  {
    match l
    case ElementLoop => DecodeElements(arr, i)
    case ExpressionLoop => DecodeExpressions(arr, i)
    case ArgumentLoop => DecodeArgumentsUntilError(arr, i)
    case StatementLoop => DecodeStatements(arr, i)
    case BodyItemLoop => DecodeBodyItems(arr, i)
    case ParamLoop => DecodeParams(arr, i)
    case ParamUntilErrorLoop => DecodeParamsUntilError(arr, i)
  }

  /** What the loop makes of one element on its own. */
  function Step(l: SliceLoop, item: Json): Dispatched
  {
    match l
    case ElementLoop => DecodeElement(item)
    case ExpressionLoop => UnmarshalExpression(Some(item))
    case ArgumentLoop => UnmarshalExpression(Some(item))
    case StatementLoop => UnmarshalStatement(Some(item))
    case BodyItemLoop =>
      var d := UnmarshalDirectiveOrStatement(Some(item));
      Dispatched(d.value, true, d.err)
    case ParamLoop => UnmarshalPattern(Some(item))
    case ParamUntilErrorLoop => UnmarshalPattern(Some(item))
  }

  /** The results of a loop from each index on. */
  ghost function Suffixes(l: SliceLoop, arr: Raw): (vs: seq<Decoded<seq<Option<Node>>>>)
    ensures |vs| == |Elements(arr)| + 1
    ensures forall i :: 0 <= i <= |Elements(arr)| ==> vs[i] == Run(l, arr, i)
  {
    seq(|Elements(arr)| + 1, i requires 0 <= i <= |Elements(arr)| => Run(l, arr, i))
  }

  /** The result of each element on its own. */
  ghost function Heads(l: SliceLoop, arr: Raw): (hs: seq<Dispatched>)
    ensures |hs| == |Elements(arr)|
    ensures forall i :: 0 <= i < |Elements(arr)| ==> hs[i] == Step(l, Elements(arr)[i])
  {
    seq(|Elements(arr)|, i requires 0 <= i < |Elements(arr)| => Step(l, Elements(arr)[i]))
  }

  /** Past the last element every loop has nothing left to decode. */
  lemma RunEnds(l: SliceLoop, arr: Raw)
    ensures Run(l, arr, |Elements(arr)|) == Decoded([], None)
  {
    match l
    case ElementLoop =>
    case ExpressionLoop =>
    case ArgumentLoop =>
    case StatementLoop =>
    case BodyItemLoop =>
    case ParamLoop =>
    case ParamUntilErrorLoop =>
  }

  /** One step of a loop that goes on: the head, then the rest, the first error kept. */
  lemma RunUnfolds(l: SliceLoop, arr: Raw, i: nat)
    requires !StopsAtError(l) && i < |Elements(arr)|
    ensures var h, t := Step(l, Elements(arr)[i]), Run(l, arr, i + 1);
      Run(l, arr, i) == Decoded([h.node] + t.value, KeepFirst(h.err, t.err))
  {
    match l
    case ElementLoop =>
    case ExpressionLoop =>
    case StatementLoop =>
    case BodyItemLoop =>
    case ParamLoop =>
  }

  /** One step of a loop that stops: at a failing head the rest is left nil. */
  lemma RunUnfoldsUntilError(l: SliceLoop, arr: Raw, i: nat)
    requires StopsAtError(l) && i < |Elements(arr)|
    ensures var h, t := Step(l, Elements(arr)[i]), Run(l, arr, i + 1);
      Run(l, arr, i) == if h.err.Some? then Decoded(Nils(|Elements(arr)| - i), h.err) else Decoded([h.node] + t.value, t.err)
  {
    match l
    case ArgumentLoop =>
      if UnmarshalExpression(Some(Elements(arr)[i])).err.Some? {
        assert Run(l, arr, i).value == Nils(|Elements(arr)| - i);
      }
    case ParamUntilErrorLoop =>
      if UnmarshalPattern(Some(Elements(arr)[i])).err.Some? {
        assert Run(l, arr, i).value == Nils(|Elements(arr)| - i);
      }
  }

  /** The loops that go on unfold as Unfolds describes. */
  lemma LoopUnfolds(l: SliceLoop, arr: Raw)
    requires !StopsAtError(l)
    ensures Unfolds(Suffixes(l, arr), Heads(l, arr))
  {
    var vs, hs := Suffixes(l, arr), Heads(l, arr);
    SuffixEnd(l, arr);
    forall i | 0 <= i < |hs|
      ensures Steps(vs, hs, i)
    {
      SuffixSteps(l, arr, i);
    }
  }

  /** The loops that stop unfold as UnfoldsUntilError describes. */
  lemma LoopUnfoldsUntilError(l: SliceLoop, arr: Raw)
    requires StopsAtError(l)
    ensures UnfoldsUntilError(Suffixes(l, arr), Heads(l, arr))
  {
    var vs, hs := Suffixes(l, arr), Heads(l, arr);
    SuffixEnd(l, arr);
    forall i | 0 <= i < |hs|
      ensures StepsUntilError(vs, hs, i)
    {
      SuffixUntilError(l, arr, i);
    }
  }

  lemma SuffixEnd(l: SliceLoop, arr: Raw)
    ensures Suffixes(l, arr)[|Elements(arr)|] == Decoded([], None)
  {
    RunEnds(l, arr);
  }

  lemma SuffixSteps(l: SliceLoop, arr: Raw, i: nat)
    requires !StopsAtError(l) && i < |Elements(arr)|
    ensures Steps(Suffixes(l, arr), Heads(l, arr), i)
  {
    var vs, hs := Suffixes(l, arr), Heads(l, arr);
    RunUnfolds(l, arr, i);
    assert vs[i] == Run(l, arr, i) && vs[i + 1] == Run(l, arr, i + 1);
    assert hs[i] == Step(l, Elements(arr)[i]);
  }

  lemma SuffixUntilError(l: SliceLoop, arr: Raw, i: nat)
    requires StopsAtError(l) && i < |Elements(arr)|
    ensures StepsUntilError(Suffixes(l, arr), Heads(l, arr), i)
  {
    var vs, hs := Suffixes(l, arr), Heads(l, arr);
    RunUnfoldsUntilError(l, arr, i);
    assert vs[i] == Run(l, arr, i) && vs[i + 1] == Run(l, arr, i + 1);
    assert hs[i] == Step(l, Elements(arr)[i]);
  }

  /**
   * Element k of a loop's result: what the element decodes to, except that
   * a loop that stops leaves it nil once some element up to k has failed.
   */
  lemma LoopAt(l: SliceLoop, arr: Raw, k: nat)
    requires k < |Elements(arr)|
    ensures |Run(l, arr, 0).value| == |Elements(arr)|
    ensures Run(l, arr, 0).value[k] ==
      if StopsAtError(l) && !(forall j :: 0 <= j <= k ==> Step(l, Elements(arr)[j]).err.None?) then None
      else Step(l, Elements(arr)[k]).node
  {
    if StopsAtError(l) {
      StoppingLoopAt(l, arr, k);
    } else {
      FullLoopAt(l, arr, k);
    }
  }

  lemma StoppingLoopAt(l: SliceLoop, arr: Raw, k: nat)
    requires StopsAtError(l) && k < |Elements(arr)|
    ensures |Run(l, arr, 0).value| == |Elements(arr)|
    ensures Run(l, arr, 0).value[k] ==
      if !(forall j :: 0 <= j <= k ==> Step(l, Elements(arr)[j]).err.None?) then None
      else Step(l, Elements(arr)[k]).node
  {
    var vs, hs := Suffixes(l, arr), Heads(l, arr);
    StoppingSuffixAt(l, arr, k);
    assert vs[0] == Run(l, arr, 0);
    assert (forall j :: 0 <= j <= k ==> hs[j].err.None?) <==> (forall j :: 0 <= j <= k ==> Step(l, Elements(arr)[j]).err.None?);
  }

  lemma StoppingSuffixAt(l: SliceLoop, arr: Raw, k: nat)
    requires StopsAtError(l) && k < |Elements(arr)|
    ensures var vs, hs := Suffixes(l, arr), Heads(l, arr);
      |vs[0].value| == |hs| && vs[0].value[k] == if forall j :: 0 <= j <= k ==> hs[j].err.None? then hs[k].node else None
  {
    LoopUnfoldsUntilError(l, arr);
    UntilErrorFromStart(Suffixes(l, arr), Heads(l, arr), k);
  }

  lemma FullLoopAt(l: SliceLoop, arr: Raw, k: nat)
    requires !StopsAtError(l) && k < |Elements(arr)|
    ensures |Run(l, arr, 0).value| == |Elements(arr)|
    ensures Run(l, arr, 0).value[k] == Step(l, Elements(arr)[k]).node
  {
    FullSuffixAt(l, arr, k);
    assert Suffixes(l, arr)[0] == Run(l, arr, 0);
    assert Heads(l, arr)[k] == Step(l, Elements(arr)[k]);
  }

  lemma FullSuffixAt(l: SliceLoop, arr: Raw, k: nat)
    requires !StopsAtError(l) && k < |Elements(arr)|
    ensures |Suffixes(l, arr)[0].value| == |Heads(l, arr)|
    ensures Suffixes(l, arr)[0].value[k] == Heads(l, arr)[k].node
  {
    LoopUnfolds(l, arr);
    UnfoldsFromStart(Suffixes(l, arr), Heads(l, arr), k);
  }

  /** A loop that stops but met no error holds every element's node. */
  lemma StoppingLoopNoError(l: SliceLoop, arr: Raw, k: nat)
    requires StopsAtError(l) && k < |Elements(arr)| && Run(l, arr, 0).err.None?
    ensures |Run(l, arr, 0).value| == |Elements(arr)|
    ensures Run(l, arr, 0).value[k] == Step(l, Elements(arr)[k]).node
  {
    StoppingSuffixNoError(l, arr, k);
    assert Suffixes(l, arr)[0] == Run(l, arr, 0);
    assert Heads(l, arr)[k] == Step(l, Elements(arr)[k]);
  }

  lemma StoppingSuffixNoError(l: SliceLoop, arr: Raw, k: nat)
    requires StopsAtError(l) && k < |Elements(arr)| && Suffixes(l, arr)[0].err.None?
    ensures |Suffixes(l, arr)[0].value| == |Heads(l, arr)|
    ensures Suffixes(l, arr)[0].value[k] == Heads(l, arr)[k].node
  {
    LoopUnfoldsUntilError(l, arr);
    UntilNoError(Suffixes(l, arr), Heads(l, arr), k);
  }

  /** A loop's error: nil exactly when no element failed, otherwise the first element's error. */
  lemma LoopError(l: SliceLoop, arr: Raw)
    ensures Run(l, arr, 0).err.None? <==> forall k :: 0 <= k < |Elements(arr)| ==> Step(l, Elements(arr)[k]).err.None?
    ensures Run(l, arr, 0).err.Some? ==>
      exists k :: 0 <= k < |Elements(arr)| && Step(l, Elements(arr)[k]).err == Run(l, arr, 0).err
        && forall j :: 0 <= j < k ==> Step(l, Elements(arr)[j]).err.None?
  {
    var vs, hs := Suffixes(l, arr), Heads(l, arr);
    assert vs[0] == Run(l, arr, 0);
    if StopsAtError(l) {
      LoopUnfoldsUntilError(l, arr);
      UntilErrorError(vs, hs, 0);
    } else {
      LoopUnfolds(l, arr);
      UnfoldsError(vs, hs, 0);
    }
  }

  /** Element k of a decoded ArrayExpression is what DecodeElement makes of element k of the array. */
  lemma DecodeElementsAt(arr: Raw, k: nat)
    requires k < |Elements(arr)|
    ensures DecodeElements(arr, 0).value[k] == DecodeElement(Elements(arr)[k]).node
  {
    LoopAt(ElementLoop, arr, k);
  }

  /** The loop's error: nil exactly when no element failed, otherwise the first element's error. */
  lemma DecodeElementsError(arr: Raw)
    ensures DecodeElements(arr, 0).err.None? <==> forall k :: 0 <= k < |Elements(arr)| ==> DecodeElement(Elements(arr)[k]).err.None?
    ensures DecodeElements(arr, 0).err.Some? ==>
      exists k :: 0 <= k < |Elements(arr)| && DecodeElement(Elements(arr)[k]).err == DecodeElements(arr, 0).err
        && forall j :: 0 <= j < k ==> DecodeElement(Elements(arr)[j]).err.None?
  {
    LoopError(ElementLoop, arr);
  }

  /**
   * ArrayExpression's loop (expression.go:198-209) over a message whose
   * elements field was read: each element decoded in turn into the slice,
   * and err set by the first element that fails.
   */
  method DecodeArrayElements(arr: Raw) returns (elements: seq<Option<Node>>, err: Option<DecodeError>)
    ensures Decoded(elements, err) == DecodeElements(arr, 0)
  {
    var items := Elements(arr);
    ghost var vs, hs := Suffixes(ElementLoop, arr), Heads(ElementLoop, arr);
    LoopUnfolds(ElementLoop, arr);
    elements := [];
    err := None;
    var i := 0;
    while i < |items|
      invariant 0 <= i <= |items|
      invariant elements + vs[i].value == vs[0].value
      invariant KeepFirst(err, vs[i].err) == vs[0].err
    {
      var e := DecodeElement(items[i]);
      assert e == hs[i];
      UnfoldsStep(vs, hs, i);
      elements := elements + [e.node];
      if err.None? && e.err.Some? {
        err := e.err;
      }
      i := i + 1;
    }
    assert vs[i] == Decoded([], None);
    assert elements == vs[0].value;
  }

  /**
   * The holes of an array survive the round trip: a nil element or an
   * ArrayHole is written as null, and null comes back as an ArrayHole.
   */
  lemma HolesComeBack(es: seq<Option<Node>>, k: nat)
    requires EncodeAll(es).Some? && k < |es|
    requires es[k].None? || es[k] == Some(ArrayHole)
    ensures |DecodeElements(Some(JArray(EncodeAll(es).value)), 0).value| == |es|
    ensures DecodeElements(Some(JArray(EncodeAll(es).value)), 0).value[k] == Some(ArrayHole)
  {
    EncodeAllElements(es);
    var arr := Some(JArray(EncodeAll(es).value));
    assert EncodeOpt(es[k]) == Some(JNull);
    assert Elements(arr)[k] == JNull;
    DecodeElementsAt(arr, k);
  }
}
