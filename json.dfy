/**
 * An abstract JSON document: what encoding/json reads and writes, without
 * its byte-level syntax. Numbers are kept as exact reals; an object is a map,
 * so neither key order nor duplicate keys are represented.
 *
 * The second half is encoding/json's decoding of a message into a Go struct
 * whose fields are strings, booleans, raw messages, slices of raw messages
 * and nested structs, as the node decoders use it.
 */
module Json {
  import opened Wrappers

  datatype Json =
    | JNull
    | JBool(b: bool)
    | JNumber(n: real)
    | JString(s: string)
    | JArray(items: seq<Json>)
    | JObject(fields: map<string, Json>)

  /**
   * A json.RawMessage: the bytes of one JSON value, or the empty message
   * (None) that an absent key leaves behind.
   */
  type Raw = Option<Json>

  // The decoders terminate on (Present(m), Val(m), level): a key's value is
  // smaller than the object holding it, and an absent key is smaller still.

  function Present(m: Raw): nat { if m.Some? then 1 else 0 }

  /** The value a raw message holds; the empty message counts as null (used only as a measure). */
  function Val(m: Raw): Json
  {
    if m.Some? then m.value else JNull
  }

  /**
   * isNullOrEmptyRawMessage (node.go:174-176): the message is empty or is
   * the literal null.
   */
  predicate IsNullOrEmpty(m: Raw)
  {
    m.None? || m.value.JNull?
  }

  /**
   * What a decoder can report. ErrWrongType and ErrWrongValue stand for any
   * error that wraps the sentinels of the same name; ErrKind is the
   * VariableDeclaration kind error, which wraps neither. ErrSyntax is
   * encoding/json's "unexpected end of JSON input" for an empty message;
   * ErrUnmarshalType is its *UnmarshalTypeError for a value of the wrong JSON
   * kind. Message texts are not modelled.
   */
  datatype DecodeError = ErrWrongType | ErrWrongValue | ErrKind | ErrSyntax | ErrUnmarshalType

  /** A decoded value together with the error returned beside it (nil is None). */
  datatype Decoded<T> = Decoded(value: T, err: Option<DecodeError>)

  /** errors.Is(err, ErrWrongType). */
  predicate IsWrongType(err: Option<DecodeError>)
  {
    err == Some(ErrWrongType)
  }

  /**
   * The first error of a chain of `if err == nil && err2 != nil { err = err2 }`
   * steps: the earliest error, or nil when there is none.
   */
  function FirstError(errs: seq<Option<DecodeError>>): (e: Option<DecodeError>)
    ensures e.None? <==> forall i :: 0 <= i < |errs| ==> errs[i].None?
    ensures e.Some? ==> exists i :: 0 <= i < |errs| && errs[i] == e && forall j :: 0 <= j < i ==> errs[j].None?
  {
    if |errs| == 0 then None
    else if errs[0].Some? then errs[0]
    else
      var e := FirstError(errs[1..]);
      assert forall i :: 1 <= i < |errs| ==> errs[i] == errs[1..][i - 1];
      e
  }

  /**
   * json.Unmarshal into a struct, before any field is looked at: the
   * members of an object; no members for null (every field keeps its zero
   * value); and for the empty message or any other value, no members and
   * the error Unmarshal reports.
   */
  function Members(b: Raw): (r: Decoded<map<string, Json>>)
    ensures r.err.None? <==> b.Some? && (b.value.JObject? || b.value.JNull?)
    ensures b.Some? && b.value.JObject? ==> r.value == b.value.fields
    ensures !(b.Some? && b.value.JObject?) ==> r.value == map[]
  {
    if b.None? then Decoded(map[], Some(ErrSyntax))
    else match b.value
      case JObject(fs) => Decoded(fs, None)
      case JNull => Decoded(map[], None)
      case _ => Decoded(map[], Some(ErrUnmarshalType))
  }

  /**
   * The error json.Unmarshal into a struct returns. A field whose type has
   * its own UnmarshalJSON stops the decoding at its first error; a value of
   * the wrong JSON kind is remembered and decoding goes on. So the result is
   * the opening error, else the first stopping error, else the first
   * remembered one (fields taken in struct order).
   */
  function UnmarshalError(open: Option<DecodeError>, stops: seq<Option<DecodeError>>, saved: seq<Option<DecodeError>>): (e: Option<DecodeError>)
    ensures e.None? <==> open.None? && FirstError(stops).None? && FirstError(saved).None?
    ensures open.Some? ==> e == open
  {
    if open.Some? then open
    else if FirstError(stops).Some? then FirstError(stops)
    else FirstError(saved)
  }

  /** A json.RawMessage field: the member's bytes, or the empty message when the key is absent. */
  function Field(fs: map<string, Json>, key: string): (m: Raw)
    ensures m.Some? <==> key in fs
    ensures m.Some? ==> m.value == fs[key]
  {
    if key in fs then Some(fs[key]) else None
  }

  /**
   * A field read under either of two spellings of its key (encoding/json
   * matches keys without regard to letter case); the first spelling wins
   * when both are present.
   */
  function FieldEither(fs: map<string, Json>, key: string, other: string): (m: Raw)
    ensures m.None? <==> key !in fs && other !in fs
    ensures key in fs ==> m == Some(fs[key])
  {
    if key in fs then Some(fs[key]) else Field(fs, other)
  }

  /** A string field: null or absent leaves "", a non-string is a type error. */
  function StringOf(m: Raw): (r: Decoded<string>)
    ensures r.err.None? <==> m.None? || m.value.JNull? || m.value.JString?
    ensures m.Some? && m.value.JString? ==> r == Decoded(m.value.s, None)
    ensures !(m.Some? && m.value.JString?) ==> r.value == ""
  {
    if m.Some? && m.value.JString? then Decoded(m.value.s, None)
    else if IsNullOrEmpty(m) then Decoded("", None)
    else Decoded("", Some(ErrUnmarshalType))
  }

  /** A bool field: null or absent leaves false, a non-boolean is a type error. */
  function BoolOf(m: Raw): (r: Decoded<bool>)
    ensures r.err.None? <==> m.None? || m.value.JNull? || m.value.JBool?
    ensures m.Some? && m.value.JBool? ==> r == Decoded(m.value.b, None)
    ensures !(m.Some? && m.value.JBool?) ==> !r.value
  {
    if m.Some? && m.value.JBool? then Decoded(m.value.b, None)
    else if IsNullOrEmpty(m) then Decoded(false, None)
    else Decoded(false, Some(ErrUnmarshalType))
  }

  /**
   * An int field: an integral number; null or absent leaves 0; a fraction
   * or a non-number is a type error. (Go's int range is not modelled.)
   */
  function IntOf(m: Raw): (r: Decoded<int>)
    ensures r.err.None? <==> IsNullOrEmpty(m) || (m.value.JNumber? && m.value.n.Floor as real == m.value.n)
    ensures r.err.None? && m.Some? && m.value.JNumber? ==> r.value as real == m.value.n
    ensures IsNullOrEmpty(m) ==> r.value == 0
  {
    if m.Some? && m.value.JNumber? && m.value.n.Floor as real == m.value.n then Decoded(m.value.n.Floor, None)
    else if IsNullOrEmpty(m) then Decoded(0, None)
    else Decoded(0, Some(ErrUnmarshalType))
  }

  /**
   * A []json.RawMessage field: the elements of an array; null or absent
   * leaves the nil slice; any other value is a type error.
   */
  function SliceError(m: Raw): (e: Option<DecodeError>)
    ensures e.None? <==> IsNullOrEmpty(m) || m.value.JArray?
  {
    if IsNullOrEmpty(m) || m.value.JArray? then None else Some(ErrUnmarshalType)
  }

  /** The elements a slice field receives: empty unless the message is an array. */
  function Elements(m: Raw): (items: seq<Json>)
    ensures m.Some? && m.value.JArray? ==> items == m.value.items
    ensures !(m.Some? && m.value.JArray?) ==> items == []
  {
    if m.Some? && m.value.JArray? then m.value.items else []
  }
}
