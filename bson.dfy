/**
 * The document format at the level the modelled code sees it: the stream of
 * calls made on a BsonWriter (one Event per call), a BsonReader over one
 * document, and the top-level shape of an event stream.
 *
 * A writer call that takes a name (writeString(name, v), writeStartArray(name))
 * is recorded as the two calls it stands for: Name(name) and then the value.
 */
module Bson {
  import opened Wrappers
  import opened Errors

  newtype int32 = x: int | -0x8000_0000 <= x < 0x8000_0000
  newtype int64 = x: int | -0x8000_0000_0000_0000 <= x < 0x8000_0000_0000_0000

  /** A double is kept as an opaque token: no arithmetic is done on it. */
  type Double = int

  datatype Scalar =
    | SNull
    | SString(s: string)
    | SBool(b: bool)
    | SInt32(i: int32)
    | SInt64(l: int64)
    | SDouble(d: Double)
    | SObjectId(id: nat)
    | SOther(token: nat)

  datatype Event =
    | StartDocument
    | EndDocument
    | StartArray
    | EndArray
    | Name(name: string)
    | Primitive(scalar: Scalar)

  /** One entry of a document as a reader presents it: its name and the events of its value. */
  datatype Entry = Entry(name: string, value: seq<Event>)

  /** The events that write the entries `es`, in order. */
  function Flatten(es: seq<Entry>): seq<Event>
    decreases |es|
  {
    if es == [] then [] else [Name(es[0].name)] + es[0].value + Flatten(es[1..])
  }

  function Keys(es: seq<Entry>): seq<string>
    decreases |es|
  {
    if es == [] then [] else [es[0].name] + Keys(es[1..])
  }

  // ----- nesting depth and top-level shape -----

  function Delta(e: Event): int {
    match e
    case StartDocument => 1
    case StartArray => 1
    case EndDocument => -1
    case EndArray => -1
    case _ => 0
  }

  /** The net change of nesting depth over `es`. */
  function Depth(es: seq<Event>): int
    decreases |es|
  {
    if es == [] then 0 else Delta(es[0]) + Depth(es[1..])
  }

  /** The running depth, starting at `d`, never drops below zero. */
  predicate NonNeg(es: seq<Event>, d: int)
    decreases |es|
  {
    es == [] || (d + Delta(es[0]) >= 0 && NonNeg(es[1..], d + Delta(es[0])))
  }

  /** The events of `es` that occur where the running depth, starting at `d`, is zero. */
  function HeadsAt(es: seq<Event>, d: int): seq<Event>
    decreases |es|
  {
    if es == [] then []
    else (if d == 0 then [es[0]] else []) + HeadsAt(es[1..], d + Delta(es[0]))
  }

  /** Events that are names at the top level. */
  function Names(es: seq<Event>): seq<string>
    decreases |es|
  {
    if es == [] then []
    else (if es[0].Name? then [es[0].name] else []) + Names(es[1..])
  }

  predicate Opens(e: Event) { e == StartDocument || e == StartArray }

  predicate Closes(e: Event) { e == EndDocument || e == EndArray }

  /** A sequence that neither closes more than it opens nor leaves anything open. */
  predicate Closed(es: seq<Event>) {
    Depth(es) == 0 && NonNeg(es, 0)
  }

  /** The events of exactly one value: a scalar, or an opening event, a closed body and a closing event. */
  predicate IsValue(v: seq<Event>) {
    |v| > 0 &&
    if v[0].Primitive? then |v| == 1
    else Opens(v[0]) && |v| >= 2 && Closes(v[|v| - 1]) && Closed(v[1..|v| - 1])
  }

  /** The events of a document with body `body`. */
  function DocumentOf(body: seq<Event>): seq<Event> {
    [StartDocument] + body + [EndDocument]
  }

  /** The events of an array with elements `body`. */
  function ArrayOf(body: seq<Event>): seq<Event> {
    [StartArray] + body + [EndArray]
  }

  /** The keys of a document, in order: the names at the top level of its body. */
  function DocumentKeys(doc: seq<Event>): seq<string>
    requires |doc| >= 2
  {
    Names(HeadsAt(doc[1..|doc| - 1], 0))
  }

  /** The number of values at the top level of an array's elements. */
  function ValueCount(heads: seq<Event>): nat
    decreases |heads|
  {
    if heads == [] then 0
    else (if heads[0].Primitive? || Opens(heads[0]) then 1 else 0) + ValueCount(heads[1..])
  }

  // ----- lemmas about the shape -----

  lemma Associative(p: seq<Event>, q: seq<Event>, r: seq<Event>)
    ensures p + (q + r) == (p + q) + r
  {
  }

  /** Appending `a` and then `b` is appending their concatenation. */
  lemma AppendTwice(before: seq<Event>, cur: seq<Event>, next: seq<Event>, a: seq<Event>, b: seq<Event>, ab: seq<Event>)
    requires cur == before + a && next == cur + b && ab == a + b
    ensures next == before + ab
  {
  }

  lemma {:induction false} DepthConcat(a: seq<Event>, b: seq<Event>)
    ensures Depth(a + b) == Depth(a) + Depth(b)
    decreases |a|
  {
    if a == [] {
      assert a + b == b;
    } else {
      assert (a + b)[1..] == a[1..] + b;
      DepthConcat(a[1..], b);
    }
  }

  lemma {:induction false} HeadsConcat(a: seq<Event>, b: seq<Event>, d: int)
    ensures HeadsAt(a + b, d) == HeadsAt(a, d) + HeadsAt(b, d + Depth(a))
    decreases |a|
  {
    if a == [] {
      assert a + b == b;
    } else {
      var d' := d + Delta(a[0]);
      var head := if d == 0 then [a[0]] else [];
      var x, y := HeadsAt(a[1..], d'), HeadsAt(b, d' + Depth(a[1..]));
      assert HeadsAt(a + b, d) == head + HeadsAt(a[1..] + b, d') by {
        assert (a + b)[0] == a[0] && (a + b)[1..] == a[1..] + b;
      }
      HeadsConcat(a[1..], b, d');
      assert HeadsAt(a, d) == head + x;
      assert d' + Depth(a[1..]) == d + Depth(a);
      Associative(head, x, y);
    }
  }

  lemma {:induction false} NonNegConcat(a: seq<Event>, b: seq<Event>, d: int)
    ensures NonNeg(a + b, d) <==> NonNeg(a, d) && NonNeg(b, d + Depth(a))
    decreases |a|
  {
    if a == [] {
      assert a + b == b;
    } else {
      assert (a + b)[1..] == a[1..] + b;
      NonNegConcat(a[1..], b, d + Delta(a[0]));
    }
  }

  lemma {:induction false} NamesConcat(a: seq<Event>, b: seq<Event>)
    ensures Names(a + b) == Names(a) + Names(b)
    decreases |a|
  {
    if a == [] {
      assert a + b == b;
    } else {
      assert (a + b)[1..] == a[1..] + b;
      NamesConcat(a[1..], b);
    }
  }

  lemma {:induction false} ValueCountConcat(a: seq<Event>, b: seq<Event>)
    ensures ValueCount(a + b) == ValueCount(a) + ValueCount(b)
    decreases |a|
  {
    if a == [] {
      assert a + b == b;
    } else {
      assert (a + b)[1..] == a[1..] + b;
      ValueCountConcat(a[1..], b);
    }
  }

  /** Where the running depth, started above a non-negative walk, never returns to zero, nothing is at the top level. */
  lemma {:induction false} HeadsAbove(es: seq<Event>, e: int, d: int)
    requires NonNeg(es, e) && 0 <= e < d
    ensures HeadsAt(es, d) == []
    decreases |es|
  {
    if es != [] {
      HeadsAbove(es[1..], e + Delta(es[0]), d + Delta(es[0]));
    }
  }

  /** A value is balanced, and at the top level it shows only its first event. */
  lemma {:induction false} ValueShape(v: seq<Event>, d: int)
    requires IsValue(v) && d >= 0
    ensures Depth(v) == 0 && NonNeg(v, d)
    ensures HeadsAt(v, d) == if d == 0 then [v[0]] else []
  {
    if !v[0].Primitive? {
      var body := v[1..|v| - 1];
      assert v == [v[0]] + (body + [v[|v| - 1]]);
      HeadsConcat([v[0]], body + [v[|v| - 1]], d);
      HeadsConcat(body, [v[|v| - 1]], d + 1);
      DepthConcat([v[0]], body + [v[|v| - 1]]);
      DepthConcat(body, [v[|v| - 1]]);
      NonNegConcat([v[0]], body + [v[|v| - 1]], d);
      NonNegConcat(body, [v[|v| - 1]], d + 1);
      NonNegShift(body, 0, d + 1);
      HeadsAbove(body, 0, d + 1);
    }
  }

  /** Starting higher never makes a non-negative walk negative. */
  lemma {:induction false} NonNegShift(es: seq<Event>, d: int, d': int)
    requires NonNeg(es, d) && d' >= d
    ensures NonNeg(es, d')
    decreases |es|
  {
    if es != [] {
      NonNegShift(es[1..], d + Delta(es[0]), d' + Delta(es[0]));
    }
  }

  /** Wrapping a closed body in a document, or in an array, gives one value. */
  lemma WrapIsValue(body: seq<Event>)
    requires Closed(body)
    ensures IsValue(DocumentOf(body)) && IsValue(ArrayOf(body))
  {
    assert DocumentOf(body)[1..|DocumentOf(body)| - 1] == body;
    assert ArrayOf(body)[1..|ArrayOf(body)| - 1] == body;
  }

  /** One entry whose value is a single value: balanced, and showing its name and the value's first event. */
  lemma EntryShape(e: Entry)
    requires IsValue(e.value)
    ensures Closed(Flatten([e]))
    ensures HeadsAt(Flatten([e]), 0) == [Name(e.name), e.value[0]]
    ensures Names(HeadsAt(Flatten([e]), 0)) == [e.name]
  {
    var v := e.value;
    assert Flatten([e]) == [Name(e.name)] + v by {
      assert Flatten([e]) == [Name(e.name)] + v + Flatten([]);
    }
    ValueShape(v, 0);
    assert Closed([Name(e.name)] + v) by {
      DepthConcat([Name(e.name)], v);
      NonNegConcat([Name(e.name)], v, 0);
    }
    assert HeadsAt([Name(e.name)] + v, 0) == [Name(e.name), v[0]] by {
      HeadsConcat([Name(e.name)], v, 0);
    }
    var hs := [Name(e.name), v[0]];
    assert Names(hs) == [e.name] by {
      assert !v[0].Name?;
      assert hs[1..] == [v[0]] && hs[1..][1..] == [];
      assert Names(hs[1..]) == Names(hs[1..][1..]) == [];
    }
  }

  /**
   * Entries whose values are single values flatten to a closed body whose
   * top level shows each entry's name followed by the first event of its value.
   */
  lemma {:induction false} FlattenShape(es: seq<Entry>)
    requires forall i :: 0 <= i < |es| ==> IsValue(es[i].value)
    ensures Closed(Flatten(es))
    ensures Names(HeadsAt(Flatten(es), 0)) == Keys(es)
    decreases |es|
  {
    if es != [] {
      var first := Flatten([es[0]]);
      var rest := Flatten(es[1..]);
      FlattenShape(es[1..]);
      EntryShape(es[0]);
      assert es == [es[0]] + es[1..];
      FlattenConcat([es[0]], es[1..]);
      DepthConcat(first, rest);
      NonNegConcat(first, rest, 0);
      HeadsConcat(first, rest, 0);
      NamesConcat(HeadsAt(first, 0), HeadsAt(rest, 0));
    }
  }

  /** A document written from entries whose values are single values is one value keyed by those entries' names. */
  lemma DocumentOfEntries(es: seq<Entry>)
    requires forall i :: 0 <= i < |es| ==> IsValue(es[i].value)
    ensures IsValue(DocumentOf(Flatten(es)))
    ensures DocumentKeys(DocumentOf(Flatten(es))) == Keys(es)
  {
    FlattenShape(es);
    WrapIsValue(Flatten(es));
  }

  lemma {:induction false} FlattenConcat(a: seq<Entry>, b: seq<Entry>)
    ensures Flatten(a + b) == Flatten(a) + Flatten(b)
    decreases |a|
  {
    if a == [] {
      assert a + b == b;
    } else {
      assert (a + b)[1..] == a[1..] + b;
      FlattenConcat(a[1..], b);
    }
  }

  lemma {:induction false} KeysConcat(a: seq<Entry>, b: seq<Entry>)
    ensures Keys(a + b) == Keys(a) + Keys(b)
    decreases |a|
  {
    if a == [] {
      assert a + b == b;
    } else {
      assert (a + b)[1..] == a[1..] + b;
      KeysConcat(a[1..], b);
    }
  }

  // ----- the writer -----

  /** A BsonWriter: every call appends the event it stands for, nothing is ever taken back. */
  class Writer {
    var events: seq<Event>

    constructor ()
      ensures events == []
    {
      events := [];
    }

    method WriteStartDocument()
      modifies this
      ensures events == old(events) + [StartDocument]
    {
      events := events + [StartDocument];
    }

    method WriteEndDocument()
      modifies this
      ensures events == old(events) + [EndDocument]
    {
      events := events + [EndDocument];
    }

    method WriteStartArray()
      modifies this
      ensures events == old(events) + [StartArray]
    {
      events := events + [StartArray];
    }

    method WriteEndArray()
      modifies this
      ensures events == old(events) + [EndArray]
    {
      events := events + [EndArray];
    }

    method WriteName(name: string)
      modifies this
      ensures events == old(events) + [Name(name)]
    {
      events := events + [Name(name)];
    }

    method WriteScalar(s: Scalar)
      modifies this
      ensures events == old(events) + [Primitive(s)]
    {
      events := events + [Primitive(s)];
    }

    /** What a codec writes when the encoder hands it a value (encodeWithChildContext). */
    method Emit(es: seq<Event>)
      modifies this
      ensures events == old(events) + es
    {
      events := events + es;
    }
  }

  // ----- the reader -----

  datatype BsonType = END_OF_DOCUMENT | NULL | STRING | DOCUMENT | ARRAY | OTHER

  /** The type a reader reports for a value with these events. */
  function TypeOf(value: seq<Event>): BsonType {
    if |value| == 0 then OTHER
    else match value[0]
      case Primitive(SNull) => NULL
      case Primitive(SString(_)) => STRING
      case StartDocument => DOCUMENT
      case StartArray => ARRAY
      case _ => OTHER
  }

  /** The string a value holds, if it is a string. */
  function StringOf(value: seq<Event>): Option<string> {
    if |value| == 1 && value[0].Primitive? && value[0].scalar.SString? then Some(value[0].scalar.s) else None
  }

  /** A saved reader position (BsonReaderMark). */
  datatype Mark = Mark(pos: nat, atValue: bool, started: bool, ended: bool)

  /**
   * A BsonReader over one document. `pos` is the entry under the cursor;
   * `atValue` says that entry's name has been read and its value has not.
   */
  class Reader {
    const entries: seq<Entry>
    var pos: nat
    var atValue: bool
    var started: bool
    var ended: bool

    predicate ValidMark(m: Mark) {
      m.pos <= |entries| && (m.atValue ==> m.pos < |entries| && m.started) &&
      (!m.started ==> m.pos == 0) &&
      (m.ended ==> m.started && m.pos == |entries| && !m.atValue)
    }

    function State(): Mark
      reads this
    {
      Mark(pos, atValue, started, ended)
    }

    ghost predicate Valid()
      reads this
    {
      ValidMark(State())
    }

    constructor (es: seq<Entry>)
      ensures entries == es && Valid()
      ensures State() == Mark(0, false, false, false)
    {
      entries := es;
      pos, atValue, started, ended := 0, false, false, false;
    }

    method ReadStartDocument()
      requires Valid() && !started
      modifies this
      ensures Valid() && State() == old(State()).(started := true)
    {
      started := true;
    }

    method ReadEndDocument()
      requires Valid() && started && !ended && !atValue && pos == |entries|
      modifies this
      ensures Valid() && State() == old(State()).(ended := true)
    {
      ended := true;
    }

    /** The type of the next entry's value, or END_OF_DOCUMENT when none is left. */
    method ReadBsonType() returns (t: BsonType)
      requires Valid() && started && !ended && !atValue
      ensures t == if pos == |entries| then END_OF_DOCUMENT else TypeOf(entries[pos].value)
    {
      t := if pos == |entries| then END_OF_DOCUMENT else TypeOf(entries[pos].value);
    }

    method ReadName() returns (name: string)
      requires Valid() && started && !ended && !atValue && pos < |entries|
      modifies this
      ensures State() == old(State()).(atValue := true)
      ensures Valid() && name == entries[pos].name
    {
      name := entries[pos].name;
      atValue := true;
    }

    method GetCurrentBsonType() returns (t: BsonType)
      requires Valid() && atValue
      ensures t == TypeOf(entries[pos].value)
    {
      t := TypeOf(entries[pos].value);
    }

    /** Reads a string value; a value of any other type fails and is not consumed. */
    method ReadString() returns (r: Result<string, Error>)
      requires Valid() && atValue
      modifies this
      ensures Valid()
      ensures StringOf(old(entries[pos].value)).Some? ==>
                r == Success(StringOf(old(entries[pos].value)).value) &&
                State() == old(State()).(pos := old(pos) + 1, atValue := false)
      ensures StringOf(old(entries[pos].value)).None? ==> r == Failure(InvalidOperation) && State() == old(State())
    {
      var s := StringOf(entries[pos].value);
      if s.Some? {
        r := Success(s.value);
        pos, atValue := pos + 1, false;
      } else {
        r := Failure(InvalidOperation);
      }
    }

    method ReadNull()
      requires Valid() && atValue && TypeOf(entries[pos].value) == NULL
      modifies this
      ensures Valid() && State() == old(State()).(pos := old(pos) + 1, atValue := false)
    {
      pos, atValue := pos + 1, false;
    }

    method SkipValue()
      requires Valid() && atValue
      modifies this
      ensures Valid() && State() == old(State()).(pos := old(pos) + 1, atValue := false)
    {
      pos, atValue := pos + 1, false;
    }

    /**
     * Hands the current value to a codec (decodeWithChildContext). On success the value
     * is consumed; a failing codec may have read part of it, so no position is promised.
     */
    method DecodeValue<V>(decode: seq<Event> -> Result<V, Error>) returns (r: Result<V, Error>)
      requires Valid() && atValue
      modifies this
      ensures Valid()
      ensures r == decode(old(entries[pos].value))
      ensures r.Success? ==> State() == old(State()).(pos := old(pos) + 1, atValue := false)
    {
      r := decode(entries[pos].value);
      if r.Success? {
        pos, atValue := pos + 1, false;
      }
    }

    method GetMark() returns (m: Mark)
      requires Valid()
      ensures m == State() && ValidMark(m)
    {
      m := Mark(pos, atValue, started, ended);
    }

    method Reset(m: Mark)
      requires ValidMark(m)
      modifies this
      ensures Valid() && State() == m
    {
      pos, atValue, started, ended := m.pos, m.atValue, m.started, m.ended;
    }

    /** Reads the whole document, as a document codec does. */
    method ReadAll() returns (es: seq<Entry>)
      requires Valid() && !started
      modifies this
      ensures Valid() && es == entries
      ensures State() == Mark(|entries|, false, true, true)
    {
      es := entries;
      pos, atValue, started, ended := |entries|, false, true, true;
    }
  }
}
