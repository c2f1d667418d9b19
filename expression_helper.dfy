/**
 * The writer helpers that aggregation codecs share: document and array
 * wrappers around a body, optional expressions, expression arrays, and the
 * typed and generic optional values.
 *
 * What each helper writes is stated by a pure function of its arguments; the
 * methods on the writer are proved to append exactly that, and lemmas say what
 * shape those events have.
 *
 * A `Runnable` body is modelled by the events it writes; an expression's codec
 * and the codec of an arbitrary object are functions about which nothing is
 * assumed beyond what each lemma requires.
 */
module ExpressionHelper {
  import opened Wrappers
  import opened Bson
  import opened Text
  import opened Schema

  /** An aggregation expression: opaque, apart from being a SingleValuedExpression or not. */
  datatype Expression = Expression(operation: string, token: nat, singleValued: bool)

  /** What the registry's codec for an expression writes for it. */
  type ExpressionCodec = Expression -> seq<Event>

  /** What the registry's codec for an object's class writes for it. */
  type ObjectCodec = Value -> seq<Event>

  // ----- what the helpers write -----

  /** A present expression: bare when single-valued, otherwise inside a document. */
  function Encoded(e: Expression, codec: ExpressionCodec): seq<Event> {
    if e.singleValued then codec(e) else DocumentOf(codec(e))
  }

  function ExpressionEvents(e: Option<Expression>, codec: ExpressionCodec): seq<Event> {
    if e.None? then [] else Encoded(e.value, codec)
  }

  function NamedExpressionEvents(name: string, e: Option<Expression>, codec: ExpressionCodec): seq<Event> {
    if e.None? then [] else [Name(name)] + Encoded(e.value, codec)
  }

  /** The elements written for an expression list, one optional expression after the other. */
  function ElementEvents(list: seq<Option<Expression>>, codec: ExpressionCodec): seq<Event>
    decreases |list|
  {
    if list == [] then []
    else ElementEvents(list[..|list| - 1], codec) + ExpressionEvents(list[|list| - 1], codec)
  }

  function ExpressionArrayEvents(name: string, list: Option<seq<Option<Expression>>>,
                                 codec: ExpressionCodec): seq<Event> {
    if list.None? then [] else [Name(name)] + ArrayOf(ElementEvents(list.value, codec))
  }

  /** A typed optional value: nothing when absent, the name and the scalar otherwise. */
  function OptionalScalar(name: string, s: Option<Scalar>): seq<Event> {
    if s.None? then [] else [Name(name), Primitive(s.value)]
  }

  /** The elements of a generic list value: a null element is written as an explicit null. */
  function ListElementEvents(items: seq<Value>, codec: ObjectCodec): seq<Event>
    decreases |items|
  {
    if items == [] then []
    else
      var last := items[|items| - 1];
      ListElementEvents(items[..|items| - 1], codec) + (if last == Null then [Primitive(SNull)] else codec(last))
  }

  function ValueEvents(name: string, v: Value, codec: ObjectCodec): seq<Event> {
    if v == Null then []
    else if v.List? then [Name(name)] + ArrayOf(ListElementEvents(v.items, codec))
    else [Name(name)] + codec(v)
  }

  // ----- an independent account: the present expressions, in order -----

  /** The non-null elements of a list, in order. */
  function Present(list: seq<Option<Expression>>): (r: seq<Expression>)
    ensures |r| <= |list|
    decreases |list|
  {
    if list == [] then []
    else Present(list[..|list| - 1]) + (if list[|list| - 1].Some? then [list[|list| - 1].value] else [])
  }

  /** The expressions `es` written one after the other. */
  function EncodedAll(es: seq<Expression>, codec: ExpressionCodec): seq<Event>
    decreases |es|
  {
    if es == [] then [] else EncodedAll(es[..|es| - 1], codec) + Encoded(es[|es| - 1], codec)
  }

  /** A codec writes one value for a single-valued expression, and a closed body for any other. */
  predicate WritesValue(codec: ExpressionCodec, e: Expression) {
    if e.singleValued then IsValue(codec(e)) else Closed(codec(e))
  }

  // ----- lemmas -----

  /** Appending one value to a closed sequence keeps it closed and adds one value at its top level. */
  lemma ValueSnoc(rest: seq<Event>, v: seq<Event>)
    requires Closed(rest) && IsValue(v)
    ensures Closed(rest + v)
    ensures ValueCount(HeadsAt(rest + v, 0)) == ValueCount(HeadsAt(rest, 0)) + 1
  {
    ValueShape(v, 0);
    DepthConcat(rest, v);
    NonNegConcat(rest, v, 0);
    HeadsConcat(rest, v, 0);
    ValueCountConcat(HeadsAt(rest, 0), [v[0]]);
    assert [v[0]][1..] == [];
  }

  /** A present expression whose codec behaves writes exactly one value: bare, or as a document. */
  lemma EncodedIsValue(e: Expression, codec: ExpressionCodec)
    requires WritesValue(codec, e)
    ensures IsValue(Encoded(e, codec))
    ensures e.singleValued ==> Encoded(e, codec) == codec(e)
    ensures !e.singleValued ==> Encoded(e, codec)[0] == StartDocument
  {
    if !e.singleValued {
      WrapIsValue(codec(e));
    }
  }

  /** The array helper writes the non-null elements, in list order, and nothing for the null ones. */
  lemma {:induction false} DropsNulls(list: seq<Option<Expression>>, codec: ExpressionCodec)
    ensures ElementEvents(list, codec) == EncodedAll(Present(list), codec)
    decreases |list|
  {
    if list != [] {
      var init := list[..|list| - 1];
      var last := list[|list| - 1];
      DropsNulls(init, codec);
      assert ElementEvents(list, codec) == EncodedAll(Present(init), codec) + ExpressionEvents(last, codec);
      if last.Some? {
        var p := Present(init) + [last.value];
        assert Present(list) == p;
        assert p[..|p| - 1] == Present(init) && p[|p| - 1] == last.value;
        assert EncodedAll(p, codec) == EncodedAll(Present(init), codec) + Encoded(last.value, codec);
      } else {
        assert Present(list) == Present(init);
      }
    }
  }

  /** Present keeps list order: it distributes over concatenation. */
  lemma {:induction false} PresentConcat(a: seq<Option<Expression>>, b: seq<Option<Expression>>)
    ensures Present(a + b) == Present(a) + Present(b)
    decreases |b|
  {
    if b == [] {
      assert a + b == a;
    } else {
      var init := b[..|b| - 1];
      var last := b[|b| - 1];
      var tail: seq<Expression> := if last.Some? then [last.value] else [];
      assert (a + b)[..|a + b| - 1] == a + init;
      assert (a + b)[|a + b| - 1] == last;
      assert Present(a + b) == Present(a + init) + tail;
      assert Present(b) == Present(init) + tail;
      PresentConcat(a, init);
      assert Present(a) + (Present(init) + tail) == (Present(a) + Present(init)) + tail;
    }
  }

  /** Present keeps every non-null element as often as it occurs, and nothing else. */
  lemma {:induction false} PresentCounts(list: seq<Option<Expression>>)
    ensures forall e :: multiset(Present(list))[e] == multiset(list)[Some(e)]
    decreases |list|
  {
    if list != [] {
      var init := list[..|list| - 1];
      var last := list[|list| - 1];
      assert list == init + [last];
      PresentCounts(init);
      assert multiset(list) == multiset(init) + multiset{last};
    }
  }

  /** Present keeps exactly the non-null elements. */
  lemma {:induction false} PresentSpec(list: seq<Option<Expression>>)
    ensures forall e :: e in Present(list) <==> Some(e) in list
    decreases |list|
  {
    if list != [] {
      var init := list[..|list| - 1];
      PresentSpec(init);
      assert list == init + [list[|list| - 1]];
    }
  }

  /** Expressions whose codecs behave are written as exactly one value each. */
  lemma {:induction false} EncodedAllShape(es: seq<Expression>, codec: ExpressionCodec)
    requires forall i :: 0 <= i < |es| ==> WritesValue(codec, es[i])
    ensures Closed(EncodedAll(es, codec))
    ensures ValueCount(HeadsAt(EncodedAll(es, codec), 0)) == |es|
    decreases |es|
  {
    if es != [] {
      var init := es[..|es| - 1];
      EncodedAllShape(init, codec);
      EncodedIsValue(es[|es| - 1], codec);
      ValueSnoc(EncodedAll(init, codec), Encoded(es[|es| - 1], codec));
    }
  }

  /**
   * An expression array is absent for a null list; otherwise it is the name
   * and one array value holding one element per non-null expression.
   */
  lemma ExpressionArrayShape(name: string, list: Option<seq<Option<Expression>>>, codec: ExpressionCodec)
    requires list.Some? ==> forall e :: e in Present(list.value) ==> WritesValue(codec, e)
    ensures list.None? ==> ExpressionArrayEvents(name, list, codec) == []
    ensures list.Some? ==>
      var body := ElementEvents(list.value, codec);
      ExpressionArrayEvents(name, list, codec) == [Name(name)] + ArrayOf(body)
      && IsValue(ArrayOf(body)) && ValueCount(HeadsAt(body, 0)) == |Present(list.value)|
  {
    if list.Some? {
      var p := Present(list.value);
      assert forall i :: 0 <= i < |p| ==> WritesValue(codec, p[i]) by {
        forall i | 0 <= i < |p| ensures WritesValue(codec, p[i]) {
          assert p[i] in p;
        }
      }
      DropsNulls(list.value, codec);
      EncodedAllShape(p, codec);
      WrapIsValue(ElementEvents(list.value, codec));
    }
  }

  /**
   * A generic list keeps every element: a null becomes an explicit null, so
   * the array holds exactly as many values as the list has elements.
   */
  lemma {:induction false} ListElementsShape(items: seq<Value>, codec: ObjectCodec)
    requires forall i :: 0 <= i < |items| && items[i] != Null ==> IsValue(codec(items[i]))
    ensures Closed(ListElementEvents(items, codec))
    ensures ValueCount(HeadsAt(ListElementEvents(items, codec), 0)) == |items|
    decreases |items|
  {
    if items != [] {
      var init := items[..|items| - 1];
      var last := items[|items| - 1];
      ListElementsShape(init, codec);
      ValueSnoc(ListElementEvents(init, codec), if last == Null then [Primitive(SNull)] else codec(last));
    }
  }

  /** A present typed value is the one entry `name: value`. */
  lemma OptionalScalarEntry(name: string, s: Option<Scalar>)
    ensures s.None? ==> OptionalScalar(name, s) == []
    ensures s.Some? ==> OptionalScalar(name, s) == Flatten([Entry(name, [Primitive(s.value)])])
    ensures s.Some? ==> Keys([Entry(name, [Primitive(s.value)])]) == [name]
  {
  }

  // ----- the helpers, on the writer -----

  /** array(writer, name, body) */
  method ArrayNamed(writer: Writer, name: string, body: seq<Event>)
    modifies writer
    ensures writer.events == old(writer.events) + [Name(name)] + ArrayOf(body)
  {
    writer.WriteName(name);
    writer.WriteStartArray();
    writer.Emit(body);
    writer.WriteEndArray();
  }

  /** array(writer, body) */
  method Array(writer: Writer, body: seq<Event>)
    modifies writer
    ensures writer.events == old(writer.events) + ArrayOf(body)
  {
    writer.WriteStartArray();
    writer.Emit(body);
    writer.WriteEndArray();
  }

  /** document(writer, name, body) */
  method DocumentNamed(writer: Writer, name: string, body: seq<Event>)
    modifies writer
    ensures writer.events == old(writer.events) + [Name(name)] + DocumentOf(body)
  {
    writer.WriteName(name);
    writer.WriteStartDocument();
    writer.Emit(body);
    writer.WriteEndDocument();
  }

  /** document(writer, body) */
  method Document(writer: Writer, body: seq<Event>)
    modifies writer
    ensures writer.events == old(writer.events) + DocumentOf(body)
  {
    writer.WriteStartDocument();
    writer.Emit(body);
    writer.WriteEndDocument();
  }

  /** encodeIfNotNull(registry, writer, expression, context): reports whether anything was written. */
  method EncodeIfNotNull(writer: Writer, e: Option<Expression>, codec: ExpressionCodec) returns (written: bool)
    modifies writer
    ensures written <==> e.Some?
    ensures writer.events == old(writer.events) + ExpressionEvents(e, codec)
  {
    if e.None? {
      return false;
    }
    var expression := e.value;
    if expression.singleValued {
      writer.Emit(codec(expression));
    } else {
      Document(writer, codec(expression));
    }
    written := true;
  }

  /** encodeIfNotNull(registry, writer, name, expression, context): the name only with the expression. */
  method EncodeNamedIfNotNull(writer: Writer, name: string, e: Option<Expression>, codec: ExpressionCodec)
    returns (written: bool)
    modifies writer
    ensures written <==> e.Some?
    ensures writer.events == old(writer.events) + NamedExpressionEvents(name, e, codec)
  {
    if e.None? {
      return false;
    }
    writer.WriteName(name);
    var _ := EncodeIfNotNull(writer, e, codec);
    written := true;
  }

  /** One more element of an expression list adds its encoding, nothing when it is null. */
  lemma ElementEventsStep(start: seq<Event>, cur: seq<Event>, next: seq<Event>,
                          items: seq<Option<Expression>>, i: nat, codec: ExpressionCodec)
    requires i < |items|
    requires cur == start + ElementEvents(items[..i], codec)
    requires next == cur + ExpressionEvents(items[i], codec)
    ensures next == start + ElementEvents(items[..i + 1], codec)
  {
    assert ElementEvents(items[..i + 1], codec) == ElementEvents(items[..i], codec) + ExpressionEvents(items[i], codec) by {
      assert items[..i + 1][..i] == items[..i];
    }
    AppendTwice(start, cur, next, ElementEvents(items[..i], codec), ExpressionEvents(items[i], codec),
                ElementEvents(items[..i + 1], codec));
  }

  /** array(registry, writer, name, list, context) */
  method ExpressionArray(writer: Writer, name: string, list: Option<seq<Option<Expression>>>, codec: ExpressionCodec)
    modifies writer
    ensures writer.events == old(writer.events) + ExpressionArrayEvents(name, list, codec)
  {
    if list.Some? {
      var items := list.value;
      writer.WriteName(name);
      writer.WriteStartArray();
      ghost var start := writer.events;
      for i := 0 to |items|
        invariant writer.events == start + ElementEvents(items[..i], codec)
      {
        ghost var cur := writer.events;
        var _ := EncodeIfNotNull(writer, items[i], codec);
        ElementEventsStep(start, cur, writer.events, items, i, codec);
      }
      assert items[..|items|] == items;
      writer.WriteEndArray();
    }
  }

  method ValueBoolean(writer: Writer, name: string, v: Option<bool>)
    modifies writer
    ensures writer.events == old(writer.events) + OptionalScalar(name, if v.None? then None else Some(SBool(v.value)))
  {
    if v.Some? {
      writer.WriteName(name);
      writer.WriteScalar(SBool(v.value));
    }
  }

  method ValueDouble(writer: Writer, name: string, v: Option<Double>)
    modifies writer
    ensures writer.events == old(writer.events) + OptionalScalar(name, if v.None? then None else Some(SDouble(v.value)))
  {
    if v.Some? {
      writer.WriteName(name);
      writer.WriteScalar(SDouble(v.value));
    }
  }

  method ValueInt32(writer: Writer, name: string, v: Option<int32>)
    modifies writer
    ensures writer.events == old(writer.events) + OptionalScalar(name, if v.None? then None else Some(SInt32(v.value)))
  {
    if v.Some? {
      writer.WriteName(name);
      writer.WriteScalar(SInt32(v.value));
    }
  }

  method ValueInt64(writer: Writer, name: string, v: Option<int64>)
    modifies writer
    ensures writer.events == old(writer.events) + OptionalScalar(name, if v.None? then None else Some(SInt64(v.value)))
  {
    if v.Some? {
      writer.WriteName(name);
      writer.WriteScalar(SInt64(v.value));
    }
  }

  method ValueString(writer: Writer, name: string, v: Option<string>)
    modifies writer
    ensures writer.events == old(writer.events) + OptionalScalar(name, if v.None? then None else Some(SString(v.value)))
  {
    if v.Some? {
      writer.WriteName(name);
      writer.WriteScalar(SString(v.value));
    }
  }

  /** An enum constant, given by its name, is written as that name in lower case. */
  method ValueEnum(writer: Writer, name: string, constant: Option<string>)
    modifies writer
    ensures writer.events ==
      old(writer.events) + OptionalScalar(name, if constant.None? then None else Some(SString(Lower(constant.value))))
    ensures constant.Some? ==> IsLower(writer.events[|writer.events| - 1].scalar.s)
  {
    if constant.Some? {
      LowerSpec(constant.value);
      writer.WriteName(name);
      writer.WriteScalar(SString(Lower(constant.value)));
    }
  }

  /** One more element of a generic list adds its codec's output, or an explicit null. */
  lemma ListElementEventsStep(start: seq<Event>, cur: seq<Event>, next: seq<Event>,
                              items: seq<Value>, i: nat, codec: ObjectCodec)
    requires i < |items|
    requires cur == start + ListElementEvents(items[..i], codec)
    requires next == cur + (if items[i] == Null then [Primitive(SNull)] else codec(items[i]))
    ensures next == start + ListElementEvents(items[..i + 1], codec)
  {
    assert ListElementEvents(items[..i + 1], codec)
      == ListElementEvents(items[..i], codec) + (if items[i] == Null then [Primitive(SNull)] else codec(items[i])) by {
      assert items[..i + 1][..i] == items[..i];
    }
    AppendTwice(start, cur, next, ListElementEvents(items[..i], codec),
                if items[i] == Null then [Primitive(SNull)] else codec(items[i]),
                ListElementEvents(items[..i + 1], codec));
  }

  /** The list branch of the generic value: a named array, element by element. */
  method ValueList(writer: Writer, name: string, items: seq<Value>, codec: ObjectCodec)
    modifies writer
    ensures writer.events == old(writer.events) + [Name(name)] + ArrayOf(ListElementEvents(items, codec))
  {
    writer.WriteName(name);
    writer.WriteStartArray();
    ghost var start := writer.events;
    for i := 0 to |items|
      invariant writer.events == start + ListElementEvents(items[..i], codec)
    {
      ghost var cur := writer.events;
      if items[i] != Null {
        writer.Emit(codec(items[i]));
      } else {
        writer.WriteScalar(SNull);
      }
      ListElementEventsStep(start, cur, writer.events, items, i, codec);
    }
    assert items[..|items|] == items;
    writer.WriteEndArray();
  }

  /** value(registry, writer, name, value, context): a list element by element, anything else by its codec. */
  method ValueObject(writer: Writer, name: string, v: Value, codec: ObjectCodec)
    modifies writer
    ensures writer.events == old(writer.events) + ValueEvents(name, v, codec)
  {
    if v == Null {
      return;
    }
    if v.List? {
      ValueList(writer, name, v.items, codec);
    } else {
      writer.WriteName(name);
      writer.Emit(codec(v));
    }
  }
}
