/**
 * Aggregation stage codecs: every stage is written as a one-key document
 * `{ stageName: payload }`, the payload coming from the stage's own codec;
 * the `$match` codec's payload is one document holding its filters in order.
 * Stage codecs only encode.
 */
module Stages {
  import opened Wrappers
  import opened Errors
  import opened Bson

  /** A query filter, opaque; what it writes is given by a `FilterCodec`. */
  datatype Filter = Filter(token: nat)

  /** Filter.encode: the events one filter writes (its entries). */
  type FilterCodec = Filter -> seq<Event>

  /** A pipeline stage: `$match` with its filters, or some other stage, opaque. */
  datatype Stage = Match(filters: seq<Filter>) | OtherStage(name: string, token: nat)

  const MATCH := "$match"

  /** The class the `$match` codec encodes. */
  const MATCH_CLASS := "dev.morphia.aggregation.stages.Match"

  function StageName(s: Stage): string {
    if s.Match? then MATCH else s.name
  }

  // ----- what the codecs write -----

  /** StageCodec.encode: a document with the one entry stageName: payload. */
  function StageEvents(name: string, payload: seq<Event>): seq<Event> {
    DocumentOf([Name(name)] + payload)
  }

  /** The filters' events, one filter after the other. */
  function FilterEvents(filters: seq<Filter>, codec: FilterCodec): seq<Event>
    decreases |filters|
  {
    if filters == [] then [] else FilterEvents(filters[..|filters| - 1], codec) + codec(filters[|filters| - 1])
  }

  /** MatchCodec.encodeStage: one document around the filters. */
  function MatchPayload(filters: seq<Filter>, codec: FilterCodec): seq<Event> {
    DocumentOf(FilterEvents(filters, codec))
  }

  /** The payload of any stage: `$match` by its codec, any other by `other`. */
  function Payload(s: Stage, codec: FilterCodec, other: Stage -> seq<Event>): seq<Event> {
    if s.Match? then MatchPayload(s.filters, codec) else other(s)
  }

  // ----- lemmas -----

  /**
   * When the payload is one value, a stage is the one-key document keyed by
   * the stage name, whose body is the name followed by the payload.
   */
  lemma StageShape(name: string, payload: seq<Event>)
    requires IsValue(payload)
    ensures IsValue(StageEvents(name, payload))
    ensures DocumentKeys(StageEvents(name, payload)) == [name]
    ensures StageEvents(name, payload) == DocumentOf(Flatten([Entry(name, payload)]))
  {
    var e := Entry(name, payload);
    assert Flatten([e]) == [Name(name)] + payload + Flatten([e][1..]);
    assert [e][1..] == [];
    assert Flatten([e]) == [Name(name)] + payload;
    DocumentOfEntries([e]);
  }

  /** The stage name is written first inside the document, before every event of the payload. */
  lemma StageNameFirst(name: string, payload: seq<Event>)
    ensures var es := StageEvents(name, payload);
      |es| == |payload| + 3 && es[0] == StartDocument && es[1] == Name(name)
      && es[2..|es| - 1] == payload && es[|es| - 1] == EndDocument
  {
  }

  lemma {:induction false} FilterEventsConcat(a: seq<Filter>, b: seq<Filter>, codec: FilterCodec)
    ensures FilterEvents(a + b, codec) == FilterEvents(a, codec) + FilterEvents(b, codec)
    decreases |b|
  {
    if b == [] {
      assert a + b == a;
    } else {
      var ab := a + b;
      assert ab[..|ab| - 1] == a + b[..|b| - 1];
      FilterEventsConcat(a, b[..|b| - 1], codec);
    }
  }

  /** Each filter is written once, in list order: a filter's events sit right after those of the filters before it. */
  lemma FilterOrder(filters: seq<Filter>, i: nat, codec: FilterCodec)
    requires i < |filters|
    ensures FilterEvents(filters, codec) ==
      FilterEvents(filters[..i], codec) + codec(filters[i]) + FilterEvents(filters[i + 1..], codec)
  {
    var pre, post := filters[..i], filters[i + 1..];
    assert filters == (pre + [filters[i]]) + post;
    FilterEventsConcat(pre + [filters[i]], post, codec);
    FilterEventsConcat(pre, [filters[i]], codec);
    assert [filters[i]][..0] == [];
    assert FilterEvents([filters[i]], codec) == codec(filters[i]);
  }

  lemma {:induction false} FilterEventsClosed(filters: seq<Filter>, codec: FilterCodec)
    requires forall i :: 0 <= i < |filters| ==> Closed(codec(filters[i]))
    ensures Closed(FilterEvents(filters, codec))
    decreases |filters|
  {
    if filters != [] {
      var init := filters[..|filters| - 1];
      FilterEventsClosed(init, codec);
      DepthConcat(FilterEvents(init, codec), codec(filters[|filters| - 1]));
      NonNegConcat(FilterEvents(init, codec), codec(filters[|filters| - 1]), 0);
    }
  }

  /**
   * The `$match` payload is exactly one document, empty for no filters; so a
   * `$match` stage is the one-key document `{ $match: { ... } }`.
   */
  lemma MatchShape(filters: seq<Filter>, codec: FilterCodec)
    requires forall i :: 0 <= i < |filters| ==> Closed(codec(filters[i]))
    ensures IsValue(MatchPayload(filters, codec)) && MatchPayload(filters, codec)[0] == StartDocument
    ensures filters == [] ==> MatchPayload(filters, codec) == [StartDocument, EndDocument]
    ensures IsValue(StageEvents(MATCH, MatchPayload(filters, codec)))
    ensures DocumentKeys(StageEvents(MATCH, MatchPayload(filters, codec))) == [MATCH]
  {
    FilterEventsClosed(filters, codec);
    WrapIsValue(FilterEvents(filters, codec));
    StageShape(MATCH, MatchPayload(filters, codec));
  }

  // ----- the codecs, on the writer -----

  /** StageCodec.encode: the stage name, then the stage's payload, inside one document. */
  method Encode(writer: Writer, s: Stage, codec: FilterCodec, other: Stage -> seq<Event>)
    modifies writer
    ensures writer.events == old(writer.events) + StageEvents(StageName(s), Payload(s, codec, other))
  {
    writer.WriteStartDocument();
    writer.WriteName(StageName(s));
    EncodeStage(writer, s, codec, other);
    writer.WriteEndDocument();
  }

  /** The stage's own encodeStage. */
  method EncodeStage(writer: Writer, s: Stage, codec: FilterCodec, other: Stage -> seq<Event>)
    modifies writer
    ensures writer.events == old(writer.events) + Payload(s, codec, other)
  {
    if s.Match? {
      EncodeMatch(writer, s.filters, codec);
    } else {
      writer.Emit(other(s));
    }
  }

  /** MatchCodec.encodeStage: the filters, in order, inside one document. */
  method EncodeMatch(writer: Writer, filters: seq<Filter>, codec: FilterCodec)
    modifies writer
    ensures writer.events == old(writer.events) + MatchPayload(filters, codec)
  {
    writer.WriteStartDocument();
    ghost var start := writer.events;
    for i := 0 to |filters|
      invariant writer.events == start + FilterEvents(filters[..i], codec)
    {
      assert filters[..i + 1][..i] == filters[..i];
      writer.Emit(codec(filters[i]));
    }
    assert filters[..|filters|] == filters;
    writer.WriteEndDocument();
  }

  /** StageCodec.decode: stage codecs only encode, whatever the input. */
  method Decode(reader: Reader) returns (r: Result<Stage, Error>)
    ensures r.Failure? && r.error == UnsupportedOperation(ENCODING_ONLY)
  {
    r := Failure(UnsupportedOperation(ENCODING_ONLY));
  }
}
