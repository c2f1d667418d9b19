/**
 * EntityDecoder: reads a document back into an entity instance, choosing the
 * concrete entity from the discriminator, recovering from field codecs that
 * reject a value, and running PreLoad/PostLoad hooks on the lifecycle path.
 */
module EntityDecoding {
  import opened Wrappers
  import opened Errors
  import opened Bson
  import opened Schema

  /** What decode hands back: an entity instance's class and field values, or another codec's value. */
  datatype Decoded = Instance(cls: ClassRef, values: map<string, Value>) | OtherValue(value: Value)

  /** A decode's result together with the lifecycle steps it took. */
  datatype Run = Run(result: Result<Decoded, Error>, trace: seq<Step>)

  function ToOutcome<T>(r: Result<T, Error>): (o: Outcome<Error>)
    ensures o == Pass <==> r.Success?
    ensures o.Fail? ==> o.error == r.error
  {
    match r
    case Success(_) => Pass
    case Failure(e) => Fail(e)
  }

  /** PreLoad/PostLoad hooks or interceptors send the decode through an intermediate document. */
  predicate LoadsWithLifecycle(m: EntityModel, hasInterceptors: bool) {
    PreLoad in m.lifecycle || PostLoad in m.lifecycle || hasInterceptors
  }

  // ----- decodeModel and decodeProperties -----

  /**
   * One value for one field (decodeModel): skipped when no field is stored under its key,
   * null for a null value, else the field codec's result; when that codec rejects the value
   * with an invalid-operation error, the generic codec's result converted to the field's type.
   */
  function DecodeField(field: Option<FieldModel>, value: seq<Event>, values: map<string, Value>, cs: Codecs): Result<map<string, Value>, Error> {
    match field
    case None => Success(values)
    case Some(f) =>
      if TypeOf(value) == NULL then Success(values[f.name := Null])
      else match cs.decode(f.codec, value)
        case Success(v) => Success(values[f.name := v])
        case Failure(InvalidOperation) =>
          (match cs.genericDecode(value)
           case Success(v) => Success(values[f.name := cs.convert(v, f.fieldType)])
           case Failure(e) => Failure(e))
        case Failure(e) => Failure(e)
  }

  /** One entry of a document: the discriminator must hold a string and is otherwise ignored. */
  function DecodeEntry(m: EntityModel, e: Entry, values: map<string, Value>, cs: Codecs): Result<map<string, Value>, Error> {
    if m.useDiscriminator && m.discriminatorKey == e.name then
      (if StringOf(e.value).Some? then Success(values) else Failure(InvalidOperation))
    else DecodeField(GetField(m.fields, e.name), e.value, values, cs)
  }

  /** The entries of a document, in order, each updating the field values; the first failure stops it. */
  function DecodeEntries(m: EntityModel, es: seq<Entry>, values: map<string, Value>, cs: Codecs): Result<map<string, Value>, Error>
    decreases |es|
  {
    if es == [] then Success(values)
    else match DecodeEntry(m, es[0], values, cs)
      case Failure(e) => Failure(e)
      case Success(next) => DecodeEntries(m, es[1..], next, cs)
  }

  /** Decoding a concatenation decodes the first part, then the second from where it left off. */
  lemma {:induction false} DecodeEntriesConcat(m: EntityModel, a: seq<Entry>, b: seq<Entry>, values: map<string, Value>, cs: Codecs)
    ensures DecodeEntries(m, a + b, values, cs)
         == match DecodeEntries(m, a, values, cs)
            case Failure(e) => Failure(e)
            case Success(mid) => DecodeEntries(m, b, mid, cs)
    decreases |a|
  {
    if a == [] {
      assert a + b == b;
    } else {
      assert (a + b)[0] == a[0];
      assert (a + b)[1..] == a[1..] + b;
      match DecodeEntry(m, a[0], values, cs)
      case Failure(e) =>
      case Success(next) => DecodeEntriesConcat(m, a[1..], b, next, cs);
    }
  }

  /** An entry under a key that is neither the discriminator nor any field's leaves the values alone. */
  lemma {:induction false} UnknownKeysIgnored(m: EntityModel, es: seq<Entry>, values: map<string, Value>, cs: Codecs)
    requires forall i :: 0 <= i < |es| ==>
               GetField(m.fields, es[i].name).None? && !(m.useDiscriminator && m.discriminatorKey == es[i].name)
    ensures DecodeEntries(m, es, values, cs) == Success(values)
    decreases |es|
  {
    if es != [] {
      UnknownKeysIgnored(m, es[1..], values, cs);
    }
  }

  // ----- getCodecFromDocument -----

  /** The codec a discriminator value names: lookup, then the registry. */
  function ResolveDiscriminator(value: seq<Event>, cs: Codecs): Result<Codec, Error> {
    match StringOf(value)
    case None => Failure(InvalidOperation)
    case Some(s) =>
      match cs.lookup(s)
      case Failure(e) => Failure(e)
      case Success(cls) => cs.registry(cls)
  }

  /** Scans for the first entry under `key`; its value decides the codec. */
  function Probe(es: seq<Entry>, key: string, cs: Codecs): Result<Option<Codec>, Error>
    decreases |es|
  {
    if es == [] then Success(None)
    else if es[0].name == key then
      match ResolveDiscriminator(es[0].value, cs)
      case Failure(e) => Failure(e)
      case Success(c) => Success(Some(c))
    else Probe(es[1..], key, cs)
  }

  /** The codec decode continues with; any failure while probing is reported against the entity. */
  function CodecFromDocument(es: seq<Entry>, useDiscriminator: bool, key: string, cs: Codecs,
                             defaultCodec: Codec, entityName: string): Result<Codec, Error> {
    if !useDiscriminator then Success(defaultCodec)
    else match Probe(es, key, cs)
      case Failure(e) => Failure(CodecConfiguration(FailedToDecode(entityName, e)))
      case Success(None) => Success(defaultCodec)
      case Success(Some(c)) => Success(c)
  }

  /** The first entry under the discriminator key, and only that one, decides. */
  lemma {:induction false} ProbeFirstMatch(es: seq<Entry>, key: string, cs: Codecs, i: nat)
    requires i < |es| && es[i].name == key
    requires forall j :: 0 <= j < i ==> es[j].name != key
    ensures Probe(es, key, cs) == match ResolveDiscriminator(es[i].value, cs)
                                  case Failure(e) => Failure(e)
                                  case Success(c) => Success(Some(c))
    decreases i
  {
    if i > 0 {
      assert es[0].name != key;
      ProbeFirstMatch(es[1..], key, cs, i - 1);
    }
  }

  /** Without an entry under the discriminator key the probe finds nothing and fails on nothing. */
  lemma {:induction false} ProbeNoKey(es: seq<Entry>, key: string, cs: Codecs)
    requires forall j :: 0 <= j < |es| ==> es[j].name != key
    ensures Probe(es, key, cs) == Success(None)
    decreases |es|
  {
    if es != [] {
      ProbeNoKey(es[1..], key, cs);
    }
  }

  // ----- the lifecycle path's intermediate document -----

  /** A Document's put: a present key keeps its position and takes the new value. */
  function Put(doc: seq<Entry>, e: Entry): seq<Entry>
    decreases |doc|
  {
    if doc == [] then [e]
    else if doc[0].name == e.name then [e] + doc[1..]
    else [doc[0]] + Put(doc[1..], e)
  }

  /** The Document the document codec builds from the entries read. */
  function ToDocument(es: seq<Entry>): seq<Entry>
    decreases |es|
  {
    if es == [] then [] else Put(ToDocument(es[..|es| - 1]), es[|es| - 1])
  }

  predicate DistinctKeys(es: seq<Entry>) {
    forall i, j :: 0 <= i < j < |es| ==> es[i].name != es[j].name
  }

  lemma {:induction false} PutKeys(doc: seq<Entry>, e: Entry)
    ensures forall k :: k in Keys(Put(doc, e)) <==> k in Keys(doc) || k == e.name
    ensures e.name in Keys(doc) ==> |Put(doc, e)| == |doc|
    ensures e.name !in Keys(doc) ==> Put(doc, e) == doc + [e]
    ensures DistinctKeys(doc) ==> DistinctKeys(Put(doc, e))
    decreases |doc|
  {
    if doc != [] {
      PutKeys(doc[1..], e);
      assert Keys(doc) == [doc[0].name] + Keys(doc[1..]);
      var p := Put(doc, e);
      if doc[0].name == e.name {
        assert p[1..] == doc[1..];
        assert Keys(p) == [e.name] + Keys(doc[1..]);
        if DistinctKeys(doc) {
          forall i, j | 0 <= i < j < |p| ensures p[i].name != p[j].name {
            assert p[j] == doc[j];
            if i > 0 { assert p[i] == doc[i]; }
          }
        }
      } else {
        assert p[1..] == Put(doc[1..], e);
        assert Keys(p) == [doc[0].name] + Keys(Put(doc[1..], e));
        if e.name !in Keys(doc) {
          assert doc + [e] == [doc[0]] + (doc[1..] + [e]);
        }
        if DistinctKeys(doc) {
          assert DistinctKeys(doc[1..]) by {
            forall i, j | 0 <= i < j < |doc[1..]| ensures doc[1..][i].name != doc[1..][j].name {
              assert doc[1..][i] == doc[i + 1] && doc[1..][j] == doc[j + 1];
            }
          }
          forall j | 0 < j < |p| ensures p[0].name != p[j].name {
            assert p[j] == Put(doc[1..], e)[j - 1];
            KeyOfIndex(Put(doc[1..], e), j - 1);
            assert doc[0].name !in Keys(doc[1..]) by {
              if doc[0].name in Keys(doc[1..]) {
                var t := IndexOfKey(doc[1..], doc[0].name);
              }
            }
          }
          forall i, j | 0 < i < j < |p| ensures p[i].name != p[j].name {
            assert p[i] == Put(doc[1..], e)[i - 1] && p[j] == Put(doc[1..], e)[j - 1];
          }
        }
      }
    }
  }

  lemma {:induction false} KeyOfIndex(es: seq<Entry>, i: nat)
    requires i < |es|
    ensures es[i].name in Keys(es)
    decreases i
  {
    if i > 0 {
      KeyOfIndex(es[1..], i - 1);
    }
  }

  lemma {:induction false} IndexOfKey(es: seq<Entry>, k: string) returns (i: nat)
    requires k in Keys(es)
    ensures i < |es| && es[i].name == k
    decreases |es|
  {
    if es[0].name == k {
      i := 0;
    } else {
      var t := IndexOfKey(es[1..], k);
      i := t + 1;
    }
  }

  /**
   * The intermediate document holds every key once, and nothing but the keys read;
   * a document whose keys are already distinct comes through unchanged.
   */
  lemma {:induction false} ToDocumentSpec(es: seq<Entry>)
    ensures DistinctKeys(ToDocument(es))
    ensures forall k :: k in Keys(ToDocument(es)) <==> k in Keys(es)
    ensures DistinctKeys(es) ==> ToDocument(es) == es
    decreases |es|
  {
    if es != [] {
      var init, last := es[..|es| - 1], es[|es| - 1];
      assert es == init + [last];
      ToDocumentSpec(init);
      PutKeys(ToDocument(init), last);
      KeysConcat(init, [last]);
      assert Keys([last]) == [last.name] by { assert [last][1..] == []; }
      if DistinctKeys(es) {
        assert DistinctKeys(init) by {
          forall i, j | 0 <= i < j < |init| ensures init[i].name != init[j].name {
            assert init[i] == es[i] && init[j] == es[j];
          }
        }
        assert last.name !in Keys(init) by {
          if last.name in Keys(init) {
            var t := IndexOfKey(init, last.name);
          }
        }
      }
    }
  }

  /** Document.getString: absent or null is no string; a value of another type is a cast failure. */
  function GetString(doc: seq<Entry>, key: string): Result<Option<string>, Error>
    decreases |doc|
  {
    if doc == [] then Success(None)
    else if doc[0].name == key then
      if TypeOf(doc[0].value) == NULL then Success(None)
      else match StringOf(doc[0].value)
        case Some(s) => Success(Some(s))
        case None => Failure(ClassCast(key))
    else GetString(doc[1..], key)
  }

  /** The model the lifecycle path decodes with: the discriminator's entity model, if it names one. */
  function LoadTarget(m: EntityModel, doc: seq<Entry>, cs: Codecs): Result<EntityModel, Error> {
    if !m.useDiscriminator then Success(m)
    else match GetString(doc, m.discriminatorKey)
      case Failure(e) => Failure(e)
      case Success(None) => Success(m)
      case Success(Some(d)) =>
        match cs.lookup(d)
        case Failure(e) => Failure(e)
        case Success(cls) =>
          match cs.registry(cls)
          case Failure(e) => Failure(e)
          case Success(EntityCodec(target)) => Success(target)
          case Success(OtherCodec(_)) => Failure(CodecConfiguration(NonEntityDiscriminator(d)))
  }

  /**
   * decodeWithLifecycle: the hooks run are always those of the decoder's own entity,
   * even when the discriminator selects another entity model for the fields.
   */
  function LifecycleRun(m: EntityModel, es: seq<Entry>, cs: Codecs): Run {
    var doc := ToDocument(es);
    match LoadTarget(m, doc, cs)
    case Failure(e) => Run(Failure(e), [])
    case Success(target) =>
      var pre := [Hooks(PreLoad, m.name), DecodeProperties(target.name)];
      match DecodeEntries(target, doc, map[], cs)
      case Failure(e) => Run(Failure(e), pre)
      case Success(vs) => Run(Success(Instance(target.entityType, vs)), pre + [Hooks(PostLoad, m.name)])
  }

  /** decode: the lifecycle path, or the checked path, or probe for a codec first and decode checked with it. */
  function DecodeRun(m: EntityModel, es: seq<Entry>, checked: bool, cs: Codecs, hasInterceptors: bool): Run
    decreases if checked then 0 else 1
  {
    if LoadsWithLifecycle(m, hasInterceptors) then LifecycleRun(m, es, cs)
    else if checked then
      Run(match DecodeEntries(m, es, map[], cs)
          case Failure(e) => Failure(e)
          case Success(vs) => Success(Instance(m.entityType, vs)), [])
    else
      match CodecFromDocument(es, m.useDiscriminator, m.discriminatorKey, cs, EntityCodec(m), m.name)
      case Failure(e) => Run(Failure(e), [])
      case Success(EntityCodec(target)) => DecodeRun(target, es, true, cs, hasInterceptors)
      case Success(OtherCodec(c)) =>
        Run(match cs.decodeWith(OtherCodec(c), es)
            case Failure(e) => Failure(e)
            case Success(v) => Success(OtherValue(v)), [])
  }

  /** Hooks and interceptors run only on the lifecycle path, PreLoad before the fields and PostLoad after. */
  lemma LifecycleTrace(m: EntityModel, es: seq<Entry>, checked: bool, cs: Codecs, hasInterceptors: bool)
    ensures var run := DecodeRun(m, es, checked, cs, hasInterceptors);
            (run.trace != [] ==> |run.trace| >= 2 && run.trace[0].Hooks? && run.trace[0].kind == PreLoad && run.trace[1].DecodeProperties?)
            && (run.trace != [] && run.result.Success? ==> |run.trace| == 3 && run.trace[2].Hooks? && run.trace[2].kind == PostLoad
                                                            && run.trace[0].entity == run.trace[2].entity)
            && (!LoadsWithLifecycle(m, hasInterceptors) && !LoadsWithLifecycle(TargetOf(m, es, cs), hasInterceptors) ==> run.trace == [])
  {
  }

  /** The model the probe hands the checked decode, when it hands it an entity model. */
  function TargetOf(m: EntityModel, es: seq<Entry>, cs: Codecs): EntityModel {
    match CodecFromDocument(es, m.useDiscriminator, m.discriminatorKey, cs, EntityCodec(m), m.name)
    case Success(EntityCodec(target)) => target
    case _ => m
  }

  /** Without a discriminator, an unchecked decode is the checked decode with the entity's own model. */
  lemma NoDiscriminatorDecodesDirectly(m: EntityModel, es: seq<Entry>, cs: Codecs, hasInterceptors: bool)
    requires !m.useDiscriminator
    ensures DecodeRun(m, es, false, cs, hasInterceptors) == DecodeRun(m, es, true, cs, hasInterceptors)
  {
  }

  // ----- the decoder -----

  class EntityDecoder {
    const model: EntityModel

    constructor (model: EntityModel)
      ensures this.model == model
    {
      this.model := model;
    }

    /** decodeModel: one value, read into `field` of the instance. */
    static method DecodeModel(reader: Reader, instance: Entity, field: Option<FieldModel>, cs: Codecs) returns (r: Outcome<Error>)
      requires reader.Valid() && reader.atValue
      modifies reader, instance
      ensures reader.Valid()
      ensures r == ToOutcome(DecodeField(field, reader.entries[old(reader.pos)].value, old(instance.values), cs))
      ensures r == Pass ==>
                instance.values == DecodeField(field, reader.entries[old(reader.pos)].value, old(instance.values), cs).value &&
                reader.State() == old(reader.State()).(pos := old(reader.pos) + 1, atValue := false)
    {
      if field.None? {
        reader.SkipValue();
        return Pass;
      }
      var f := field.value;
      var mark := reader.GetMark();
      var t := reader.GetCurrentBsonType();
      if t == NULL {
        reader.ReadNull();
        instance.Set(f.name, Null);
        return Pass;
      }
      var v := reader.DecodeValue((value: seq<Event>) => cs.decode(f.codec, value));
      if v.Success? {
        instance.Set(f.name, v.value);
        return Pass;
      }
      if v.error != InvalidOperation {
        return Fail(v.error);
      }
      reader.Reset(mark);
      var g := reader.DecodeValue(cs.genericDecode);
      if g.Failure? {
        return Fail(g.error);
      }
      instance.Set(f.name, cs.convert(g.value, f.fieldType));
      r := Pass;
    }

    /** One iteration of decodeProperties: a name, then its value. */
    static method DecodeEntryAt(reader: Reader, instance: Entity, m: EntityModel, cs: Codecs) returns (r: Outcome<Error>)
      requires reader.Valid() && reader.started && !reader.ended && !reader.atValue && reader.pos < |reader.entries|
      modifies reader, instance
      ensures reader.Valid()
      ensures r == ToOutcome(DecodeEntry(m, reader.entries[old(reader.pos)], old(instance.values), cs))
      ensures r == Pass ==>
                instance.values == DecodeEntry(m, reader.entries[old(reader.pos)], old(instance.values), cs).value &&
                reader.State() == old(reader.State()).(pos := old(reader.pos) + 1)
    {
      var name := reader.ReadName();
      if m.useDiscriminator && m.discriminatorKey == name {
        var s := reader.ReadString();
        r := if s.Success? then Pass else Fail(s.error);
      } else {
        r := DecodeModel(reader, instance, GetField(m.fields, name), cs);
      }
    }

    /** decodeProperties: every entry of the document, in order. */
    static method DecodeProps(reader: Reader, instance: Entity, m: EntityModel, cs: Codecs) returns (r: Outcome<Error>)
      requires reader.Valid() && !reader.started
      modifies reader, instance
      ensures reader.Valid()
      ensures r == ToOutcome(DecodeEntries(m, reader.entries, old(instance.values), cs))
      ensures r == Pass ==>
                instance.values == DecodeEntries(m, reader.entries, old(instance.values), cs).value &&
                reader.State() == Mark(|reader.entries|, false, true, true)
    {
      ghost var all := DecodeEntries(m, reader.entries, instance.values, cs);
      reader.ReadStartDocument();
      var t := reader.ReadBsonType();
      while t != END_OF_DOCUMENT
        invariant reader.Valid() && reader.started && !reader.ended && !reader.atValue
        invariant t == END_OF_DOCUMENT <==> reader.pos == |reader.entries|
        invariant all == DecodeEntries(m, reader.entries[reader.pos..], instance.values, cs)
        decreases |reader.entries| - reader.pos
      {
        ghost var rest := reader.entries[reader.pos..];
        assert rest[0] == reader.entries[reader.pos] && rest[1..] == reader.entries[reader.pos + 1..];
        r := DecodeEntryAt(reader, instance, m, cs);
        if r.Fail? {
          return;
        }
        t := reader.ReadBsonType();
      }
      reader.ReadEndDocument();
      r := Pass;
    }

    /** getCodecFromDocument: probes for the discriminator, then puts the reader back where it was. */
    method GetCodecFromDocument(reader: Reader, useDiscriminator: bool, key: string, cs: Codecs, defaultCodec: Codec)
      returns (r: Result<Codec, Error>)
      requires reader.Valid() && !reader.started
      modifies reader
      ensures reader.Valid() && reader.State() == old(reader.State())
      ensures r == CodecFromDocument(reader.entries, useDiscriminator, key, cs, defaultCodec, model.name)
    {
      var found: Option<Codec> := None;
      if useDiscriminator {
        var mark := reader.GetMark();
        reader.ReadStartDocument();
        while true
          invariant reader.Valid() && reader.started && !reader.ended && !reader.atValue
          invariant Probe(reader.entries, key, cs) == Probe(reader.entries[reader.pos..], key, cs)
          invariant found.None?
          decreases |reader.entries| - reader.pos
        {
          var t := reader.ReadBsonType();
          if t == END_OF_DOCUMENT {
            assert reader.entries[reader.pos..] == [];
            break;
          }
          ghost var rest := reader.entries[reader.pos..];
          assert rest[0] == reader.entries[reader.pos] && rest[1..] == reader.entries[reader.pos + 1..];
          var name := reader.ReadName();
          if key == name {
            var s := reader.ReadString();
            var codec := if s.Failure? then Failure(s.error) else
                         match cs.lookup(s.value)
                         case Failure(e) => Failure(e)
                         case Success(cls) => cs.registry(cls);
            if codec.Failure? {
              reader.Reset(mark);
              return Failure(CodecConfiguration(FailedToDecode(model.name, codec.error)));
            }
            found := Some(codec.value);
            break;
          } else {
            reader.SkipValue();
          }
        }
        reader.Reset(mark);
      }
      r := Success(if found.Some? then found.value else defaultCodec);
    }

    /** decodeWithLifecycle. */
    method DecodeWithLifecycle(reader: Reader, cs: Codecs) returns (r: Result<Decoded, Error>, trace: seq<Step>)
      requires reader.Valid() && !reader.started
      modifies reader
      ensures Run(r, trace) == LifecycleRun(model, reader.entries, cs)
    {
      var es := reader.ReadAll();
      var document := ToDocument(es);
      var target := model;
      trace := [];
      if model.useDiscriminator {
        var d := GetString(document, model.discriminatorKey);
        if d.Failure? {
          return Failure(d.error), trace;
        }
        if d.value.Some? {
          var cls := cs.lookup(d.value.value);
          if cls.Failure? {
            return Failure(cls.error), trace;
          }
          var codec := cs.registry(cls.value);
          if codec.Failure? {
            return Failure(codec.error), trace;
          }
          if codec.value.OtherCodec? {
            return Failure(CodecConfiguration(NonEntityDiscriminator(d.value.value))), trace;
          }
          target := codec.value.model;
        }
      }
      var instance := new Entity(target.entityType);
      trace := [Hooks(PreLoad, model.name)];
      var documentReader := new Reader(document);
      var o := DecodeProps(documentReader, instance, target, cs);
      trace := trace + [DecodeProperties(target.name)];
      if o.Fail? {
        return Failure(o.error), trace;
      }
      trace := trace + [Hooks(PostLoad, model.name)];
      r := Success(Instance(instance.cls, instance.values));
    }

    /**
     * decode. `checked` is the decoder context's checked-discriminator flag; a probe
     * that finds another entity codec hands the reader to that entity's decoder.
     */
    method Decode(reader: Reader, checked: bool, cs: Codecs, hasInterceptors: bool) returns (r: Result<Decoded, Error>, trace: seq<Step>)
      requires reader.Valid() && !reader.started
      modifies reader
      ensures Run(r, trace) == DecodeRun(model, reader.entries, checked, cs, hasInterceptors)
      decreases if checked then 0 else 1
    {
      if LoadsWithLifecycle(model, hasInterceptors) {
        r, trace := DecodeWithLifecycle(reader, cs);
      } else if checked {
        var instance := new Entity(model.entityType);
        var o := DecodeProps(reader, instance, model, cs);
        r := if o == Pass then Success(Instance(instance.cls, instance.values)) else Failure(o.error);
        trace := [];
      } else {
        var codec := GetCodecFromDocument(reader, model.useDiscriminator, model.discriminatorKey, cs, EntityCodec(model));
        if codec.Failure? {
          return Failure(codec.error), [];
        }
        match codec.value
        case EntityCodec(target) =>
          var decoder := new EntityDecoder(target);
          r, trace := decoder.Decode(reader, true, cs, hasInterceptors);
        case OtherCodec(c) =>
          var es := reader.ReadAll();
          var v := cs.decodeWith(OtherCodec(c), es);
          r := if v.Success? then Success(OtherValue(v.value)) else Failure(v.error);
          trace := [];
      }
    }
  }
}
