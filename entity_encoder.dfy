/**
 * EntityEncoder: writes an entity instance as one document whose entries are
 * the id, then the discriminator, then every other field in schema order.
 */
module EntityEncoding {
  import opened Wrappers
  import opened Errors
  import opened Bson
  import opened Schema

  datatype IdGenerator = ObjectIdGenerator

  const OBJECT_ID_GENERATOR := ObjectIdGenerator

  /** Hooks or interceptors send the encode through the intermediate document. */
  predicate UsesLifecycle(m: EntityModel, hasInterceptors: bool) {
    PostPersist in m.lifecycle || PrePersist in m.lifecycle || hasInterceptors
  }

  /** Equal classes, two collection classes or two map classes. */
  predicate AreEquivalentTypes(t1: ClassRef, t2: ClassRef) {
    t1 == t2
    || (Extends(t1, COLLECTION) && Extends(t2, COLLECTION))
    || (Extends(t1, MAP) && Extends(t2, MAP))
  }

  /** An ObjectId generator applies when the id's normalized type can hold an ObjectId. */
  predicate GeneratesIds(m: EntityModel) {
    m.idModel.Some? && IsAssignableFrom(m.idModel.value.normalizedType, ObjectIdClass)
  }

  /** A new id is made when a generator applies, the id is null and the document is a top-level one. */
  predicate MakesId(m: EntityModel, values: map<string, Value>, collectible: bool) {
    GeneratesIds(m) && Get(values, m.idModel.value.name) == Null && collectible
  }

  /** The instance's field values once the id (if one was made) is written back. */
  function ValuesAfterEncode(m: EntityModel, values: map<string, Value>, collectible: bool, newId: nat): map<string, Value> {
    if MakesId(m, values, collectible) then values[m.idModel.value.name := ObjectId(newId)] else values
  }

  /** The entry one field contributes (encodeValue): none, an explicit null, or its codec's output. */
  function FieldEntries(f: FieldModel, v: Value, cs: Codecs): seq<Entry> {
    if cs.shouldSerialize(f, v) then
      [Entry(f.mappedName, if v == Null then [Primitive(SNull)] else cs.encode(f.codec, v))]
    else []
  }

  function IdEntries(m: EntityModel, values: map<string, Value>, collectible: bool, newId: nat, cs: Codecs): seq<Entry> {
    match m.idModel
    case None => []
    case Some(id) => FieldEntries(id, Get(ValuesAfterEncode(m, values, collectible, newId), id.name), cs)
  }

  function DiscriminatorEntries(m: EntityModel): seq<Entry> {
    if m.useDiscriminator then [Entry(m.discriminatorKey, [Primitive(SString(m.discriminator))])] else []
  }

  /** The entries of the fields other than the id, in schema order. */
  function PropertyEntries(fields: seq<FieldModel>, idModel: Option<FieldModel>, values: map<string, Value>, cs: Codecs): seq<Entry>
    decreases |fields|
  {
    if fields == [] then []
    else
      var f := fields[|fields| - 1];
      PropertyEntries(fields[..|fields| - 1], idModel, values, cs)
        + (if idModel == Some(f) then [] else FieldEntries(f, Get(values, f.name), cs))
  }

  /** The entries of the document written for an instance with field values `values`. */
  function EntityEntries(m: EntityModel, values: map<string, Value>, collectible: bool, newId: nat, cs: Codecs): seq<Entry> {
    IdEntries(m, values, collectible, newId, cs)
      + DiscriminatorEntries(m)
      + PropertyEntries(m.fields, m.idModel, ValuesAfterEncode(m, values, collectible, newId), cs)
  }

  // ----- an independent account of which fields are written -----

  /** The non-id fields that pass shouldSerialize, in schema order. */
  function SerializedFields(fields: seq<FieldModel>, idModel: Option<FieldModel>, values: map<string, Value>, cs: Codecs): seq<FieldModel>
    decreases |fields|
  {
    if fields == [] then []
    else if idModel != Some(fields[0]) && cs.shouldSerialize(fields[0], Get(values, fields[0].name)) then
      [fields[0]] + SerializedFields(fields[1..], idModel, values, cs)
    else SerializedFields(fields[1..], idModel, values, cs)
  }

  function MappedNames(fs: seq<FieldModel>): seq<string>
    decreases |fs|
  {
    if fs == [] then [] else [fs[0].mappedName] + MappedNames(fs[1..])
  }

  /** `a` is `b` with some elements left out: a subsequence, order kept. */
  predicate IsSubsequence<T(==)>(a: seq<T>, b: seq<T>)
    decreases |b|
  {
    a == [] || (b != [] && ((a[0] == b[0] && IsSubsequence(a[1..], b[1..])) || IsSubsequence(a, b[1..])))
  }

  lemma {:induction false} MappedNamesConcat(a: seq<FieldModel>, b: seq<FieldModel>)
    ensures MappedNames(a + b) == MappedNames(a) + MappedNames(b)
    decreases |a|
  {
    if a == [] {
      assert a + b == b;
    } else {
      assert (a + b)[1..] == a[1..] + b;
      MappedNamesConcat(a[1..], b);
    }
  }

  lemma {:induction false} SerializedFieldsSnoc(fields: seq<FieldModel>, f: FieldModel, idModel: Option<FieldModel>,
                                                values: map<string, Value>, cs: Codecs)
    ensures SerializedFields(fields + [f], idModel, values, cs)
         == SerializedFields(fields, idModel, values, cs)
            + (if idModel != Some(f) && cs.shouldSerialize(f, Get(values, f.name)) then [f] else [])
    decreases |fields|
  {
    if fields == [] {
      assert fields + [f] == [f];
      assert [f][1..] == [];
    } else {
      assert (fields + [f])[1..] == fields[1..] + [f];
      SerializedFieldsSnoc(fields[1..], f, idModel, values, cs);
    }
  }

  /** The property entries are keyed by the mapped names of the serialized fields, in order. */
  lemma {:induction false} PropertyKeys(fields: seq<FieldModel>, idModel: Option<FieldModel>, values: map<string, Value>, cs: Codecs)
    ensures Keys(PropertyEntries(fields, idModel, values, cs)) == MappedNames(SerializedFields(fields, idModel, values, cs))
    decreases |fields|
  {
    if fields != [] {
      var init, f := fields[..|fields| - 1], fields[|fields| - 1];
      assert fields == init + [f];
      PropertyKeys(init, idModel, values, cs);
      SerializedFieldsSnoc(init, f, idModel, values, cs);
      var last := if idModel == Some(f) then [] else FieldEntries(f, Get(values, f.name), cs);
      KeysConcat(PropertyEntries(init, idModel, values, cs), last);
      var lastFields := if idModel != Some(f) && cs.shouldSerialize(f, Get(values, f.name)) then [f] else [];
      MappedNamesConcat(SerializedFields(init, idModel, values, cs), lastFields);
      assert Keys(last) == MappedNames(lastFields) by {
        if lastFields != [] {
          assert last == [Entry(f.mappedName, last[0].value)];
          assert last[1..] == [] && lastFields[1..] == [];
        }
      }
    }
  }

  /** A field is written exactly when it is not the id and passes shouldSerialize; schema order is kept. */
  lemma {:induction false} SerializedFieldsSpec(fields: seq<FieldModel>, idModel: Option<FieldModel>, values: map<string, Value>, cs: Codecs)
    ensures forall f :: f in SerializedFields(fields, idModel, values, cs) <==>
              f in fields && idModel != Some(f) && cs.shouldSerialize(f, Get(values, f.name))
    ensures IsSubsequence(SerializedFields(fields, idModel, values, cs), fields)
    decreases |fields|
  {
    if fields != [] {
      SerializedFieldsSpec(fields[1..], idModel, values, cs);
      var out := SerializedFields(fields, idModel, values, cs);
      if out != [] && out == [fields[0]] + SerializedFields(fields[1..], idModel, values, cs) {
        assert out[1..] == SerializedFields(fields[1..], idModel, values, cs);
      }
      assert fields == [fields[0]] + fields[1..];
    }
  }

  /** The id when one is written, then the discriminator when one is used, then the serialized fields. */
  lemma EntityKeys(m: EntityModel, values: map<string, Value>, collectible: bool, newId: nat, cs: Codecs)
    requires forall c, v :: IsValue(cs.encode(c, v))
    ensures IsValue(DocumentOf(Flatten(EntityEntries(m, values, collectible, newId, cs))))
    ensures DocumentKeys(DocumentOf(Flatten(EntityEntries(m, values, collectible, newId, cs))))
         == (if m.idModel.Some? && cs.shouldSerialize(m.idModel.value, Get(ValuesAfterEncode(m, values, collectible, newId), m.idModel.value.name))
             then [m.idModel.value.mappedName] else [])
            + (if m.useDiscriminator then [m.discriminatorKey] else [])
            + MappedNames(SerializedFields(m.fields, m.idModel, ValuesAfterEncode(m, values, collectible, newId), cs))
  {
    var after := ValuesAfterEncode(m, values, collectible, newId);
    var ids, disc, props := IdEntries(m, values, collectible, newId, cs), DiscriminatorEntries(m),
                            PropertyEntries(m.fields, m.idModel, after, cs);
    FieldEntriesAreValues(m.fields, m.idModel, after, cs);
    var es := ids + disc + props;
    forall i | 0 <= i < |es| ensures IsValue(es[i].value) {
      if i >= |ids| + |disc| {
        assert es[i] == props[i - |ids| - |disc|];
      } else if i >= |ids| {
        assert es[i] == disc[i - |ids|];
      } else {
        assert es[i] == ids[i];
      }
    }
    DocumentOfEntries(es);
    KeysConcat(ids + disc, props);
    KeysConcat(ids, disc);
    PropertyKeys(m.fields, m.idModel, after, cs);
    if m.idModel.Some? {
      var id := m.idModel.value;
      if cs.shouldSerialize(id, Get(after, id.name)) {
        assert ids == [Entry(id.mappedName, ids[0].value)];
        assert Keys(ids) == [id.mappedName] by { assert ids[1..] == []; }
      }
    }
    if m.useDiscriminator {
      assert Keys(disc) == [m.discriminatorKey] by { assert disc[1..] == []; }
    }
  }

  /** Every property entry holds a single value when every codec writes one. */
  lemma {:induction false} FieldEntriesAreValues(fields: seq<FieldModel>, idModel: Option<FieldModel>, values: map<string, Value>, cs: Codecs)
    requires forall c, v :: IsValue(cs.encode(c, v))
    ensures forall i :: 0 <= i < |PropertyEntries(fields, idModel, values, cs)| ==> IsValue(PropertyEntries(fields, idModel, values, cs)[i].value)
    decreases |fields|
  {
    if fields != [] {
      FieldEntriesAreValues(fields[..|fields| - 1], idModel, values, cs);
    }
  }

  /** A document written as its start, a run of entries, more entries and its end. */
  lemma DocumentAssembly(before: seq<Event>, mid: seq<Event>, after: seq<Event>, header: seq<Entry>, props: seq<Entry>)
    requires mid == before + [StartDocument] + Flatten(header)
    requires after == mid + Flatten(props) + [EndDocument]
    ensures after == before + DocumentOf(Flatten(header + props))
  {
    FlattenConcat(header, props);
    WrapConcat(before, Flatten(header), Flatten(props));
  }

  lemma WrapConcat(before: seq<Event>, a: seq<Event>, b: seq<Event>)
    ensures before + [StartDocument] + a + b + [EndDocument] == before + DocumentOf(a + b)
  {
    assert [StartDocument] + (a + b) + [EndDocument] == [StartDocument] + a + b + [EndDocument];
  }

  /** The entries of one schema field in the property loop: none for the id. */
  function StepEntries(f: FieldModel, idModel: Option<FieldModel>, values: map<string, Value>, cs: Codecs): seq<Entry> {
    if idModel == Some(f) then [] else FieldEntries(f, Get(values, f.name), cs)
  }

  /** The property entries of one more field of the schema: those of the fields before it, then its own. */
  lemma PropertyEntriesSnoc(fields: seq<FieldModel>, i: nat, idModel: Option<FieldModel>, values: map<string, Value>, cs: Codecs)
    requires i < |fields|
    ensures PropertyEntries(fields[..i + 1], idModel, values, cs)
      == PropertyEntries(fields[..i], idModel, values, cs) + StepEntries(fields[i], idModel, values, cs)
  {
    assert fields[..i + 1][..i] == fields[..i];
  }

  /**
   * One more field of the schema adds its entries, unless it is the id, after
   * those of the fields before it: written as the effect on the events so far.
   */
  lemma PropertyEntriesStep(before: seq<Event>, cur: seq<Event>, next: seq<Event>, fields: seq<FieldModel>, i: nat,
                            idModel: Option<FieldModel>, values: map<string, Value>, cs: Codecs)
    requires i < |fields|
    requires cur == before + Flatten(PropertyEntries(fields[..i], idModel, values, cs))
    requires next == cur + Flatten(StepEntries(fields[i], idModel, values, cs))
    ensures next == before + Flatten(PropertyEntries(fields[..i + 1], idModel, values, cs))
  {
    var pre := PropertyEntries(fields[..i], idModel, values, cs);
    var extra := StepEntries(fields[i], idModel, values, cs);
    PropertyEntriesSnoc(fields, i, idModel, values, cs);
    FlattenConcat(pre, extra);
    AppendTwice(before, cur, next, Flatten(pre), Flatten(extra), Flatten(PropertyEntries(fields[..i + 1], idModel, values, cs)));
  }

  /** The lifecycle path's steps, in the order the encoder takes them. */
  function PersistSteps(m: EntityModel): seq<Step> {
    [Hooks(PrePersist, m.name), EncodeEntity, Hooks(PostPersist, m.name), WriteDocument]
  }

  class EntityEncoder {
    const model: EntityModel
    /** Looked up on first use and cached (getIdGenerator). */
    var idGenerator: Option<IdGenerator>

    ghost predicate Valid()
      reads this
    {
      idGenerator.Some? ==> idGenerator == Some(OBJECT_ID_GENERATOR) && GeneratesIds(model)
    }

    constructor (model: EntityModel)
      ensures Valid() && this.model == model && idGenerator == None
    {
      this.model := model;
      idGenerator := None;
    }

    method GetIdGenerator() returns (g: Option<IdGenerator>)
      requires Valid() && model.idModel.Some?
      modifies this
      ensures Valid() && idGenerator == g
      ensures g.Some? <==> GeneratesIds(model)
      ensures g.Some? ==> g == Some(OBJECT_ID_GENERATOR)
      ensures old(idGenerator).Some? ==> g == old(idGenerator)
    {
      if idGenerator.None? {
        if IsAssignableFrom(model.idModel.value.normalizedType, ObjectIdClass) {
          idGenerator := Some(OBJECT_ID_GENERATOR);
        }
      }
      g := idGenerator;
    }

    static method EncodeValue(w: Writer, f: FieldModel, v: Value, cs: Codecs)
      modifies w
      ensures w.events == old(w.events) + Flatten(FieldEntries(f, v, cs))
    {
      if cs.shouldSerialize(f, v) {
        w.WriteName(f.mappedName);
        if v == Null {
          w.WriteScalar(SNull);
        } else {
          w.Emit(cs.encode(f.codec, v));
        }
      }
      assert Flatten([]) == [];
    }

    static method EncodeProperty(w: Writer, instance: Entity, f: FieldModel, cs: Codecs)
      modifies w
      ensures w.events == old(w.events) + Flatten(FieldEntries(f, Get(instance.values, f.name), cs))
    {
      EncodeValue(w, f, Get(instance.values, f.name), cs);
    }

    method EncodeIdProperty(w: Writer, instance: Entity, collectible: bool, newId: nat, cs: Codecs)
      requires Valid()
      modifies this, w, instance
      ensures Valid()
      ensures instance.values == ValuesAfterEncode(model, old(instance.values), collectible, newId)
      ensures w.events == old(w.events) + Flatten(IdEntries(model, old(instance.values), collectible, newId, cs))
      ensures idGenerator == if GeneratesIds(model) then Some(OBJECT_ID_GENERATOR) else old(idGenerator)
    {
      if model.idModel.Some? {
        var idModel := model.idModel.value;
        var generator := GetIdGenerator();
        if generator.None? {
          EncodeProperty(w, instance, idModel, cs);
        } else {
          var id := Get(instance.values, idModel.name);
          if id == Null && collectible {
            id := ObjectId(newId);
            instance.Set(idModel.name, id);
          }
          EncodeValue(w, idModel, id, cs);
        }
      }
    }

    /** The loop over the field models, skipping the id. */
    static method EncodeProperties(w: Writer, instance: Entity, m: EntityModel, cs: Codecs)
      modifies w
      ensures w.events == old(w.events) + Flatten(PropertyEntries(m.fields, m.idModel, instance.values, cs))
    {
      ghost var before := w.events;
      var fields := m.fields;
      var values := instance.values;
      for i := 0 to |fields|
        invariant w.events == before + Flatten(PropertyEntries(fields[..i], m.idModel, values, cs))
      {
        var f := fields[i];
        ghost var cur := w.events;
        if m.idModel != Some(f) {
          EncodeProperty(w, instance, f, cs);
        }
        assert m.idModel == Some(f) ==> Flatten(StepEntries(f, m.idModel, values, cs)) == [];
        PropertyEntriesStep(before, cur, w.events, fields, i, m.idModel, values, cs);
      }
      assert fields[..|fields|] == fields;
    }

    /** The id entry, then the discriminator entry. */
    method EncodeHeader(w: Writer, instance: Entity, collectible: bool, newId: nat, cs: Codecs)
      requires Valid()
      modifies this, w, instance
      ensures Valid()
      ensures w.events == old(w.events) + Flatten(IdEntries(model, old(instance.values), collectible, newId, cs) + DiscriminatorEntries(model))
      ensures instance.values == ValuesAfterEncode(model, old(instance.values), collectible, newId)
      ensures idGenerator == if GeneratesIds(model) then Some(OBJECT_ID_GENERATOR) else old(idGenerator)
    {
      ghost var ids := IdEntries(model, instance.values, collectible, newId, cs);
      ghost var disc := DiscriminatorEntries(model);
      ghost var start := w.events;
      EncodeIdProperty(w, instance, collectible, newId, cs);
      if model.useDiscriminator {
        w.WriteName(model.discriminatorKey);
        w.WriteScalar(SString(model.discriminator));
      }
      assert w.events == start + Flatten(ids) + Flatten(disc);
      FlattenConcat(ids, disc);
    }

    /** The document of an instance whose runtime class matches the model. */
    method EncodeDocument(w: Writer, instance: Entity, collectible: bool, newId: nat, cs: Codecs)
      requires Valid()
      modifies this, w, instance
      ensures Valid()
      ensures w.events == old(w.events) + DocumentOf(Flatten(EntityEntries(model, old(instance.values), collectible, newId, cs)))
      ensures instance.values == ValuesAfterEncode(model, old(instance.values), collectible, newId)
      ensures idGenerator == if GeneratesIds(model) then Some(OBJECT_ID_GENERATOR) else old(idGenerator)
    {
      ghost var header := IdEntries(model, instance.values, collectible, newId, cs) + DiscriminatorEntries(model);
      ghost var entries := EntityEntries(model, instance.values, collectible, newId, cs);
      ghost var before := w.events;
      w.WriteStartDocument();
      ghost var start := w.events;
      EncodeHeader(w, instance, collectible, newId, cs);
      ghost var mid := w.events;
      EncodeProperties(w, instance, model, cs);
      ghost var props := PropertyEntries(model.fields, model.idModel, instance.values, cs);
      assert entries == header + props;
      w.WriteEndDocument();
      DocumentAssembly(before, mid, w.events, header, props);
    }

    /**
     * encodeEntity: the document of the instance when its runtime class is
     * equivalent to the model's type; otherwise the runtime class's codec
     * encodes it and nothing else happens.
     */
    method EncodeEntityTo(w: Writer, instance: Entity, collectible: bool, newId: nat, cs: Codecs) returns (r: Outcome<Error>)
      requires Valid()
      modifies this, w, instance
      ensures Valid()
      ensures AreEquivalentTypes(instance.cls, model.entityType) ==>
                r == Pass &&
                w.events == old(w.events) + DocumentOf(Flatten(EntityEntries(model, old(instance.values), collectible, newId, cs))) &&
                instance.values == ValuesAfterEncode(model, old(instance.values), collectible, newId) &&
                idGenerator == if GeneratesIds(model) then Some(OBJECT_ID_GENERATOR) else old(idGenerator)
      ensures !AreEquivalentTypes(instance.cls, model.entityType) ==>
                instance.values == old(instance.values) && idGenerator == old(idGenerator) &&
                match cs.registry(instance.cls)
                case Success(codec) => r == Pass && w.events == old(w.events) + cs.encodeWith(codec, instance.cls, old(instance.values))
                case Failure(e) => r == Fail(e) && w.events == old(w.events)
    {
      if AreEquivalentTypes(instance.cls, model.entityType) {
        EncodeDocument(w, instance, collectible, newId, cs);
        r := Pass;
      } else {
        var codec := cs.registry(instance.cls);
        if codec.Success? {
          w.Emit(cs.encodeWith(codec.value, instance.cls, instance.values));
          r := Pass;
        } else {
          r := Fail(codec.error);
        }
      }
    }

    /**
     * The lifecycle path: PrePersist hooks, the entity encoded into an
     * intermediate document, PostPersist hooks, then that document written.
     */
    method EncodeWithLifecycle(w: Writer, instance: Entity, collectible: bool, newId: nat, cs: Codecs)
      returns (r: Outcome<Error>, trace: seq<Step>)
      requires Valid()
      modifies this, w, instance
      ensures Valid()
      ensures r == Pass ==> trace == PersistSteps(model)
      ensures r.Fail? ==> trace == PersistSteps(model)[..2] && w.events == old(w.events)
      ensures AreEquivalentTypes(instance.cls, model.entityType) ==>
                instance.values == ValuesAfterEncode(model, old(instance.values), collectible, newId)
      ensures AreEquivalentTypes(instance.cls, model.entityType) ==>
                r == Pass &&
                w.events == old(w.events) + cs.encodeDocument(DocumentOf(Flatten(EntityEntries(model, old(instance.values), collectible, newId, cs))))
      ensures !AreEquivalentTypes(instance.cls, model.entityType) ==>
                instance.values == old(instance.values) && idGenerator == old(idGenerator) &&
                match cs.registry(instance.cls)
                case Success(codec) => r == Pass && w.events == old(w.events) + cs.encodeDocument(cs.encodeWith(codec, instance.cls, old(instance.values)))
                case Failure(e) => r == Fail(e) && w.events == old(w.events)
    {
      ghost var entries := EntityEntries(model, instance.values, collectible, newId, cs);
      var document := new Writer();
      trace := [Hooks(PrePersist, model.name)];
      r := EncodeEntityTo(document, instance, collectible, newId, cs);
      trace := trace + [EncodeEntity];
      if r.Fail? {
        return;
      }
      if AreEquivalentTypes(instance.cls, model.entityType) {
        assert [] + DocumentOf(Flatten(entries)) == DocumentOf(Flatten(entries));
      } else {
        assert [] + cs.encodeWith(cs.registry(instance.cls).value, instance.cls, instance.values)
            == cs.encodeWith(cs.registry(instance.cls).value, instance.cls, instance.values);
      }
      trace := trace + [Hooks(PostPersist, model.name)];
      w.Emit(cs.encodeDocument(document.events));
      trace := trace + [WriteDocument];
    }

    /** encode: the lifecycle path exactly when hooks or interceptors are present. */
    method Encode(w: Writer, instance: Entity, collectible: bool, newId: nat, cs: Codecs, hasInterceptors: bool)
      returns (r: Outcome<Error>, trace: seq<Step>)
      requires Valid()
      modifies this, w, instance
      ensures Valid()
      ensures UsesLifecycle(model, hasInterceptors) <==> trace != []
      ensures !UsesLifecycle(model, hasInterceptors) && AreEquivalentTypes(instance.cls, model.entityType) ==>
                r == Pass &&
                w.events == old(w.events) + DocumentOf(Flatten(EntityEntries(model, old(instance.values), collectible, newId, cs)))
      ensures UsesLifecycle(model, hasInterceptors) && AreEquivalentTypes(instance.cls, model.entityType) ==>
                r == Pass &&
                w.events == old(w.events) + cs.encodeDocument(DocumentOf(Flatten(EntityEntries(model, old(instance.values), collectible, newId, cs))))
      ensures UsesLifecycle(model, hasInterceptors) && r == Pass ==> trace == PersistSteps(model)
      ensures AreEquivalentTypes(instance.cls, model.entityType) ==>
                instance.values == ValuesAfterEncode(model, old(instance.values), collectible, newId)
      ensures !AreEquivalentTypes(instance.cls, model.entityType) ==>
                instance.values == old(instance.values) &&
                match cs.registry(instance.cls)
                case Success(codec) =>
                  r == Pass &&
                  w.events == old(w.events) +
                    (if UsesLifecycle(model, hasInterceptors)
                     then cs.encodeDocument(cs.encodeWith(codec, instance.cls, old(instance.values)))
                     else cs.encodeWith(codec, instance.cls, old(instance.values)))
                case Failure(e) => r == Fail(e) && w.events == old(w.events)
    {
      if UsesLifecycle(model, hasInterceptors) {
        r, trace := EncodeWithLifecycle(w, instance, collectible, newId, cs);
      } else {
        r := EncodeEntityTo(w, instance, collectible, newId, cs);
        trace := [];
      }
    }
  }
}
