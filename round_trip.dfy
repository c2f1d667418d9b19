/**
 * What the decoder makes of the encoder's output: given field codecs that read
 * back what they write, the decoded field values are exactly the serialized
 * fields' values, and the discriminator written selects the entity's own codec.
 */
module RoundTrip {
  import opened Wrappers
  import opened Errors
  import opened Bson
  import opened Schema
  import opened EntityEncoding
  import opened EntityDecoding

  /** Every field codec reads back what it wrote, and never writes a non-null value as null. */
  ghost predicate CodecsInvert(cs: Codecs) {
    forall c, v :: v != Null ==> TypeOf(cs.encode(c, v)) != NULL && cs.decode(c, cs.encode(c, v)) == Success(v)
  }

  /**
   * A mapping as Morphia builds it: field and document names are each unique,
   * the id is one of the fields, and the discriminator key is no field's document name.
   */
  predicate WellFormed(m: EntityModel) {
    (forall i, j :: 0 <= i < j < |m.fields| ==> m.fields[i].mappedName != m.fields[j].mappedName)
    && (forall i, j :: 0 <= i < j < |m.fields| ==> m.fields[i].name != m.fields[j].name)
    && (m.idModel.Some? ==> m.idModel.value in m.fields)
    && (m.useDiscriminator ==> forall i :: 0 <= i < |m.fields| ==> m.fields[i].mappedName != m.discriminatorKey)
  }

  /** The decoded values hold the serialized fields, each with the value it was encoded from, and nothing else. */
  predicate RecoversFields(m: EntityModel, after: map<string, Value>, vs: map<string, Value>, cs: Codecs) {
    (forall k :: k in vs ==> vs[k] == Get(after, k))
    && (forall f :: f in m.fields ==> (f.name in vs <==> cs.shouldSerialize(f, Get(after, f.name))))
    && (forall k :: k in vs ==> exists f :: f in m.fields && f.name == k)
  }

  /** The values the non-id serialized fields among `fs` contribute. */
  function Expected(fs: seq<FieldModel>, idModel: Option<FieldModel>, after: map<string, Value>, cs: Codecs): map<string, Value>
    decreases |fs|
  {
    if fs == [] then map[]
    else
      var f := fs[|fs| - 1];
      Expected(fs[..|fs| - 1], idModel, after, cs)
        + (if idModel != Some(f) && cs.shouldSerialize(f, Get(after, f.name)) then map[f.name := Get(after, f.name)] else map[])
  }

  lemma {:induction false} ExpectedSpec(fs: seq<FieldModel>, idModel: Option<FieldModel>, after: map<string, Value>, cs: Codecs)
    requires forall i, j :: 0 <= i < j < |fs| ==> fs[i].name != fs[j].name
    ensures forall k :: k in Expected(fs, idModel, after, cs) ==> Expected(fs, idModel, after, cs)[k] == Get(after, k)
    ensures forall i :: 0 <= i < |fs| ==>
              (fs[i].name in Expected(fs, idModel, after, cs) <==> idModel != Some(fs[i]) && cs.shouldSerialize(fs[i], Get(after, fs[i].name)))
    ensures forall k :: k in Expected(fs, idModel, after, cs) ==> exists i :: 0 <= i < |fs| && fs[i].name == k
    decreases |fs|
  {
    if fs != [] {
      var init, f := fs[..|fs| - 1], fs[|fs| - 1];
      ExpectedSpec(init, idModel, after, cs);
      var e := Expected(fs, idModel, after, cs);
      assert f.name !in Expected(init, idModel, after, cs);
      forall i | 0 <= i < |fs|
        ensures fs[i].name in e <==> idModel != Some(fs[i]) && cs.shouldSerialize(fs[i], Get(after, fs[i].name))
      {
        if i < |fs| - 1 {
          assert fs[i] == init[i];
          assert fs[i].name != f.name;
        }
      }
      forall k | k in e ensures exists i :: 0 <= i < |fs| && fs[i].name == k {
        if k in Expected(init, idModel, after, cs) {
          var i :| 0 <= i < |init| && init[i].name == k;
          assert fs[i] == init[i];
        } else {
          assert fs[|fs| - 1].name == k;
        }
      }
    }
  }

  /** Under unique document names the field stored under a field's document name is that field. */
  lemma {:induction false} GetFieldOf(fields: seq<FieldModel>, i: nat)
    requires i < |fields|
    requires forall a, b :: 0 <= a < b < |fields| ==> fields[a].mappedName != fields[b].mappedName
    ensures GetField(fields, fields[i].mappedName) == Some(fields[i])
    decreases i
  {
    if i > 0 {
      assert fields[0].mappedName != fields[i].mappedName;
      assert fields[1..][i - 1] == fields[i];
      GetFieldOf(fields[1..], i - 1);
    }
  }

  /** One field's entry decodes to the value it was encoded from. */
  lemma FieldRoundTrip(m: EntityModel, f: FieldModel, v: Value, vs: map<string, Value>, cs: Codecs)
    requires CodecsInvert(cs)
    requires GetField(m.fields, f.mappedName) == Some(f)
    requires !(m.useDiscriminator && m.discriminatorKey == f.mappedName)
    requires cs.shouldSerialize(f, v)
    ensures DecodeEntries(m, FieldEntries(f, v, cs), vs, cs) == Success(vs[f.name := v])
  {
    var es := FieldEntries(f, v, cs);
    assert es[1..] == [];
    if v != Null {
      assert TypeOf(cs.encode(f.codec, v)) != NULL;
    }
  }

  /** The entries of the fields other than the id decode to those fields' values. */
  lemma {:induction false} PropertiesRoundTrip(m: EntityModel, k: nat, after: map<string, Value>, vs: map<string, Value>, cs: Codecs)
    requires CodecsInvert(cs) && WellFormed(m) && k <= |m.fields|
    ensures DecodeEntries(m, PropertyEntries(m.fields[..k], m.idModel, after, cs), vs, cs)
         == Success(vs + Expected(m.fields[..k], m.idModel, after, cs))
    decreases k
  {
    if k == 0 {
      assert vs + map[] == vs;
    } else {
      PropertiesRoundTrip(m, k - 1, after, vs, cs);
      PropertiesStep(m, k, after, vs, cs);
    }
  }

  lemma PropertiesStep(m: EntityModel, k: nat, after: map<string, Value>, vs: map<string, Value>, cs: Codecs)
    requires CodecsInvert(cs) && WellFormed(m) && 0 < k <= |m.fields|
    requires DecodeEntries(m, PropertyEntries(m.fields[..k - 1], m.idModel, after, cs), vs, cs)
          == Success(vs + Expected(m.fields[..k - 1], m.idModel, after, cs))
    ensures DecodeEntries(m, PropertyEntries(m.fields[..k], m.idModel, after, cs), vs, cs)
         == Success(vs + Expected(m.fields[..k], m.idModel, after, cs))
  {
    var fs := m.fields[..k];
    var f := m.fields[k - 1];
    assert fs[..k - 1] == m.fields[..k - 1] && fs[k - 1] == f;
    var prefix := PropertyEntries(m.fields[..k - 1], m.idModel, after, cs);
    var last := if m.idModel == Some(f) then [] else FieldEntries(f, Get(after, f.name), cs);
    var prior := Expected(m.fields[..k - 1], m.idModel, after, cs);
    var added := if m.idModel != Some(f) && cs.shouldSerialize(f, Get(after, f.name)) then map[f.name := Get(after, f.name)] else map[];
    assert PropertyEntries(fs, m.idModel, after, cs) == prefix + last;
    assert Expected(fs, m.idModel, after, cs) == prior + added;
    DecodeEntriesConcat(m, prefix, last, vs, cs);
    LastFieldRoundTrip(m, k, after, vs + prior, cs);
    UnionAssoc(vs, prior, added);
  }

  lemma UnionAssoc<K, V>(a: map<K, V>, b: map<K, V>, c: map<K, V>)
    ensures (a + b) + c == a + (b + c)
  {
  }

  lemma LastFieldRoundTrip(m: EntityModel, k: nat, after: map<string, Value>, done: map<string, Value>, cs: Codecs)
    requires CodecsInvert(cs) && WellFormed(m) && 0 < k <= |m.fields|
    ensures (var f := m.fields[k - 1];
             DecodeEntries(m, if m.idModel == Some(f) then [] else FieldEntries(f, Get(after, f.name), cs), done, cs)
             == Success(done + if m.idModel != Some(f) && cs.shouldSerialize(f, Get(after, f.name)) then map[f.name := Get(after, f.name)] else map[]))
  {
    var f := m.fields[k - 1];
    if m.idModel != Some(f) && cs.shouldSerialize(f, Get(after, f.name)) {
      GetFieldOf(m.fields, k - 1);
      FieldRoundTrip(m, f, Get(after, f.name), done, cs);
      assert done[f.name := Get(after, f.name)] == done + map[f.name := Get(after, f.name)];
    } else {
      assert done + map[] == done;
    }
  }

  /** The id entry on its own decodes to the id's value, if it was serialized. */
  function IdExpected(m: EntityModel, after: map<string, Value>, cs: Codecs): map<string, Value> {
    if m.idModel.Some? && cs.shouldSerialize(m.idModel.value, Get(after, m.idModel.value.name))
    then map[m.idModel.value.name := Get(after, m.idModel.value.name)]
    else map[]
  }

  lemma HeaderRoundTrip(m: EntityModel, values: map<string, Value>, collectible: bool, newId: nat, cs: Codecs)
    requires CodecsInvert(cs) && WellFormed(m)
    ensures DecodeEntries(m, IdEntries(m, values, collectible, newId, cs) + DiscriminatorEntries(m), map[], cs)
         == Success(IdExpected(m, ValuesAfterEncode(m, values, collectible, newId), cs))
  {
    var after := ValuesAfterEncode(m, values, collectible, newId);
    var ids, disc := IdEntries(m, values, collectible, newId, cs), DiscriminatorEntries(m);
    DecodeEntriesConcat(m, ids, disc, map[], cs);
    if m.idModel.Some? {
      var id := m.idModel.value;
      var i :| 0 <= i < |m.fields| && m.fields[i] == id;
      GetFieldOf(m.fields, i);
      if cs.shouldSerialize(id, Get(after, id.name)) {
        FieldRoundTrip(m, id, Get(after, id.name), map[], cs);
      }
    }
    if m.useDiscriminator {
      assert disc[1..] == [];
    }
  }

  /** The id's value and the other serialized fields' values are what decoding must recover. */
  lemma ExpectedRecovers(m: EntityModel, after: map<string, Value>, cs: Codecs)
    requires WellFormed(m)
    ensures RecoversFields(m, after, IdExpected(m, after, cs) + Expected(m.fields, m.idModel, after, cs), cs)
  {
    var idPart := IdExpected(m, after, cs);
    var e := Expected(m.fields, m.idModel, after, cs);
    ExpectedSpec(m.fields, m.idModel, after, cs);
    var vs := idPart + e;
    forall f | f in m.fields ensures f.name in vs <==> cs.shouldSerialize(f, Get(after, f.name)) {
      var i :| 0 <= i < |m.fields| && m.fields[i] == f;
      if m.idModel.Some? && m.idModel.value != f {
        var t :| 0 <= t < |m.fields| && m.fields[t] == m.idModel.value;
        if t < i { assert m.fields[t].name != m.fields[i].name; }
        if i < t { assert m.fields[i].name != m.fields[t].name; }
      }
    }
    forall k | k in vs ensures exists f :: f in m.fields && f.name == k {
      if k !in e {
        assert m.idModel.value in m.fields;
      } else {
        var i :| 0 <= i < |m.fields| && m.fields[i].name == k;
        assert m.fields[i] in m.fields;
      }
    }
  }

  /**
   * Decoding the encoder's document body recovers every serialized field, the id
   * included, with the value the encoder read (a generated id among them).
   */
  lemma EntityRoundTrip(m: EntityModel, values: map<string, Value>, collectible: bool, newId: nat, cs: Codecs)
    requires CodecsInvert(cs) && WellFormed(m)
    ensures DecodeEntries(m, EntityEntries(m, values, collectible, newId, cs), map[], cs).Success?
    ensures RecoversFields(m, ValuesAfterEncode(m, values, collectible, newId),
                           DecodeEntries(m, EntityEntries(m, values, collectible, newId, cs), map[], cs).value, cs)
  {
    var after := ValuesAfterEncode(m, values, collectible, newId);
    var header := IdEntries(m, values, collectible, newId, cs) + DiscriminatorEntries(m);
    var props := PropertyEntries(m.fields, m.idModel, after, cs);
    assert EntityEntries(m, values, collectible, newId, cs) == header + props;
    HeaderRoundTrip(m, values, collectible, newId, cs);
    DecodeEntriesConcat(m, header, props, map[], cs);
    PropertiesRoundTrip(m, |m.fields|, after, IdExpected(m, after, cs), cs);
    assert m.fields[..|m.fields|] == m.fields;
    ExpectedRecovers(m, after, cs);
  }

  /** On the encoder's output, the probe resolves the discriminator the encoder wrote. */
  lemma ProbeOnEncoded(m: EntityModel, values: map<string, Value>, collectible: bool, newId: nat, cs: Codecs)
    requires WellFormed(m) && m.useDiscriminator
    ensures Probe(EntityEntries(m, values, collectible, newId, cs), m.discriminatorKey, cs)
         == match cs.lookup(m.discriminator)
            case Failure(e) => Failure(e)
            case Success(cls) =>
              match cs.registry(cls)
              case Failure(e) => Failure(e)
              case Success(c) => Success(Some(c))
  {
    var ids := IdEntries(m, values, collectible, newId, cs);
    var es := EntityEntries(m, values, collectible, newId, cs);
    var i := |ids|;
    assert es[i] == Entry(m.discriminatorKey, [Primitive(SString(m.discriminator))]);
    forall j | 0 <= j < i ensures es[j].name != m.discriminatorKey {
      assert es[j] == ids[j];
      var id := m.idModel.value;
      var t :| 0 <= t < |m.fields| && m.fields[t] == id;
    }
    ProbeFirstMatch(es, m.discriminatorKey, cs, i);
  }

  /**
   * Encode then decode, without lifecycle hooks: when the discriminator resolves to
   * the entity's own codec (or none is used), the decoder builds an instance of the
   * entity's class holding exactly the serialized fields.
   */
  lemma EncodeThenDecode(m: EntityModel, values: map<string, Value>, collectible: bool, newId: nat, cs: Codecs, hasInterceptors: bool)
    requires CodecsInvert(cs) && WellFormed(m)
    requires !LoadsWithLifecycle(m, hasInterceptors)
    requires m.useDiscriminator ==> cs.lookup(m.discriminator) == Success(m.entityType) && cs.registry(m.entityType) == Success(EntityCodec(m))
    ensures var run := DecodeRun(m, EntityEntries(m, values, collectible, newId, cs), false, cs, hasInterceptors);
            run.trace == [] && run.result.Success? && run.result.value.Instance? && run.result.value.cls == m.entityType
            && RecoversFields(m, ValuesAfterEncode(m, values, collectible, newId), run.result.value.values, cs)
  {
    EntityRoundTrip(m, values, collectible, newId, cs);
    if m.useDiscriminator {
      ProbeOnEncoded(m, values, collectible, newId, cs);
    }
  }

  /**
   * Discriminator resolution: a document written for entity `m`, decoded through
   * the codec of a declared type `d` that shares its discriminator key, yields an
   * instance of `m`'s class holding `m`'s serialized fields.
   */
  lemma SubtypeDecodes(d: EntityModel, m: EntityModel, values: map<string, Value>, collectible: bool, newId: nat,
                       cs: Codecs, hasInterceptors: bool)
    requires CodecsInvert(cs) && WellFormed(m) && m.useDiscriminator
    requires d.useDiscriminator && d.discriminatorKey == m.discriminatorKey
    requires !LoadsWithLifecycle(d, hasInterceptors) && !LoadsWithLifecycle(m, hasInterceptors)
    requires cs.lookup(m.discriminator) == Success(m.entityType) && cs.registry(m.entityType) == Success(EntityCodec(m))
    ensures var run := DecodeRun(d, EntityEntries(m, values, collectible, newId, cs), false, cs, hasInterceptors);
            run.trace == [] && run.result.Success? && run.result.value.Instance? && run.result.value.cls == m.entityType
            && RecoversFields(m, ValuesAfterEncode(m, values, collectible, newId), run.result.value.values, cs)
  {
    EntityRoundTrip(m, values, collectible, newId, cs);
    ProbeOnEncoded(m, values, collectible, newId, cs);
  }
}
