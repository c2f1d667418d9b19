# Morphia query and mapping core, modelled in Dafny

A model of five sequential pieces of Morphia, the Java object-document mapper for MongoDB.

1. **The query criteria builder** (`FieldEndImpl`).
   - A field-end holds a negation flag that `not()` flips.
   - Every builder call appends one criterion to a container or throws.
2. **The entity encoder** (`EntityEncoder`). It writes an entity as one BSON document:
   - the id entry first, then the discriminator, then every other field in schema order;
   - only the fields that `shouldSerialize` accepts, with an explicit null for a null value;
   - an ObjectId generated for a null id of a top-level document and written back onto the instance;
   - when the runtime class is not equivalent to the mapped one, the encode is delegated to another codec;
   - a lifecycle path through an intermediate document.
3. **The entity decoder** (`EntityDecoder`). It reads one document entry by entry:
   - the discriminator probe under a reader mark;
   - the discriminator entry is consumed, unknown keys are skipped, and nulls are kept;
   - when a field codec is refused, the reader is reset and the value is decoded generically, then converted;
   - a lifecycle path that decodes a `Document` first.
4. **The expression and stage writer helpers** (`ExpressionCodecHelper`, `StageCodec`, `MatchCodec`).
   - Absent values are omitted.
   - Single-valued expressions are written bare; any other expression is wrapped in a document.
   - A stage is written as the one-key document `{ stageName: payload }`.
   - `$match` writes its filters in order.
5. **The expression node builders** (`Push`, `ZipExpression`, `CalculusExpression`).
   - `Push` has two mutually exclusive modes.
   - `ZipExpression` and `CalculusExpression` are plain setters.

A BSON writer is a `Bson.Writer` holding the append-only sequence of events it has been given. A BSON reader is a `Bson.Reader` over the entries of one document, with a cursor that a `Mark` saves and restores. Each imperative Java method is a Dafny method over these objects. It is proved equal to a pure function of its inputs (`EntityEntries`, `DecodeEntries`, `CodecFromDocument`, `CriterionFor`, `ExpressionArrayEvents`, `MatchPayload` and so on). The properties Morphia promises are then proved as lemmas about those functions:
- document shape and key order;
- omission of absent values;
- error cases;
- Push's exclusivity;
- the encode→decode round trip.

Modules: `Wrappers`/`Errors`/`Text` (wrappers.dfy), `Bson`, `Schema`, `EntityEncoding`, `EntityDecoding`, `RoundTrip`, `Criteria`, `ExpressionHelper`, `Stages`, `ExpressionNodes`.

### Behaviour of the code that the model keeps

- **Negated geo queries.** Only the legacy `near(...)` forms refuse negation, through `addGeoCriteria` (FieldEndImpl.java:331-334). The geo-sphere forms (`intersects`, `near(Point)`, `nearSphere`, `within(Polygon|MultiPolygon)`) ignore the flag. `within(Shape)` creates an ordinary field criterion that carries the flag. See `Criteria.FailsIffRefused`, `Criteria.SphereIgnoresNegation` and `Criteria.NegationCarried`.
- **PrePersist timing.** The lifecycle encode runs the PrePersist hooks on a new, empty `Document` before `encodeEntity` fills it (EntityEncoder.java:119-123). `EntityEncoding.PersistSteps` records that order.
- **Lifecycle decode.** That path decodes a `Document` and reads the discriminator with `getString`, with no reader mark. Its PreLoad and PostLoad hooks are those of the declared entity model, even when the discriminator selects another model (EntityDecoder.java:142,146).
- **Round trip.**
  - Decoding an encoded entity gives back only the serialized fields: a field that `shouldSerialize` refuses is not written and is therefore not decoded.
  - An id generated during the encode is part of what comes back.
  - Recovery also needs field codecs that invert each other. `RoundTrip.EncodeThenDecode` states exactly this.

## Model

| member | source | states |
|---|---|---|
| Criteria.CriterionFor | morphia/src/main/java/dev/morphia/query/FieldEndImpl.java:70-320 | Every criterion a builder call creates names the field-end's field, mapped class and validating flag; a field criterion carries the negation flag current at the call |
| Criteria.FailsIffRefused | morphia/src/main/java/dev/morphia/query/FieldEndImpl.java:115-146 | A call fails exactly when the value checks or the negated legacy geo query refuse it. A null bound reports "val", a null/empty collection "values", a null query "query", a null shape "shape", and a negated near the query error |
| Criteria.SphereIgnoresNegation | morphia/src/main/java/dev/morphia/query/FieldEndImpl.java:165-175 | The geo-sphere calls give the same criterion whatever the negation flag, always succeed, and keep the operator and geometry given |
| Criteria.Near2dOperator | morphia/src/main/java/dev/morphia/query/FieldEndImpl.java:195-214 | An unnegated legacy near yields a 2d criterion whose operator is NEAR_SPHERE iff spherical and NEAR otherwise, with `$maxDistance` in its options iff a radius is given |
| Criteria.NegationCarried | morphia/src/main/java/dev/morphia/query/FieldEndImpl.java:322-329 | Every accepted non-geo call creates a field criterion carrying the flag as it was at the call |
| Criteria.CriteriaContainer.constructor | morphia/src/main/java/dev/morphia/query/FieldEndImpl.java:46-51 | A new container holds no criteria |
| Criteria.CriteriaContainer.Add | morphia/src/main/java/dev/morphia/query/FieldEndImpl.java:322-329 | Appends the one criterion after the existing ones |
| Criteria.FieldEnd.constructor | morphia/src/main/java/dev/morphia/query/FieldEndImpl.java:61-67 | Stores field, target, mapped class and validating flag; not negated |
| Criteria.FieldEnd.Origin | morphia/src/main/java/dev/morphia/query/FieldEndImpl.java:46-51 | The site whose field, mapped class and validating flag are the field-end's |
| Criteria.FieldEnd.Not | morphia/src/main/java/dev/morphia/query/FieldEndImpl.java:247-250 | Returns the same field-end with the negation flag flipped |
| Criteria.FieldEnd.AddCriteria | morphia/src/main/java/dev/morphia/query/FieldEndImpl.java:322-324 | Appends exactly one field criterion with the current flag and returns the target; earlier criteria untouched |
| Criteria.FieldEnd.AddCriteriaWith | morphia/src/main/java/dev/morphia/query/FieldEndImpl.java:326-329 | Appends exactly one field criterion with the flag given and returns the target |
| Criteria.FieldEnd.AddGeoCriteria | morphia/src/main/java/dev/morphia/query/FieldEndImpl.java:331-338 | Negated: throws the query error and appends nothing; otherwise appends one 2d criterion and returns the target |
| Criteria.FieldEnd.AddSphere | morphia/src/main/java/dev/morphia/query/FieldEndImpl.java:164-175 | Appends the geo-sphere criterion `CriterionFor` gives whatever the flag |
| Criteria.FieldEnd.Compare | morphia/src/main/java/dev/morphia/query/FieldEndImpl.java:99-101 | An unchecked comparison: the container gains exactly the criterion `CriterionFor` gives |
| Criteria.FieldEnd.Bound | morphia/src/main/java/dev/morphia/query/FieldEndImpl.java:115-124 | A null bound throws and appends nothing; otherwise exactly the criterion `CriterionFor` gives is appended |
| Criteria.FieldEnd.Matching | morphia/src/main/java/dev/morphia/query/FieldEndImpl.java:70-96 | A null text throws and appends nothing; otherwise one EQUAL criterion with the pattern is appended |
| Criteria.FieldEnd.Membership | morphia/src/main/java/dev/morphia/query/FieldEndImpl.java:127-146 | A null or empty collection throws and appends nothing; otherwise one criterion with the items |
| Criteria.FieldEnd.Contains | morphia/src/main/java/dev/morphia/query/FieldEndImpl.java:70-73 | Unanchored, case-sensitive pattern criterion, or the "val" failure |
| Criteria.FieldEnd.ContainsIgnoreCase | morphia/src/main/java/dev/morphia/query/FieldEndImpl.java:76-79 | Unanchored, case-insensitive pattern criterion, or the "val" failure |
| Criteria.FieldEnd.DoesNotExist | morphia/src/main/java/dev/morphia/query/FieldEndImpl.java:82-84 | Appends (EXISTS, false) |
| Criteria.FieldEnd.EndsWith | morphia/src/main/java/dev/morphia/query/FieldEndImpl.java:87-90 | End-anchored, case-sensitive pattern criterion, or the "val" failure |
| Criteria.FieldEnd.EndsWithIgnoreCase | morphia/src/main/java/dev/morphia/query/FieldEndImpl.java:93-96 | End-anchored, case-insensitive pattern criterion, or the "val" failure |
| Criteria.FieldEnd.Equal | morphia/src/main/java/dev/morphia/query/FieldEndImpl.java:99-101 | Appends (EQUAL, val); null allowed |
| Criteria.FieldEnd.EqualIgnoreCase | morphia/src/main/java/dev/morphia/query/FieldEndImpl.java:104-107 | A null value throws; otherwise a fully anchored, case-insensitive pattern of the value's string form |
| Criteria.FieldEnd.Exists | morphia/src/main/java/dev/morphia/query/FieldEndImpl.java:110-112 | Appends (EXISTS, true) |
| Criteria.FieldEnd.GreaterThan | morphia/src/main/java/dev/morphia/query/FieldEndImpl.java:115-118 | (GREATER_THAN, val), or the "val" failure with nothing appended |
| Criteria.FieldEnd.GreaterThanOrEq | morphia/src/main/java/dev/morphia/query/FieldEndImpl.java:121-124 | (GREATER_THAN_OR_EQUAL, val), or the "val" failure |
| Criteria.FieldEnd.HasAllOf | morphia/src/main/java/dev/morphia/query/FieldEndImpl.java:127-131 | (ALL, values), or the "values" failure for null or empty |
| Criteria.FieldEnd.HasAnyOf | morphia/src/main/java/dev/morphia/query/FieldEndImpl.java:134-139 | (IN, values), or the "values" failure for null or empty |
| Criteria.FieldEnd.HasNoneOf | morphia/src/main/java/dev/morphia/query/FieldEndImpl.java:142-146 | (NOT_IN, values), or the "values" failure for null or empty |
| Criteria.FieldEnd.ElemMatch | morphia/src/main/java/dev/morphia/query/FieldEndImpl.java:149-152 | A null query throws; otherwise (ELEMENT_MATCH, query) with the current flag |
| Criteria.FieldEnd.HasThisOne | morphia/src/main/java/dev/morphia/query/FieldEndImpl.java:155-157 | The same criterion as `equal` |
| Criteria.FieldEnd.In | morphia/src/main/java/dev/morphia/query/FieldEndImpl.java:160-162 | The same outcome as `hasAnyOf` (IN) |
| Criteria.FieldEnd.Intersects | morphia/src/main/java/dev/morphia/query/FieldEndImpl.java:165-168 | One geo-sphere INTERSECTS criterion, flag ignored |
| Criteria.FieldEnd.IntersectsCrs | morphia/src/main/java/dev/morphia/query/FieldEndImpl.java:171-175 | One geo-sphere INTERSECTS criterion with the reference system, flag ignored |
| Criteria.FieldEnd.LessThan | morphia/src/main/java/dev/morphia/query/FieldEndImpl.java:178-181 | (LESS_THAN, val), or the "val" failure |
| Criteria.FieldEnd.LessThanOrEq | morphia/src/main/java/dev/morphia/query/FieldEndImpl.java:184-187 | (LESS_THAN_OR_EQUAL, val), or the "val" failure |
| Criteria.FieldEnd.Mod | morphia/src/main/java/dev/morphia/query/FieldEndImpl.java:190-192 | Appends (MOD, [divisor, remainder]) |
| Criteria.FieldEnd.Near | morphia/src/main/java/dev/morphia/query/FieldEndImpl.java:195-197 | Negated: throws with nothing appended; otherwise one NEAR 2d criterion |
| Criteria.FieldEnd.NearSpherical | morphia/src/main/java/dev/morphia/query/FieldEndImpl.java:200-202 | Negated: throws; otherwise NEAR_SPHERE iff spherical |
| Criteria.FieldEnd.NearRadius | morphia/src/main/java/dev/morphia/query/FieldEndImpl.java:205-207 | Negated: throws; otherwise NEAR with `$maxDistance` = radius |
| Criteria.FieldEnd.NearRadiusSpherical | morphia/src/main/java/dev/morphia/query/FieldEndImpl.java:210-214 | Negated: throws; otherwise NEAR_SPHERE iff spherical, with `$maxDistance` = radius |
| Criteria.FieldEnd.NearPoint | morphia/src/main/java/dev/morphia/query/FieldEndImpl.java:217-221 | One geo-sphere NEAR criterion at the point, flag ignored |
| Criteria.FieldEnd.NearPointBounded | morphia/src/main/java/dev/morphia/query/FieldEndImpl.java:224-230 | Geo-sphere NEAR with the given maximum and minimum distances, flag ignored |
| Criteria.FieldEnd.NearSphere | morphia/src/main/java/dev/morphia/query/FieldEndImpl.java:233-235 | Geo-sphere NEAR_SPHERE criterion, flag ignored |
| Criteria.FieldEnd.NearSphereBounded | morphia/src/main/java/dev/morphia/query/FieldEndImpl.java:238-244 | Geo-sphere NEAR_SPHERE with distances, flag ignored |
| Criteria.FieldEnd.NotEqual | morphia/src/main/java/dev/morphia/query/FieldEndImpl.java:253-255 | Appends (NOT_EQUAL, val) |
| Criteria.FieldEnd.NotIn | morphia/src/main/java/dev/morphia/query/FieldEndImpl.java:258-260 | The same outcome as `hasNoneOf` (NOT_IN) |
| Criteria.FieldEnd.SizeEq | morphia/src/main/java/dev/morphia/query/FieldEndImpl.java:263-265 | Appends (SIZE, n) |
| Criteria.FieldEnd.StartsWith | morphia/src/main/java/dev/morphia/query/FieldEndImpl.java:268-272 | Start-anchored, case-sensitive pattern criterion, or the "val" failure |
| Criteria.FieldEnd.StartsWithIgnoreCase | morphia/src/main/java/dev/morphia/query/FieldEndImpl.java:275-279 | Start-anchored, case-insensitive pattern criterion, or the "val" failure |
| Criteria.FieldEnd.Type | morphia/src/main/java/dev/morphia/query/FieldEndImpl.java:282-284 | Appends (TYPE, code) |
| Criteria.FieldEnd.Within | morphia/src/main/java/dev/morphia/query/FieldEndImpl.java:287-290 | A null shape throws; otherwise a negatable (GEO_WITHIN, shape) field criterion |
| Criteria.FieldEnd.WithinBoundary | morphia/src/main/java/dev/morphia/query/FieldEndImpl.java:293-304 | One geo-sphere GEO_WITHIN criterion for a polygon or multi-polygon, flag ignored |
| Criteria.FieldEnd.WithinBoundaryCrs | morphia/src/main/java/dev/morphia/query/FieldEndImpl.java:307-320 | The same with a reference system |
| Criteria.NegationScoping | morphia/src/main/java/dev/morphia/query/FieldEndImpl.java:326-329 | A worked example, for any field, class and validating flag: a negated and then a fresh field-end append one negated and one plain criterion after the existing ones |
| Criteria.DoubleNegation | morphia/src/main/java/dev/morphia/query/FieldEndImpl.java:247-250 | `not()` twice restores the flag, and the criterion then built carries the original flag |
| EntityEncoding.PropertyKeys | morphia/src/main/java/dev/morphia/mapping/codec/pojo/EntityEncoder.java:68-73 | The property entries' keys are the mapped names of the serialized non-id fields, in schema order |
| EntityEncoding.SerializedFieldsSpec | morphia/src/main/java/dev/morphia/mapping/codec/pojo/EntityEncoder.java:68-73 | A field is written iff it is in the schema, is not the id and `shouldSerialize` accepts its value; the written fields keep schema order |
| EntityEncoding.EntityKeys | morphia/src/main/java/dev/morphia/mapping/codec/pojo/EntityEncoder.java:58-74 | The encoded entity is one document whose keys are the id (if serialized), then the discriminator key (if used), then the serialized fields in schema order |
| EntityEncoding.EntityEncoder.constructor | morphia/src/main/java/dev/morphia/mapping/codec/pojo/EntityEncoder.java:130-139 | A new encoder has no cached id generator |
| EntityEncoding.EntityEncoder.GetIdGenerator | morphia/src/main/java/dev/morphia/mapping/codec/pojo/EntityEncoder.java:130-139 | A generator is returned iff the id's normalized type is assignable from ObjectId; it is the ObjectId generator and is cached |
| EntityEncoding.EntityEncoder.EncodeValue | morphia/src/main/java/dev/morphia/mapping/codec/pojo/EntityEncoder.java:106-116 | Nothing if `shouldSerialize` refuses; otherwise the mapped name then an explicit null or the codec's output |
| EntityEncoding.EntityEncoder.EncodeProperty | morphia/src/main/java/dev/morphia/mapping/codec/pojo/EntityEncoder.java:98-104 | Writes the entry of the field's current value |
| EntityEncoding.EntityEncoder.EncodeIdProperty | morphia/src/main/java/dev/morphia/mapping/codec/pojo/EntityEncoder.java:81-96 | A null id of a collectible document with a generator gets the fresh ObjectId, written back onto the instance and encoded; otherwise the existing id is encoded |
| EntityEncoding.EntityEncoder.EncodeProperties | morphia/src/main/java/dev/morphia/mapping/codec/pojo/EntityEncoder.java:68-73 | Writes every non-id field's entries in schema order |
| EntityEncoding.EntityEncoder.EncodeHeader | morphia/src/main/java/dev/morphia/mapping/codec/pojo/EntityEncoder.java:60-66 | Writes the id entry then the discriminator entry |
| EntityEncoding.EntityEncoder.EncodeDocument | morphia/src/main/java/dev/morphia/mapping/codec/pojo/EntityEncoder.java:58-74 | Writes exactly the document of `EntityEntries` and updates the instance with the generated id |
| EntityEncoding.EntityEncoder.EncodeEntityTo | morphia/src/main/java/dev/morphia/mapping/codec/pojo/EntityEncoder.java:56-79 | Equivalent types: the entity document. Otherwise the runtime class's codec writes alone and the instance is untouched; a registry failure writes nothing |
| EntityEncoding.EntityEncoder.EncodeWithLifecycle | morphia/src/main/java/dev/morphia/mapping/codec/pojo/EntityEncoder.java:118-128 | Steps run PrePersist, encode, PostPersist, write. With equivalent types the real writer receives the Document codec's output for the entity document; otherwise it receives the Document codec's output for the registry codec's encoding and the instance is untouched, and a registry failure is returned with nothing written |
| EntityEncoding.EntityEncoder.Encode | morphia/src/main/java/dev/morphia/mapping/codec/pojo/EntityEncoder.java:32-42 | The lifecycle path (non-empty trace) is taken iff PrePersist/PostPersist hooks or interceptors exist. With equivalent types the writer receives the entity document, directly or through the Document codec on the lifecycle path. Otherwise the registry codec's encoding is written (through the Document codec on the lifecycle path) with the instance untouched, or the registry failure is returned with nothing written |
| EntityDecoding.DecodeEntriesConcat | core/src/main/java/dev/morphia/mapping/codec/pojo/EntityDecoder.java:81-90 | Decoding entries a then b is decoding a, stopping at its failure, then b from a's result |
| EntityDecoding.UnknownKeysIgnored | core/src/main/java/dev/morphia/mapping/codec/pojo/EntityDecoder.java:74-75 | Entries matching no field and not the discriminator change nothing |
| EntityDecoding.ProbeFirstMatch | core/src/main/java/dev/morphia/mapping/codec/pojo/EntityDecoder.java:102-107 | The probe stops at the first entry named by the key, skipping the earlier ones, and resolves its value |
| EntityDecoding.ProbeNoKey | core/src/main/java/dev/morphia/mapping/codec/pojo/EntityDecoder.java:102-116 | With no entry named by the key the probe finds no codec, so the default one is used |
| EntityDecoding.PutKeys | core/src/main/java/dev/morphia/mapping/codec/pojo/EntityDecoder.java:124 | Putting a key into the decoded Document keeps keys unique, replaces a present key in place and appends a new one |
| EntityDecoding.ToDocumentSpec | core/src/main/java/dev/morphia/mapping/codec/pojo/EntityDecoder.java:124 | The decoded Document has unique keys, the same key set as the input, and is the input when its keys are already unique |
| EntityDecoding.LifecycleTrace | core/src/main/java/dev/morphia/mapping/codec/pojo/EntityDecoder.java:142-146 | On the lifecycle path PreLoad runs before property decoding and, on success, PostLoad after it, on the same entity; with no hooks or interceptors nothing runs |
| EntityDecoding.NoDiscriminatorDecodesDirectly | core/src/main/java/dev/morphia/mapping/codec/pojo/EntityDecoder.java:41-48 | Without a discriminator, checked and unchecked decodes agree |
| EntityDecoding.EntityDecoder.constructor | core/src/main/java/dev/morphia/mapping/codec/pojo/EntityDecoder.java:33-53 | Stores the codec's entity model |
| EntityDecoding.EntityDecoder.DecodeModel | core/src/main/java/dev/morphia/mapping/codec/pojo/EntityDecoder.java:56-77 | Outcome and new field values equal `DecodeField`: an explicit null sets null, a refused codec falls back to reset and converted generic decoding, no field skips the value |
| EntityDecoding.EntityDecoder.DecodeEntryAt | core/src/main/java/dev/morphia/mapping/codec/pojo/EntityDecoder.java:83-88 | Consumes the entry's name and value; the discriminator entry sets nothing |
| EntityDecoding.EntityDecoder.DecodeProps | core/src/main/java/dev/morphia/mapping/codec/pojo/EntityDecoder.java:79-91 | Consumes every entry once up to the end of the document and yields `DecodeEntries` |
| EntityDecoding.EntityDecoder.GetCodecFromDocument | core/src/main/java/dev/morphia/mapping/codec/pojo/EntityDecoder.java:94-117 | Yields `CodecFromDocument` (default codec, the first match's codec, or the wrapped error naming the entity) and always restores the reader |
| EntityDecoding.EntityDecoder.DecodeWithLifecycle | core/src/main/java/dev/morphia/mapping/codec/pojo/EntityDecoder.java:123-148 | Yields `LifecycleRun`: a discriminator selects the resolved model, a non-entity class fails, hooks are the declared model's |
| EntityDecoding.EntityDecoder.Decode | core/src/main/java/dev/morphia/mapping/codec/pojo/EntityDecoder.java:33-53 | Yields `DecodeRun`: lifecycle iff PreLoad/PostLoad hooks or interceptors; checked decodes directly, unchecked probes and decodes as checked |
| RoundTrip.FieldRoundTrip | core/src/main/java/dev/morphia/mapping/codec/pojo/EntityDecoder.java:56-77 | A serialized field's entry decodes back to its value |
| RoundTrip.PropertiesRoundTrip | core/src/main/java/dev/morphia/mapping/codec/pojo/EntityDecoder.java:79-91 | The property entries of any schema prefix decode to exactly the serialized fields' values |
| RoundTrip.HeaderRoundTrip | core/src/main/java/dev/morphia/mapping/codec/pojo/EntityDecoder.java:84-85 | The id and discriminator entries decode to the id's value alone |
| RoundTrip.EntityRoundTrip | morphia/src/main/java/dev/morphia/mapping/codec/pojo/EntityEncoder.java:56-79 | Decoding the encoded entity succeeds and recovers each serialized field's value and nothing else |
| RoundTrip.ProbeOnEncoded | core/src/main/java/dev/morphia/mapping/codec/pojo/EntityDecoder.java:97-116 | The probe on an encoded entity resolves the discriminator the encoder wrote |
| RoundTrip.EncodeThenDecode | core/src/main/java/dev/morphia/mapping/codec/pojo/EntityDecoder.java:33-53 | Without load hooks, decoding an encoded entity yields an instance of its class with the serialized fields recovered |
| RoundTrip.SubtypeDecodes | core/src/main/java/dev/morphia/mapping/codec/pojo/EntityDecoder.java:41-48 | A decoder of another model with the same discriminator key decodes a subtype's document as the subtype |
| ExpressionHelper.Present | core/src/main/java/dev/morphia/mapping/codec/expressions/ExpressionCodecHelper.java:33-36 | The non-null elements are no more than the list |
| ExpressionHelper.PresentCounts | core/src/main/java/dev/morphia/mapping/codec/expressions/ExpressionCodecHelper.java:33-36 | Each expression occurs among the present ones exactly as often as it occurs non-null in the list, and nothing else occurs |
| ExpressionHelper.PresentConcat | core/src/main/java/dev/morphia/mapping/codec/expressions/ExpressionCodecHelper.java:33-36 | The present elements of a concatenation are those of the first part followed by those of the second, so list order is kept |
| ExpressionHelper.EncodedIsValue | core/src/main/java/dev/morphia/mapping/codec/expressions/ExpressionCodecHelper.java:58-68 | A single-valued expression is written bare, any other inside one document; either way one value |
| ExpressionHelper.DropsNulls | core/src/main/java/dev/morphia/mapping/codec/expressions/ExpressionCodecHelper.java:30-39 | The expression array writes the non-null expressions in list order and drops the nulls |
| ExpressionHelper.PresentSpec | core/src/main/java/dev/morphia/mapping/codec/expressions/ExpressionCodecHelper.java:33-36 | An expression is kept iff it occurs non-null in the list |
| ExpressionHelper.EncodedAllShape | core/src/main/java/dev/morphia/mapping/codec/expressions/ExpressionCodecHelper.java:30-39 | The written expressions form a closed sequence of exactly one value each |
| ExpressionHelper.ExpressionArrayShape | core/src/main/java/dev/morphia/mapping/codec/expressions/ExpressionCodecHelper.java:30-39 | A null list writes nothing; otherwise a named array of one value per non-null element |
| ExpressionHelper.ListElementsShape | core/src/main/java/dev/morphia/mapping/codec/expressions/ExpressionCodecHelper.java:124-136 | A generic list writes one value per element, nulls as explicit nulls |
| ExpressionHelper.OptionalScalarEntry | core/src/main/java/dev/morphia/mapping/codec/expressions/ExpressionCodecHelper.java:84-112 | An absent value is nothing; a present one is exactly one named entry |
| ExpressionHelper.ArrayNamed | core/src/main/java/dev/morphia/mapping/codec/expressions/ExpressionCodecHelper.java:18-22 | The name, start-array, the body, end-array |
| ExpressionHelper.Array | core/src/main/java/dev/morphia/mapping/codec/expressions/ExpressionCodecHelper.java:24-28 | Start-array, the body, end-array |
| ExpressionHelper.DocumentNamed | core/src/main/java/dev/morphia/mapping/codec/expressions/ExpressionCodecHelper.java:41-45 | The name, start-document, the body, end-document |
| ExpressionHelper.Document | core/src/main/java/dev/morphia/mapping/codec/expressions/ExpressionCodecHelper.java:47-51 | Start-document, the body, end-document |
| ExpressionHelper.EncodeIfNotNull | core/src/main/java/dev/morphia/mapping/codec/expressions/ExpressionCodecHelper.java:55-71 | Returns true iff the expression is present; null writes nothing, otherwise its bare or wrapped encoding |
| ExpressionHelper.EncodeNamedIfNotNull | core/src/main/java/dev/morphia/mapping/codec/expressions/ExpressionCodecHelper.java:74-82 | The name is written only with a present expression, followed by its encoding |
| ExpressionHelper.ExpressionArray | core/src/main/java/dev/morphia/mapping/codec/expressions/ExpressionCodecHelper.java:30-39 | Writes `ExpressionArrayEvents`: nothing for a null list, else the named array of the present expressions |
| ExpressionHelper.ValueBoolean | core/src/main/java/dev/morphia/mapping/codec/expressions/ExpressionCodecHelper.java:84-88 | Nothing for null, else one named Boolean |
| ExpressionHelper.ValueDouble | core/src/main/java/dev/morphia/mapping/codec/expressions/ExpressionCodecHelper.java:90-94 | Nothing for null, else one named double |
| ExpressionHelper.ValueInt32 | core/src/main/java/dev/morphia/mapping/codec/expressions/ExpressionCodecHelper.java:96-100 | Nothing for null, else one named 32-bit integer |
| ExpressionHelper.ValueInt64 | core/src/main/java/dev/morphia/mapping/codec/expressions/ExpressionCodecHelper.java:102-106 | Nothing for null, else one named 64-bit integer |
| ExpressionHelper.ValueString | core/src/main/java/dev/morphia/mapping/codec/expressions/ExpressionCodecHelper.java:108-112 | Nothing for null, else one named string |
| ExpressionHelper.ValueEnum | core/src/main/java/dev/morphia/mapping/codec/expressions/ExpressionCodecHelper.java:114-118 | Nothing for null, else the constant's name lower-cased, as one named string |
| ExpressionHelper.ValueList | core/src/main/java/dev/morphia/mapping/codec/expressions/ExpressionCodecHelper.java:124-135 | A list value is the name, then an array of its elements in order, each null element as an explicit null |
| ExpressionHelper.ValueObject | core/src/main/java/dev/morphia/mapping/codec/expressions/ExpressionCodecHelper.java:121-142 | Nothing for null; a list as a named array with explicit nulls; anything else as the name and its codec output |
| Text.LowerChar | core/src/main/java/dev/morphia/mapping/codec/expressions/ExpressionCodecHelper.java:116 | Lower-cases an ASCII capital and keeps every other character |
| Text.Lower | core/src/main/java/dev/morphia/mapping/codec/expressions/ExpressionCodecHelper.java:116 | Same length, each character lower-cased |
| Text.LowerSpec | core/src/main/java/dev/morphia/mapping/codec/expressions/ExpressionCodecHelper.java:116 | The result has no capitals, lower-casing is idempotent, and lower-case input is unchanged |
| Stages.StageShape | core/src/main/java/dev/morphia/aggregation/codecs/stages/StageCodec.java:28-34 | With a one-value payload a stage is one document whose only key is the stage name |
| Stages.StageNameFirst | core/src/main/java/dev/morphia/aggregation/codecs/stages/StageCodec.java:30-33 | Start-document, the name once, every payload event, end-document |
| Stages.FilterEventsConcat | core/src/main/java/dev/morphia/aggregation/codecs/stages/MatchCodec.java:27-29 | Writing two filter lists in turn is writing their concatenation |
| Stages.FilterOrder | core/src/main/java/dev/morphia/aggregation/codecs/stages/MatchCodec.java:27-29 | Each filter is written once, after the filters before it and before those after it |
| Stages.FilterEventsClosed | core/src/main/java/dev/morphia/aggregation/codecs/stages/MatchCodec.java:27-29 | Closed filters give a closed body |
| Stages.MatchShape | core/src/main/java/dev/morphia/aggregation/codecs/stages/MatchCodec.java:25-31 | The `$match` payload is exactly one document, empty for no filters, so the stage is `{ $match: {...} }` |
| Stages.Encode | core/src/main/java/dev/morphia/aggregation/codecs/stages/StageCodec.java:28-34 | Writes the stage document around the stage's own payload |
| Stages.EncodeStage | core/src/main/java/dev/morphia/aggregation/codecs/stages/MatchCodec.java:25-31 | Writes the stage's payload: `$match` by its codec, any other stage by its own |
| Stages.EncodeMatch | core/src/main/java/dev/morphia/aggregation/codecs/stages/MatchCodec.java:25-31 | Writes one document holding the filters in list order |
| Stages.Decode | core/src/main/java/dev/morphia/aggregation/codecs/stages/StageCodec.java:23-26 | Always fails with the unsupported-operation error, whatever the input |
| ExpressionNodes.AddField | core/src/main/java/dev/morphia/aggregation/expressions/impls/Push.java:28-38 | Refused iff a single source is set; otherwise the document, created if absent, gains the one field at its end |
| ExpressionNodes.SetSingle | core/src/main/java/dev/morphia/aggregation/expressions/impls/Push.java:40-46 | Refused iff a document exists; otherwise the source replaces the previous one |
| ExpressionNodes.AlwaysExclusive | core/src/main/java/dev/morphia/aggregation/expressions/impls/Push.java:28-46 | Across any sequence of calls, field and document are never both set |
| ExpressionNodes.ModesConflict | core/src/main/java/dev/morphia/aggregation/expressions/impls/Push.java:28-43 | After a single source, `field` fails; after a field, `single` fails; both with the mixed-modes error |
| ExpressionNodes.LastSingleWins | core/src/main/java/dev/morphia/aggregation/expressions/impls/Push.java:40-45 | Repeated `single` calls: the last wins; a null source leaves field mode open |
| ExpressionNodes.FieldsAccumulate | core/src/main/java/dev/morphia/aggregation/expressions/impls/Push.java:32-35 | Any number of field calls on a Push without a single source succeed; the document, created if absent, gains the entries at its end in call order |
| ExpressionNodes.Push.constructor | core/src/main/java/dev/morphia/aggregation/expressions/impls/Push.java:10-15 | Operation `$push`, neither mode set |
| ExpressionNodes.Push.Field | core/src/main/java/dev/morphia/aggregation/expressions/impls/Push.java:18-20 | Returns the single source |
| ExpressionNodes.Push.Document | core/src/main/java/dev/morphia/aggregation/expressions/impls/Push.java:23-25 | Returns the document |
| ExpressionNodes.Push.FieldNamed | core/src/main/java/dev/morphia/aggregation/expressions/impls/Push.java:28-38 | State becomes `AddField` of the old state, or stays and the error is returned; exclusivity kept |
| ExpressionNodes.Push.Single | core/src/main/java/dev/morphia/aggregation/expressions/impls/Push.java:40-46 | State becomes `SetSingle` of the old state, or stays and the error is returned; exclusivity kept |
| ExpressionNodes.ZipExpression.constructor | core/src/main/java/dev/morphia/aggregation/expressions/impls/ZipExpression.java:17-20 | Operation `$zip`, the inputs as given, neither option set |
| ExpressionNodes.ZipExpression.Defaults | core/src/main/java/dev/morphia/aggregation/expressions/impls/ZipExpression.java:33-36 | Sets only the defaults and returns this |
| ExpressionNodes.ZipExpression.UseLongestLength | core/src/main/java/dev/morphia/aggregation/expressions/impls/ZipExpression.java:57-60 | Sets only useLongestLength, as a value expression wrapping the flag, and returns this |
| ExpressionNodes.ZipExpression.Inputs | core/src/main/java/dev/morphia/aggregation/expressions/impls/ZipExpression.java:38-40 | The constructor's list, order unchanged |
| ExpressionNodes.ZipExpression.GetUseLongestLength | core/src/main/java/dev/morphia/aggregation/expressions/impls/ZipExpression.java:42-44 | Returns useLongestLength |
| ExpressionNodes.ZipExpression.GetDefaults | core/src/main/java/dev/morphia/aggregation/expressions/impls/ZipExpression.java:46-48 | Returns defaults |
| ExpressionNodes.ZipDefaultsOnly | core/src/main/java/dev/morphia/aggregation/expressions/impls/ZipExpression.java:23-36 | Defaults without useLongestLength are accepted, inputs unchanged |
| ExpressionNodes.CalculusExpression.constructor | core/src/main/java/dev/morphia/aggregation/expressions/impls/CalculusExpression.java:20-23 | Stores operation and input, unit unset |
| ExpressionNodes.CalculusExpression.Input | core/src/main/java/dev/morphia/aggregation/expressions/impls/CalculusExpression.java:25-27 | Always the constructor's input |
| ExpressionNodes.CalculusExpression.Unit | core/src/main/java/dev/morphia/aggregation/expressions/impls/CalculusExpression.java:29-31 | The unit currently set |
| ExpressionNodes.CalculusExpression.SetUnit | core/src/main/java/dev/morphia/aggregation/expressions/impls/CalculusExpression.java:39-42 | Sets the unit and returns this |
| ExpressionNodes.LastUnitWins | core/src/main/java/dev/morphia/aggregation/expressions/impls/CalculusExpression.java:29-42 | A worked example: after two units are set, the unit read back is the second |
| Schema.GetField | core/src/main/java/dev/morphia/mapping/codec/pojo/EntityDecoder.java:87 | The field found has the requested mapped name and is in the schema; none is found only when no field has that name |
| Schema.Entity.Set | core/src/main/java/dev/morphia/mapping/codec/pojo/EntityDecoder.java:68-72 | Sets one field's value, all others unchanged |
| Bson.Writer.Emit | core/src/main/java/dev/morphia/mapping/codec/expressions/ExpressionCodecHelper.java:62 | Appends a codec's events after those already written |
| Bson.Reader.GetMark | core/src/main/java/dev/morphia/mapping/codec/pojo/EntityDecoder.java:99 | The mark saves the reader's whole cursor state |
| Bson.Reader.Reset | core/src/main/java/dev/morphia/mapping/codec/pojo/EntityDecoder.java:113 | Restores exactly the marked state |
| Bson.Reader.ReadBsonType | core/src/main/java/dev/morphia/mapping/codec/pojo/EntityDecoder.java:82 | End-of-document at the end, otherwise the type of the next value |
| Bson.Reader.ReadString | core/src/main/java/dev/morphia/mapping/codec/pojo/EntityDecoder.java:104 | A string value is read and consumed; any other value is refused with the reader left in place |
| Bson.Reader.SkipValue | core/src/main/java/dev/morphia/mapping/codec/pojo/EntityDecoder.java:106 | Consumes the current value |
| Bson.Reader.DecodeValue | core/src/main/java/dev/morphia/mapping/codec/pojo/EntityDecoder.java:66 | The value's decoding by the given codec; on success the value is consumed |
| Bson.Reader.ReadAll | core/src/main/java/dev/morphia/mapping/codec/pojo/EntityDecoder.java:124 | Reads the whole document: its entries in order, the reader then at its end |

The remaining lemmas in `Bson`, and the smaller lemmas in `EntityEncoding` and `RoundTrip`, are helpers for the proofs above. Examples are `DepthConcat`, `FlattenShape`, `AppendTwice`, `PropertyEntriesStep`, `ElementEventsStep`, `PropertiesStep` and `UnionAssoc`. `MatchCodec.getEncoderClass` is the constant `Stages.MATCH_CLASS`.

## Left out

- Regular expressions: `Pattern.compile`, `Pattern.quote` and the case-insensitive flag are not modelled. A pattern is the record of its literal text, its anchors and its case flag.
- The internals of `FieldCriteria`, `Geo2dCriteria` and `Geo2dSphereCriteria`, and the query they render to, are not part of this model. Criteria are plain records of the builder's arguments.
- Geometry, coordinate reference systems, shapes and sub-queries are opaque tokens. Coordinates and distances are kept as opaque numbers (`Double` is `int`), so no floating-point arithmetic is modelled.
- Criteria.FieldEnd.NearPoint, NearPointBounded, NearSphere, NearSphereBounded, WithinBoundary, WithinBoundaryCrs: these require the geometry kind the Java overload's parameter type fixes. A null geometry argument is not modelled.
- Criteria.FieldEnd.Type: a null `Type` argument fails in the source with a null pointer, which is not modelled. The argument is the type's numeric code.
- The message texts of the `Sofia` localisation bundle are not part of this model. `Errors.ENCODING_ONLY` and `Errors.MixedModesNotAllowed` are placeholder texts (`Errors.GEO_NOT_NEGATABLE` is the source's own literal); only which error is raised is modelled.
- The `Assert` class is not part of this model. A refused argument is the error `AssertionFailed(parameterName)`.
- The `Mapper`, the codec registry, discriminator lookup, `Conversions.convert`, `shouldSerialize`, field codecs, the object codec and ObjectId generation are foreign. They are uninterpreted function parameters (`Schema.Codecs`); the fresh ObjectId is the parameter `newId`.
- Lifecycle hook and interceptor bodies are dispatched reflectively. Only the order in which they are invoked is recorded, as a trace of `Step`s.
- The instance creator: instances are a class and a map from field name to value.
- The `Document` codec: on the encode side it is a function parameter. On the decode side only its key handling (one entry per key, the last value written wins) is modelled.
- `DocumentReader` and `DocumentWriter`: the lifecycle paths read and write the same entry and event sequences as the direct paths.
- BSON wire encoding: writer and reader are abstract event and entry sequences.
- RoundTrip.EncodeThenDecode: the round trip is proved only for models without PreLoad or PostLoad hooks or interceptors. The lifecycle decode path (through the `Document` codec and `getString`) is not proved to invert the encoder.
- Text.Lower: only ASCII capitals are lower-cased. `Locale.ROOT` lower-casing of other Unicode letters is not modelled.
- `DocumentExpression` internals: `Push`'s document is the sequence of its (name, expression) fields in call order.
- `TimeUnit` is an opaque name.
- Stages other than `$match`: their `encodeStage` payload is a function parameter.
- The test fixtures and the rewrite recipe test: they need a live server or a foreign library.
