/**
 * The read-only mapping metadata the encoder and decoder consume: classes,
 * field models, entity models and codecs, plus the entity instance that
 * encoding reads (and may write its generated id back to) and decoding fills.
 *
 * Codecs, the codec registry, the discriminator lookup, value conversion and
 * the should-serialize policy are code this model does not see: they are the
 * function-valued fields of `Codecs`, about which nothing is assumed.
 */
module Schema {
  import opened Wrappers
  import opened Errors
  import opened Bson

  /** A Java class: its name and the names of all its supertypes and interfaces. */
  datatype ClassRef = ClassRef(name: string, supertypes: set<string>)

  const COLLECTION := "java.util.Collection"
  const MAP := "java.util.Map"
  const OBJECT_ID := "org.bson.types.ObjectId"

  const ObjectIdClass := ClassRef(OBJECT_ID, {"java.lang.Object", "java.io.Serializable", "java.lang.Comparable"})

  /** `c` is the class named `name` or a subtype of it. */
  predicate Extends(c: ClassRef, name: string) {
    c.name == name || name in c.supertypes
  }

  /** Java's `a.isAssignableFrom(b)`. */
  predicate IsAssignableFrom(a: ClassRef, b: ClassRef) {
    Extends(b, a.name)
  }

  /** A Java value held by an entity field. */
  datatype Value =
    | Null
    | ObjectId(id: nat)
    | Str(s: string)
    | List(items: seq<Value>)
    | Object(cls: string, token: nat)

  /** Identifies a field's cached codec. */
  type CodecId = nat

  /** `name` is the Java field name (the accessor's key); `mappedName` the document key. */
  datatype FieldModel = FieldModel(name: string, mappedName: string, fieldType: ClassRef,
                                   normalizedType: ClassRef, codec: CodecId)

  datatype Lifecycle = PrePersist | PostPersist | PreLoad | PostLoad

  /**
   * One step of a lifecycle path, in the order it happens: the hooks of kind
   * `kind` of entity `entity` (and the interceptors) are called, or the
   * entity body is encoded or decoded, or the intermediate document is written.
   */
  datatype Step = Hooks(kind: Lifecycle, entity: string) | EncodeEntity | DecodeProperties(entity: string) | WriteDocument

  datatype EntityModel = EntityModel(
    name: string,
    entityType: ClassRef,
    fields: seq<FieldModel>,
    idModel: Option<FieldModel>,
    useDiscriminator: bool,
    discriminatorKey: string,
    discriminator: string,
    lifecycle: set<Lifecycle>)

  /** EntityModel.getField: the field stored under a document key. */
  function GetField(fields: seq<FieldModel>, mappedName: string): (r: Option<FieldModel>)
    ensures r.Some? ==> r.value in fields && r.value.mappedName == mappedName
    ensures r.None? ==> forall f :: f in fields ==> f.mappedName != mappedName
    decreases |fields|
  {
    if fields == [] then None
    else if fields[0].mappedName == mappedName then Some(fields[0])
    else GetField(fields[1..], mappedName)
  }

  /** What the codec registry hands out: an entity codec (MorphiaCodec) or some other codec. */
  datatype Codec = EntityCodec(model: EntityModel) | OtherCodec(id: nat)

  datatype Codecs = Codecs(
    // a field's cached codec writing a non-null value
    encode: (CodecId, Value) -> seq<Event>,
    // a field's cached codec reading a value
    decode: (CodecId, seq<Event>) -> Result<Value, Error>,
    // the registry's codec for Object, reading any value
    genericDecode: seq<Event> -> Result<Value, Error>,
    // Conversions.convert
    convert: (Value, ClassRef) -> Value,
    // FieldModel.shouldSerialize
    shouldSerialize: (FieldModel, Value) -> bool,
    // CodecRegistry.get
    registry: ClassRef -> Result<Codec, Error>,
    // DiscriminatorLookup.lookup
    lookup: string -> Result<ClassRef, Error>,
    // another codec encoding a whole instance
    encodeWith: (Codec, ClassRef, map<string, Value>) -> seq<Event>,
    // a non-entity codec decoding a whole document
    decodeWith: (Codec, seq<Entry>) -> Result<Value, Error>,
    // the Document codec writing an intermediate document
    encodeDocument: seq<Event> -> seq<Event>)

  /** The value of field `name`; a field never set reads as null. */
  function Get(values: map<string, Value>, name: string): Value {
    if name in values then values[name] else Null
  }

  /** An entity instance: its runtime class and its field values by Java field name. */
  class Entity {
    const cls: ClassRef
    var values: map<string, Value>

    /** A fresh instance, as the model's instance creator makes it. */
    constructor (cls: ClassRef)
      ensures this.cls == cls && values == map[]
    {
      this.cls := cls;
      values := map[];
    }

    /** The field accessor's `set`. */
    method Set(name: string, v: Value)
      modifies this
      ensures values == old(values)[name := v]
    {
      values := values[name := v];
    }
  }
}
