/**
 * The query criteria builder: a field-end names one document field of a
 * query, carries a negation flag, and turns each builder call into one
 * criterion appended to its container.
 *
 * What each call produces is stated once, by the pure `CriterionFor`, over
 * the distinct bodies of the builder (`Call`); every builder method of
 * `FieldEnd` is proved to append exactly that criterion, or to fail with
 * exactly that error and append nothing.
 */
module Criteria {
  import opened Wrappers
  import opened Errors
  import opened Bson
  import opened Schema

  datatype FilterOperator =
    | EQUAL | NOT_EQUAL | EXISTS
    | GREATER_THAN | GREATER_THAN_OR_EQUAL | LESS_THAN | LESS_THAN_OR_EQUAL
    | ALL | IN | NOT_IN | ELEMENT_MATCH | SIZE | TYPE | MOD
    | GEO_WITHIN | INTERSECTS | NEAR | NEAR_SPHERE

  /**
   * A compiled regular expression matching `literal` verbatim (it is quoted),
   * optionally anchored at the start (`^`) and at the end (`$`), optionally
   * case-insensitive. Matching itself is not modelled.
   */
  datatype Pattern = Pattern(literal: string, anchoredStart: bool, anchoredEnd: bool, caseInsensitive: bool)

  datatype GeometryKind = Point | Polygon | MultiPolygon | OtherGeometry

  /** A GeoJSON geometry, kept opaque apart from its kind. */
  datatype Geometry = Geometry(kind: GeometryKind, token: nat)

  /** Opaque references: a coordinate reference system, a legacy shape, a sub-query. */
  type Crs = nat
  type Shape = nat
  type QueryRef = nat

  /** The value a criterion compares its field against. */
  datatype CriterionValue =
    | Plain(v: Value)
    | Flag(b: bool)
    | Items(items: seq<Value>)
    | Regex(pattern: Pattern)
    | Pair(divisor: int64, remainder: int64)
    | Size(n: int32)
    | TypeCode(code: int32)
    | SubQuery(query: QueryRef)
    | ShapeValue(shape: Shape)
    | Coordinates(longitude: Double, latitude: Double)

  /** The three kinds of criterion a field-end creates. Only FieldCriteria carries negation. */
  datatype Criterion =
    | FieldCriteria(field: string, op: FilterOperator, value: CriterionValue, not: bool,
                    mappedClass: string, validating: bool)
    | Geo2dCriteria(field: string, op: FilterOperator, value: CriterionValue,
                    opts: Option<map<string, Double>>, mappedClass: string, validating: bool)
    | Geo2dSphereCriteria(field: string, op: FilterOperator, geometry: Geometry,
                          mappedClass: string, validating: bool, crs: Option<Crs>,
                          maxDistance: Option<Double>, minDistance: Option<Double>)

  /** What a field-end was created for: the field, the mapped class, whether names are validated. */
  datatype Site = Site(field: string, mappedClass: string, validating: bool)

  /**
   * The distinct bodies of the builder methods; an absent (null) argument of
   * reference type is `None` (or `Null` for an arbitrary object).
   */
  datatype Call =
    // equal, hasThisOne, notEqual: any value, null included
    | Compare(op: FilterOperator, val: Value)
    // greaterThan, greaterThanOrEq, lessThan, lessThanOrEq: the value must not be null
    | Bound(op: FilterOperator, val: Value)
    // exists, doesNotExist
    | Existence(present: bool)
    // contains, startsWith, endsWith and their ignore-case forms
    | Matching(text: Option<string>, anchoredStart: bool, anchoredEnd: bool, caseInsensitive: bool)
    // equalIgnoreCase: `shown` is the value's string form
    | EqualsIgnoreCase(val: Value, shown: string)
    // hasAllOf, hasAnyOf, hasNoneOf
    | Membership(op: FilterOperator, values: Option<seq<Value>>)
    | ElementMatch(query: Option<QueryRef>)
    | Modulo(divisor: int64, remainder: int64)
    | SizeIs(n: int32)
    | TypeIs(code: int32)
    // within(Shape)
    | WithinShape(shape: Option<Shape>)
    // near(longitude, latitude, [radius], [spherical])
    | Near2d(longitude: Double, latitude: Double, radius: Option<Double>, spherical: bool)
    // intersects, near(Point), nearSphere, within(Polygon | MultiPolygon)
    | Sphere(op: FilterOperator, geometry: Geometry, crs: Option<Crs>,
             maxDistance: Option<Double>, minDistance: Option<Double>)

  /** The criterion one call creates on a field-end whose negation flag is `not`, or the error it throws. */
  function CriterionFor(s: Site, not: bool, c: Call): (r: Result<Criterion, Error>)
    ensures r.Success? && r.value.FieldCriteria? ==> r.value.not == not
    ensures r.Success? ==> r.value.field == s.field && r.value.mappedClass == s.mappedClass
                           && r.value.validating == s.validating
  {
    var plain := (op, v) => FieldCriteria(s.field, op, v, not, s.mappedClass, s.validating);
    match c
    case Compare(op, val) => Success(plain(op, Plain(val)))
    case Bound(op, val) =>
      if val == Null then Failure(AssertionFailed("val")) else Success(plain(op, Plain(val)))
    case Existence(present) => Success(plain(EXISTS, Flag(present)))
    case Matching(text, start, end, ci) =>
      if text.None? then Failure(AssertionFailed("val"))
      else Success(plain(EQUAL, Regex(Pattern(text.value, start, end, ci))))
    case EqualsIgnoreCase(val, shown) =>
      if val == Null then Failure(AssertionFailed("val"))
      else Success(plain(EQUAL, Regex(Pattern(shown, true, true, true))))
    case Membership(op, values) =>
      if values.None? || values.value == [] then Failure(AssertionFailed("values"))
      else Success(plain(op, Items(values.value)))
    case ElementMatch(query) =>
      if query.None? then Failure(AssertionFailed("query"))
      else Success(plain(ELEMENT_MATCH, SubQuery(query.value)))
    case Modulo(d, rem) => Success(plain(MOD, Pair(d, rem)))
    case SizeIs(n) => Success(plain(SIZE, Size(n)))
    case TypeIs(code) => Success(plain(TYPE, TypeCode(code)))
    case WithinShape(shape) =>
      if shape.None? then Failure(AssertionFailed("shape"))
      else Success(plain(GEO_WITHIN, ShapeValue(shape.value)))
    case Near2d(lon, lat, radius, spherical) =>
      if not then Failure(QueryError(GEO_NOT_NEGATABLE))
      else
        var opts := if radius.None? then None else Some(map["$maxDistance" := radius.value]);
        Success(Geo2dCriteria(s.field, if spherical then NEAR_SPHERE else NEAR,
                              Coordinates(lon, lat), opts, s.mappedClass, s.validating))
    case Sphere(op, g, crs, maxD, minD) =>
      Success(Geo2dSphereCriteria(s.field, op, g, s.mappedClass, s.validating, crs, maxD, minD))
  }

  /** An independent account of which calls are refused: the argument checks and the negated legacy geo query. */
  predicate Refused(not: bool, c: Call) {
    (c.Bound? && c.val == Null)
    || (c.Matching? && c.text.None?)
    || (c.EqualsIgnoreCase? && c.val == Null)
    || (c.Membership? && (c.values == None || c.values == Some([])))
    || (c.ElementMatch? && c.query.None?)
    || (c.WithinShape? && c.shape.None?)
    || (c.Near2d? && not)
  }

  /**
   * A call fails exactly when it is refused; a refused argument is reported by
   * its parameter name, a negated legacy geo query by the query error.
   */
  lemma FailsIffRefused(s: Site, not: bool, c: Call)
    ensures CriterionFor(s, not, c).Failure? <==> Refused(not, c)
    ensures CriterionFor(s, not, c).Failure? ==>
      CriterionFor(s, not, c).error ==
        (if c.Near2d? then QueryError(GEO_NOT_NEGATABLE)
         else if c.Membership? then AssertionFailed("values")
         else if c.ElementMatch? then AssertionFailed("query")
         else if c.WithinShape? then AssertionFailed("shape")
         else AssertionFailed("val"))
  {
  }

  /** The geo-sphere calls never consult the negation flag and never fail. */
  lemma SphereIgnoresNegation(s: Site, c: Call)
    requires c.Sphere?
    ensures CriterionFor(s, true, c) == CriterionFor(s, false, c)
    ensures CriterionFor(s, true, c).Success? && CriterionFor(s, true, c).value.Geo2dSphereCriteria?
    ensures CriterionFor(s, true, c).value.op == c.op && CriterionFor(s, true, c).value.geometry == c.geometry
  {
  }

  /** A legacy near query uses NEAR_SPHERE exactly when spherical, and `$maxDistance` exactly when a radius is given. */
  lemma Near2dOperator(s: Site, c: Call)
    requires c.Near2d?
    ensures CriterionFor(s, false, c).Success?
    ensures CriterionFor(s, false, c).value.Geo2dCriteria?
    ensures CriterionFor(s, false, c).value.op == NEAR_SPHERE <==> c.spherical
    ensures CriterionFor(s, false, c).value.op == NEAR <==> !c.spherical
    ensures CriterionFor(s, false, c).value.opts.Some? <==> c.radius.Some?
    ensures c.radius.Some? ==>
      CriterionFor(s, false, c).value.opts.value == map["$maxDistance" := c.radius.value]
  {
  }

  /** Every call other than a geo query creates a field criterion carrying the flag as it was at the call. */
  lemma NegationCarried(s: Site, not: bool, c: Call)
    requires !c.Near2d? && !c.Sphere? && !Refused(not, c)
    ensures CriterionFor(s, not, c).Success?
    ensures CriterionFor(s, not, c).value.FieldCriteria?
    ensures CriterionFor(s, not, c).value.not == not
  {
  }

  /** The criteria a query collects. */
  class CriteriaContainer {
    var criteria: seq<Criterion>

    constructor ()
      ensures criteria == []
    {
      criteria := [];
    }

    method Add(c: Criterion)
      modifies this
      ensures criteria == old(criteria) + [c]
    {
      criteria := criteria + [c];
    }
  }

  /** One field of a query under construction. */
  class FieldEnd {
    const field: string
    const target: CriteriaContainer
    const mappedClass: string
    const validating: bool
    var not: bool

    constructor (field: string, target: CriteriaContainer, mappedClass: string, validating: bool)
      ensures this.field == field && this.target == target && this.mappedClass == mappedClass
      ensures this.validating == validating && !not
    {
      this.field := field;
      this.target := target;
      this.mappedClass := mappedClass;
      this.validating := validating;
      not := false;
    }

    function Origin(): (s: Site)
      ensures s.field == field && s.mappedClass == mappedClass && s.validating == validating
    {
      Site(field, mappedClass, validating)
    }

    /**
     * The effect of a builder call whose outcome is `expected`: on success the
     * container gains that one criterion and is returned; on failure the error
     * is returned and the container is as it was.
     */
    ghost predicate Applied(before: seq<Criterion>, r: Result<CriteriaContainer, Error>,
                            expected: Result<Criterion, Error>)
      reads target
    {
      match expected
      case Success(c) => r == Success(target) && target.criteria == before + [c]
      case Failure(e) => r == Failure(e) && target.criteria == before
    }

    /** Flips the negation flag for the criteria created after it. */
    method Not() returns (r: FieldEnd)
      modifies this
      ensures r == this && not == !old(not)
    {
      not := !not;
      r := this;
    }

    /** Appends a field criterion carrying the current negation flag. */
    method AddCriteria(op: FilterOperator, val: CriterionValue) returns (r: CriteriaContainer)
      modifies target
      ensures r == target
      ensures target.criteria == old(target.criteria) + [FieldCriteria(field, op, val, not, mappedClass, validating)]
    {
      r := AddCriteriaWith(op, val, not);
    }

    /** Appends a field criterion with the given negation flag. */
    method AddCriteriaWith(op: FilterOperator, val: CriterionValue, not: bool) returns (r: CriteriaContainer)
      modifies target
      ensures r == target
      ensures target.criteria == old(target.criteria) + [FieldCriteria(field, op, val, not, mappedClass, validating)]
    {
      target.Add(FieldCriteria(field, op, val, not, mappedClass, validating));
      r := target;
    }

    /** Appends a legacy geo criterion, refusing a negated field-end. */
    method AddGeoCriteria(op: FilterOperator, val: CriterionValue, opts: Option<map<string, Double>>)
      returns (r: Result<CriteriaContainer, Error>)
      modifies target
      ensures not ==> r == Failure(QueryError(GEO_NOT_NEGATABLE)) && target.criteria == old(target.criteria)
      ensures !not ==> r == Success(target)
      ensures !not ==>
        target.criteria == old(target.criteria) + [Geo2dCriteria(field, op, val, opts, mappedClass, validating)]
    {
      if not {
        return Failure(QueryError(GEO_NOT_NEGATABLE));
      }
      target.Add(Geo2dCriteria(field, op, val, opts, mappedClass, validating));
      r := Success(target);
    }

    /** Appends a geo-sphere criterion; the negation flag plays no part. */
    method AddSphere(op: FilterOperator, g: Geometry, crs: Option<Crs>,
                     maxDistance: Option<Double>, minDistance: Option<Double>)
      returns (r: Result<CriteriaContainer, Error>)
      modifies target
      ensures Applied(old(target.criteria), r, CriterionFor(Origin(), not, Sphere(op, g, crs, maxDistance, minDistance)))
    {
      target.Add(Geo2dSphereCriteria(field, op, g, mappedClass, validating, crs, maxDistance, minDistance));
      r := Success(target);
    }

    /** Applies a plain comparison (no argument check). */
    method Compare(op: FilterOperator, val: Value) returns (r: Result<CriteriaContainer, Error>)
      modifies target
      ensures Applied(old(target.criteria), r, CriterionFor(Origin(), not, Call.Compare(op, val)))
    {
      var t := AddCriteria(op, Plain(val));
      r := Success(t);
    }

    /** Applies a bound comparison, refusing a null value. */
    method Bound(op: FilterOperator, val: Value) returns (r: Result<CriteriaContainer, Error>)
      modifies target
      ensures Applied(old(target.criteria), r, CriterionFor(Origin(), not, Call.Bound(op, val)))
    {
      if val == Null {
        return Failure(AssertionFailed("val"));
      }
      var t := AddCriteria(op, Plain(val));
      r := Success(t);
    }

    /** Applies a regular-expression match of `text`, refusing a null text. */
    method Matching(text: Option<string>, start: bool, end: bool, ci: bool)
      returns (r: Result<CriteriaContainer, Error>)
      modifies target
      ensures Applied(old(target.criteria), r, CriterionFor(Origin(), not, Call.Matching(text, start, end, ci)))
    {
      if text.None? {
        return Failure(AssertionFailed("val"));
      }
      var t := AddCriteria(EQUAL, Regex(Pattern(text.value, start, end, ci)));
      r := Success(t);
    }

    /** Applies a collection test, refusing a null or empty collection. */
    method Membership(op: FilterOperator, values: Option<seq<Value>>) returns (r: Result<CriteriaContainer, Error>)
      modifies target
      ensures Applied(old(target.criteria), r, CriterionFor(Origin(), not, Call.Membership(op, values)))
    {
      if values.None? {
        return Failure(AssertionFailed("values"));
      }
      if values.value == [] {
        return Failure(AssertionFailed("values"));
      }
      var t := AddCriteria(op, Items(values.value));
      r := Success(t);
    }

    method Contains(s: Option<string>) returns (r: Result<CriteriaContainer, Error>)
      modifies target
      ensures Applied(old(target.criteria), r, CriterionFor(Origin(), not, Call.Matching(s, false, false, false)))
    {
      r := Matching(s, false, false, false);
    }

    method ContainsIgnoreCase(s: Option<string>) returns (r: Result<CriteriaContainer, Error>)
      modifies target
      ensures Applied(old(target.criteria), r, CriterionFor(Origin(), not, Call.Matching(s, false, false, true)))
    {
      r := Matching(s, false, false, true);
    }

    method DoesNotExist() returns (r: Result<CriteriaContainer, Error>)
      modifies target
      ensures Applied(old(target.criteria), r, CriterionFor(Origin(), not, Existence(false)))
    {
      var t := AddCriteria(EXISTS, Flag(false));
      r := Success(t);
    }

    method EndsWith(suffix: Option<string>) returns (r: Result<CriteriaContainer, Error>)
      modifies target
      ensures Applied(old(target.criteria), r, CriterionFor(Origin(), not, Call.Matching(suffix, false, true, false)))
    {
      r := Matching(suffix, false, true, false);
    }

    method EndsWithIgnoreCase(suffix: Option<string>) returns (r: Result<CriteriaContainer, Error>)
      modifies target
      ensures Applied(old(target.criteria), r, CriterionFor(Origin(), not, Call.Matching(suffix, false, true, true)))
    {
      r := Matching(suffix, false, true, true);
    }

    method Equal(val: Value) returns (r: Result<CriteriaContainer, Error>)
      modifies target
      ensures Applied(old(target.criteria), r, CriterionFor(Origin(), not, Call.Compare(EQUAL, val)))
    {
      r := Compare(EQUAL, val);
    }

    /** `toString` is the value's string form (Object.toString). */
    method EqualIgnoreCase(val: Value, toString: Value -> string) returns (r: Result<CriteriaContainer, Error>)
      modifies target
      ensures Applied(old(target.criteria), r, CriterionFor(Origin(), not, EqualsIgnoreCase(val, toString(val))))
    {
      if val == Null {
        return Failure(AssertionFailed("val"));
      }
      var t := AddCriteria(EQUAL, Regex(Pattern(toString(val), true, true, true)));
      r := Success(t);
    }

    method Exists() returns (r: Result<CriteriaContainer, Error>)
      modifies target
      ensures Applied(old(target.criteria), r, CriterionFor(Origin(), not, Existence(true)))
    {
      var t := AddCriteria(EXISTS, Flag(true));
      r := Success(t);
    }

    method GreaterThan(val: Value) returns (r: Result<CriteriaContainer, Error>)
      modifies target
      ensures Applied(old(target.criteria), r, CriterionFor(Origin(), not, Call.Bound(GREATER_THAN, val)))
    {
      r := Bound(GREATER_THAN, val);
    }

    method GreaterThanOrEq(val: Value) returns (r: Result<CriteriaContainer, Error>)
      modifies target
      ensures Applied(old(target.criteria), r, CriterionFor(Origin(), not, Call.Bound(GREATER_THAN_OR_EQUAL, val)))
    {
      r := Bound(GREATER_THAN_OR_EQUAL, val);
    }

    method HasAllOf(values: Option<seq<Value>>) returns (r: Result<CriteriaContainer, Error>)
      modifies target
      ensures Applied(old(target.criteria), r, CriterionFor(Origin(), not, Call.Membership(ALL, values)))
    {
      r := Membership(ALL, values);
    }

    method HasAnyOf(values: Option<seq<Value>>) returns (r: Result<CriteriaContainer, Error>)
      modifies target
      ensures Applied(old(target.criteria), r, CriterionFor(Origin(), not, Call.Membership(IN, values)))
    {
      r := Membership(IN, values);
    }

    method HasNoneOf(values: Option<seq<Value>>) returns (r: Result<CriteriaContainer, Error>)
      modifies target
      ensures Applied(old(target.criteria), r, CriterionFor(Origin(), not, Call.Membership(NOT_IN, values)))
    {
      r := Membership(NOT_IN, values);
    }

    /** Passes the current flag explicitly, to the same effect as the other field criteria. */
    method ElemMatch(query: Option<QueryRef>) returns (r: Result<CriteriaContainer, Error>)
      modifies target
      ensures Applied(old(target.criteria), r, CriterionFor(Origin(), not, ElementMatch(query)))
    {
      if query.None? {
        return Failure(AssertionFailed("query"));
      }
      var t := AddCriteriaWith(ELEMENT_MATCH, SubQuery(query.value), not);
      r := Success(t);
    }

    /** The same criterion as `Equal`. */
    method HasThisOne(val: Value) returns (r: Result<CriteriaContainer, Error>)
      modifies target
      ensures Applied(old(target.criteria), r, CriterionFor(Origin(), not, Call.Compare(EQUAL, val)))
    {
      var t := AddCriteria(EQUAL, Plain(val));
      r := Success(t);
    }

    /** The same criterion as `HasAnyOf`. */
    method In(values: Option<seq<Value>>) returns (r: Result<CriteriaContainer, Error>)
      modifies target
      ensures Applied(old(target.criteria), r, CriterionFor(Origin(), not, Call.Membership(IN, values)))
    {
      r := HasAnyOf(values);
    }

    method Intersects(g: Geometry) returns (r: Result<CriteriaContainer, Error>)
      modifies target
      ensures Applied(old(target.criteria), r, CriterionFor(Origin(), not, Sphere(INTERSECTS, g, None, None, None)))
    {
      r := AddSphere(INTERSECTS, g, None, None, None);
    }

    method IntersectsCrs(g: Geometry, crs: Crs) returns (r: Result<CriteriaContainer, Error>)
      modifies target
      ensures Applied(old(target.criteria), r, CriterionFor(Origin(), not, Sphere(INTERSECTS, g, Some(crs), None, None)))
    {
      r := AddSphere(INTERSECTS, g, Some(crs), None, None);
    }

    method LessThan(val: Value) returns (r: Result<CriteriaContainer, Error>)
      modifies target
      ensures Applied(old(target.criteria), r, CriterionFor(Origin(), not, Call.Bound(LESS_THAN, val)))
    {
      r := Bound(LESS_THAN, val);
    }

    method LessThanOrEq(val: Value) returns (r: Result<CriteriaContainer, Error>)
      modifies target
      ensures Applied(old(target.criteria), r, CriterionFor(Origin(), not, Call.Bound(LESS_THAN_OR_EQUAL, val)))
    {
      r := Bound(LESS_THAN_OR_EQUAL, val);
    }

    method Mod(divisor: int64, remainder: int64) returns (r: Result<CriteriaContainer, Error>)
      modifies target
      ensures Applied(old(target.criteria), r, CriterionFor(Origin(), not, Modulo(divisor, remainder)))
    {
      var t := AddCriteria(MOD, Pair(divisor, remainder));
      r := Success(t);
    }

    /** near(longitude, latitude): not spherical. */
    method Near(longitude: Double, latitude: Double) returns (r: Result<CriteriaContainer, Error>)
      modifies target
      ensures Applied(old(target.criteria), r, CriterionFor(Origin(), not, Near2d(longitude, latitude, None, false)))
    {
      r := NearSpherical(longitude, latitude, false);
    }

    /** near(longitude, latitude, spherical). */
    method NearSpherical(longitude: Double, latitude: Double, spherical: bool)
      returns (r: Result<CriteriaContainer, Error>)
      modifies target
      ensures Applied(old(target.criteria), r, CriterionFor(Origin(), not, Near2d(longitude, latitude, None, spherical)))
    {
      r := AddGeoCriteria(if spherical then NEAR_SPHERE else NEAR, Coordinates(longitude, latitude), None);
    }

    /** near(longitude, latitude, radius): not spherical. */
    method NearRadius(longitude: Double, latitude: Double, radius: Double)
      returns (r: Result<CriteriaContainer, Error>)
      modifies target
      ensures Applied(old(target.criteria), r, CriterionFor(Origin(), not, Near2d(longitude, latitude, Some(radius), false)))
    {
      r := NearRadiusSpherical(longitude, latitude, radius, false);
    }

    /** near(longitude, latitude, radius, spherical). */
    method NearRadiusSpherical(longitude: Double, latitude: Double, radius: Double, spherical: bool)
      returns (r: Result<CriteriaContainer, Error>)
      modifies target
      ensures Applied(old(target.criteria), r,
                      CriterionFor(Origin(), not, Near2d(longitude, latitude, Some(radius), spherical)))
    {
      r := AddGeoCriteria(if spherical then NEAR_SPHERE else NEAR, Coordinates(longitude, latitude),
                          Some(map["$maxDistance" := radius]));
    }

    method NearPoint(point: Geometry) returns (r: Result<CriteriaContainer, Error>)
      requires point.kind == Point
      modifies target
      ensures Applied(old(target.criteria), r, CriterionFor(Origin(), not, Sphere(NEAR, point, None, None, None)))
    {
      r := AddSphere(NEAR, point, None, None, None);
    }

    method NearPointBounded(point: Geometry, maxDistance: Option<Double>, minDistance: Option<Double>)
      returns (r: Result<CriteriaContainer, Error>)
      requires point.kind == Point
      modifies target
      ensures Applied(old(target.criteria), r,
                      CriterionFor(Origin(), not, Sphere(NEAR, point, None, maxDistance, minDistance)))
    {
      r := AddSphere(NEAR, point, None, maxDistance, minDistance);
    }

    method NearSphere(point: Geometry) returns (r: Result<CriteriaContainer, Error>)
      requires point.kind == Point
      modifies target
      ensures Applied(old(target.criteria), r, CriterionFor(Origin(), not, Sphere(NEAR_SPHERE, point, None, None, None)))
    {
      r := NearSphereBounded(point, None, None);
    }

    method NearSphereBounded(point: Geometry, maxDistance: Option<Double>, minDistance: Option<Double>)
      returns (r: Result<CriteriaContainer, Error>)
      requires point.kind == Point
      modifies target
      ensures Applied(old(target.criteria), r,
                      CriterionFor(Origin(), not, Sphere(NEAR_SPHERE, point, None, maxDistance, minDistance)))
    {
      r := AddSphere(NEAR_SPHERE, point, None, maxDistance, minDistance);
    }

    method NotEqual(val: Value) returns (r: Result<CriteriaContainer, Error>)
      modifies target
      ensures Applied(old(target.criteria), r, CriterionFor(Origin(), not, Call.Compare(NOT_EQUAL, val)))
    {
      r := Compare(NOT_EQUAL, val);
    }

    /** The same criterion as `HasNoneOf`. */
    method NotIn(values: Option<seq<Value>>) returns (r: Result<CriteriaContainer, Error>)
      modifies target
      ensures Applied(old(target.criteria), r, CriterionFor(Origin(), not, Call.Membership(NOT_IN, values)))
    {
      r := HasNoneOf(values);
    }

    method SizeEq(n: int32) returns (r: Result<CriteriaContainer, Error>)
      modifies target
      ensures Applied(old(target.criteria), r, CriterionFor(Origin(), not, SizeIs(n)))
    {
      var t := AddCriteria(SIZE, Size(n));
      r := Success(t);
    }

    method StartsWith(prefix: Option<string>) returns (r: Result<CriteriaContainer, Error>)
      modifies target
      ensures Applied(old(target.criteria), r, CriterionFor(Origin(), not, Call.Matching(prefix, true, false, false)))
    {
      r := Matching(prefix, true, false, false);
    }

    method StartsWithIgnoreCase(prefix: Option<string>) returns (r: Result<CriteriaContainer, Error>)
      modifies target
      ensures Applied(old(target.criteria), r, CriterionFor(Origin(), not, Call.Matching(prefix, true, false, true)))
    {
      r := Matching(prefix, true, false, true);
    }

    /** type(Type): `code` is the BSON type's numeric code. */
    method Type(code: int32) returns (r: Result<CriteriaContainer, Error>)
      modifies target
      ensures Applied(old(target.criteria), r, CriterionFor(Origin(), not, TypeIs(code)))
    {
      var t := AddCriteria(TYPE, TypeCode(code));
      r := Success(t);
    }

    /** within(Shape): a legacy shape, carried by a field criterion (negation allowed). */
    method Within(shape: Option<Shape>) returns (r: Result<CriteriaContainer, Error>)
      modifies target
      ensures Applied(old(target.criteria), r, CriterionFor(Origin(), not, WithinShape(shape)))
    {
      if shape.None? {
        return Failure(AssertionFailed("shape"));
      }
      var t := AddCriteria(GEO_WITHIN, ShapeValue(shape.value));
      r := Success(t);
    }

    /** within(Polygon) and within(MultiPolygon). */
    method WithinBoundary(boundary: Geometry) returns (r: Result<CriteriaContainer, Error>)
      requires boundary.kind == Polygon || boundary.kind == MultiPolygon
      modifies target
      ensures Applied(old(target.criteria), r, CriterionFor(Origin(), not, Sphere(GEO_WITHIN, boundary, None, None, None)))
    {
      r := AddSphere(GEO_WITHIN, boundary, None, None, None);
    }

    /** within(Polygon, crs) and within(MultiPolygon, crs). */
    method WithinBoundaryCrs(boundary: Geometry, crs: Crs) returns (r: Result<CriteriaContainer, Error>)
      requires boundary.kind == Polygon || boundary.kind == MultiPolygon
      modifies target
      ensures Applied(old(target.criteria), r,
                      CriterionFor(Origin(), not, Sphere(GEO_WITHIN, boundary, Some(crs), None, None)))
    {
      r := AddSphere(GEO_WITHIN, boundary, Some(crs), None, None);
    }
  }

  /**
   * A worked example of negation scoping: negation belongs to one field-end
   * and is not retroactive. Negating one field-end and then building on a
   * fresh one over the same container gives one negated and one plain
   * criterion, and the criteria already collected keep their flags. The
   * general fact is each builder's `Applied` contract with the flag current
   * at the call.
   */
  method NegationScoping(target: CriteriaContainer, field: string, mappedClass: string, validating: bool, x: Value, y: Value)
    requires y != Null
    modifies target
    ensures target.criteria == old(target.criteria) + [
      FieldCriteria(field, EQUAL, Plain(x), true, mappedClass, validating),
      FieldCriteria(field, GREATER_THAN, Plain(y), false, mappedClass, validating)]
  {
    var first := new FieldEnd(field, target, mappedClass, validating);
    var negated := first.Not();
    var r := negated.Equal(x);
    var second := new FieldEnd(field, target, mappedClass, validating);
    r := second.GreaterThan(y);
  }

  /** Negating twice restores the flag, so criteria are built as if never negated. */
  method DoubleNegation(fe: FieldEnd, val: Value) returns (r: Result<CriteriaContainer, Error>)
    modifies fe, fe.target
    ensures fe.not == old(fe.not)
    ensures r == Success(fe.target)
    ensures fe.target.criteria ==
      old(fe.target.criteria) + [FieldCriteria(fe.field, EQUAL, Plain(val), old(fe.not), fe.mappedClass, fe.validating)]
  {
    var once := fe.Not();
    var twice := once.Not();
    r := twice.Equal(val);
  }
}
