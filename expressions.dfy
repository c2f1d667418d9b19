/**
 * Aggregation expression nodes that are built up by setters: `$push` with its
 * two mutually exclusive modes, `$zip` and the calculus expressions
 * (`$derivative`, `$integral`).
 */
module ExpressionNodes {
  import opened Wrappers
  import opened Errors
  import opened ExpressionHelper

  const PUSH := "$push"
  const ZIP := "$zip"

  // ----- $push -----

  /** One field of a document expression. */
  datatype FieldEntry = FieldEntry(name: string, expression: Expression)

  /** The state of a Push: the single source, or the document of fields (absent until the first field). */
  datatype PushState = PushState(field: Option<Expression>, document: Option<seq<FieldEntry>>)

  const NewPush := PushState(None, None)

  /** The two modes are never both in use. */
  predicate Exclusive(s: PushState) {
    !(s.field.Some? && s.document.Some?)
  }

  const MIXED_MODES := Aggregation(MixedModesNotAllowed(PUSH))

  /** field(name, expression): refused once a single source is set; otherwise one more field in the document. */
  function AddField(s: PushState, name: string, e: Expression): (r: Result<PushState, Error>)
    ensures r.Failure? <==> s.field.Some?
    ensures r.Failure? ==> r.error == MIXED_MODES
    ensures r.Success? ==> r.value.field == s.field && r.value.document.Some?
    ensures r.Success? ==>
      r.value.document.value == (if s.document.None? then [] else s.document.value) + [FieldEntry(name, e)]
  {
    if s.field.Some? then Failure(MIXED_MODES)
    else Success(PushState(s.field, Some((if s.document.None? then [] else s.document.value) + [FieldEntry(name, e)])))
  }

  /** single(source): refused once a document exists; otherwise the source replaces the previous one. */
  function SetSingle(s: PushState, source: Option<Expression>): (r: Result<PushState, Error>)
    ensures r.Failure? <==> s.document.Some?
    ensures r.Failure? ==> r.error == MIXED_MODES
    ensures r.Success? ==> r.value == PushState(source, None)
  {
    if s.document.Some? then Failure(MIXED_MODES) else Success(PushState(source, s.document))
  }

  datatype PushCall = FieldCall(name: string, expression: Expression) | SingleCall(source: Option<Expression>)

  function Apply(s: PushState, c: PushCall): Result<PushState, Error> {
    match c
    case FieldCall(name, e) => AddField(s, name, e)
    case SingleCall(source) => SetSingle(s, source)
  }

  /** A sequence of calls, stopping at the first that throws. */
  function Run(s: PushState, calls: seq<PushCall>): Result<PushState, Error>
    decreases |calls|
  {
    if calls == [] then Success(s)
    else
      match Apply(s, calls[0])
      case Failure(e) => Failure(e)
      case Success(t) => Run(t, calls[1..])
  }

  /** Whatever calls are made, a Push never holds a single source and a document at once. */
  lemma {:induction false} AlwaysExclusive(s: PushState, calls: seq<PushCall>)
    requires Exclusive(s)
    ensures Run(s, calls).Success? ==> Exclusive(Run(s, calls).value)
    decreases |calls|
  {
    if calls != [] {
      var a := Apply(s, calls[0]);
      if a.Success? {
        assert Exclusive(a.value);
        AlwaysExclusive(a.value, calls[1..]);
      }
    }
  }

  /** After a non-null single source, adding a field fails; after a field, setting a single source fails. */
  lemma ModesConflict(s: PushState, source: Expression, name: string, e: Expression)
    ensures SetSingle(s, Some(source)).Success? ==>
      AddField(SetSingle(s, Some(source)).value, name, e) == Failure(MIXED_MODES)
    ensures AddField(s, name, e).Success? ==>
      SetSingle(AddField(s, name, e).value, Some(source)) == Failure(MIXED_MODES)
  {
  }

  /** Repeated single sources are allowed and the last one wins; a null source leaves field mode open. */
  lemma LastSingleWins(s: PushState, a: Option<Expression>, b: Option<Expression>, name: string, e: Expression)
    requires s.document.None?
    ensures SetSingle(SetSingle(s, a).value, b) == SetSingle(s, b)
    ensures AddField(SetSingle(s, None).value, name, e).Success?
  {
  }

  /** The fields of a state's document, none when it has no document. */
  function DocumentFields(s: PushState): seq<FieldEntry> {
    if s.document.None? then [] else s.document.value
  }

  /** One field(name, expression) call per entry, in order. */
  function FieldCalls(entries: seq<FieldEntry>): seq<PushCall>
    decreases |entries|
  {
    if entries == [] then [] else [FieldCall(entries[0].name, entries[0].expression)] + FieldCalls(entries[1..])
  }

  /**
   * Any number of field calls on a Push without a single source all succeed:
   * the first creates the document if there is none, and each later one
   * joins it at the end, so the document gains the entries in call order.
   */
  lemma {:induction false} FieldsAccumulate(s: PushState, entries: seq<FieldEntry>)
    requires s.field.None?
    ensures entries == [] ==> Run(s, FieldCalls(entries)) == Success(s)
    ensures entries != [] ==>
      Run(s, FieldCalls(entries)) == Success(PushState(None, Some(DocumentFields(s) + entries)))
    decreases |entries|
  {
    if entries != [] {
      var calls := FieldCalls(entries);
      var t := PushState(None, Some(DocumentFields(s) + [entries[0]]));
      assert Apply(s, calls[0]) == Success(t);
      assert calls[1..] == FieldCalls(entries[1..]);
      assert Run(s, calls) == Run(t, FieldCalls(entries[1..]));
      FieldsAccumulate(t, entries[1..]);
      assert DocumentFields(t) + entries[1..] == DocumentFields(s) + entries by {
        assert entries == [entries[0]] + entries[1..];
      }
      if entries[1..] == [] {
        assert DocumentFields(t) == DocumentFields(s) + entries;
      }
    }
  }

  class Push {
    const operation: string
    var field: Option<Expression>
    var document: Option<seq<FieldEntry>>

    function State(): PushState
      reads this
    {
      PushState(field, document)
    }

    ghost predicate Valid()
      reads this
    {
      operation == PUSH && Exclusive(State())
    }

    constructor ()
      ensures operation == PUSH && State() == NewPush && Valid()
    {
      operation := PUSH;
      field := None;
      document := None;
    }

    method Field() returns (r: Option<Expression>)
      ensures r == field
    {
      r := field;
    }

    method Document() returns (r: Option<seq<FieldEntry>>)
      ensures r == document
    {
      r := document;
    }

    /** field(name, expression), returning this or throwing. */
    method FieldNamed(name: string, e: Expression) returns (r: Result<Push, Error>)
      requires Valid()
      modifies this
      ensures Valid()
      ensures AddField(old(State()), name, e).Success? ==>
        r == Success(this) && State() == AddField(old(State()), name, e).value
      ensures AddField(old(State()), name, e).Failure? ==>
        r == Failure(AddField(old(State()), name, e).error) && State() == old(State())
    {
      if field.Some? {
        return Failure(Aggregation(MixedModesNotAllowed(operation)));
      }
      if document.None? {
        document := Some([]);
      }
      document := Some(document.value + [FieldEntry(name, e)]);
      r := Success(this);
    }

    /** single(source), returning this or throwing. */
    method Single(source: Option<Expression>) returns (r: Result<Push, Error>)
      requires Valid()
      modifies this
      ensures Valid()
      ensures SetSingle(old(State()), source).Success? ==>
        r == Success(this) && State() == SetSingle(old(State()), source).value
      ensures SetSingle(old(State()), source).Failure? ==>
        r == Failure(SetSingle(old(State()), source).error) && State() == old(State())
    {
      if document.Some? {
        return Failure(Aggregation(MixedModesNotAllowed(operation)));
      }
      field := source;
      r := Success(this);
    }
  }

  // ----- $zip -----

  /** A literal value expression wrapping a Boolean, which may be null. */
  datatype ValueExpression = ValueExpression(value: Option<bool>)

  class ZipExpression {
    const operation: string
    const inputs: seq<Expression>
    var useLongestLength: Option<ValueExpression>
    var defaults: Option<Expression>

    constructor (inputs: seq<Expression>)
      ensures operation == ZIP && this.inputs == inputs
      ensures useLongestLength.None? && defaults.None?
    {
      operation := ZIP;
      this.inputs := inputs;
      useLongestLength := None;
      defaults := None;
    }

    /** Sets the defaults alone; no check that useLongestLength is set. */
    method Defaults(e: Option<Expression>) returns (r: ZipExpression)
      modifies this
      ensures r == this && defaults == e
      ensures useLongestLength == old(useLongestLength)
    {
      defaults := e;
      r := this;
    }

    /** Sets useLongestLength alone, as a value expression wrapping `b`. */
    method UseLongestLength(b: Option<bool>) returns (r: ZipExpression)
      modifies this
      ensures r == this && useLongestLength == Some(ValueExpression(b))
      ensures defaults == old(defaults)
    {
      useLongestLength := Some(ValueExpression(b));
      r := this;
    }

    /** The constructor's list, as given. */
    method Inputs() returns (r: seq<Expression>)
      ensures r == inputs
    {
      r := inputs;
    }

    method GetUseLongestLength() returns (r: Option<ValueExpression>)
      ensures r == useLongestLength
    {
      r := useLongestLength;
    }

    method GetDefaults() returns (r: Option<Expression>)
      ensures r == defaults
    {
      r := defaults;
    }
  }

  /**
   * A zip built with defaults and no useLongestLength is accepted; the
   * inputs stay the constructor's list in its order.
   */
  method ZipDefaultsOnly(inputs: seq<Expression>, d: Expression) returns (z: ZipExpression)
    ensures z.inputs == inputs && z.defaults == Some(d) && z.useLongestLength.None?
  {
    z := new ZipExpression(inputs);
    var _ := z.Defaults(Some(d));
  }

  // ----- $derivative / $integral -----

  /** A time unit (week, day, hour, and so on), kept opaque. */
  datatype TimeUnit = TimeUnit(name: string)

  class CalculusExpression {
    const operation: string
    const input: Expression
    var unit: Option<TimeUnit>

    constructor (operation: string, input: Expression)
      ensures this.operation == operation && this.input == input && unit.None?
    {
      this.operation := operation;
      this.input := input;
      unit := None;
    }

    function Input(): (e: Expression)
      ensures e == input
    {
      input
    }

    function Unit(): (u: Option<TimeUnit>)
      reads this
      ensures u == unit
    {
      unit
    }

    /** unit(u): sets the unit, returning this. */
    method SetUnit(u: Option<TimeUnit>) returns (r: CalculusExpression)
      modifies this
      ensures r == this && unit == u
    {
      unit := u;
      r := this;
    }
  }

  /**
   * A worked example of SetUnit's contract: after two units are set, the one
   * read back is the second.
   */
  method LastUnitWins(c: CalculusExpression, a: TimeUnit, b: TimeUnit) returns (u: Option<TimeUnit>)
    modifies c
    ensures u == Some(b) && c.unit == Some(b)
  {
    var _ := c.SetUnit(Some(a));
    var _ := c.SetUnit(Some(b));
    u := c.Unit();
  }
}
