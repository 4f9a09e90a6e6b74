/** `ApplicationException(Exception, Incomparable, Immutable)`: carries a
    status code and a message, renders as "<value> - <message>", and refuses
    comparison and hashing through `Incomparable`. Its method resolution
    order puts `BaseException` before `Immutable`, and `BaseException`
    defines `__setattr__` itself (the generic attribute write), so that is
    the `__setattr__` an instance uses: `Immutable`'s `_frozen` guard is
    shadowed and every attribute write takes effect, whatever `_frozen`
    holds. Its `__init__` never calls `Immutable.__init__` either, so
    construction never sets `_frozen`. */
module AppException {
  import opened Text
  import opened Exceptions
  import Immutable
  import Incomparable

  const STATUS_CODE_SLOT: string := "_status_code"
  const MESSAGE_SLOT: string := "_message"

  /** `__init__(status_code, message)`: the two slot writes, as plain
      attribute updates, on an instance with no attributes yet. */
  function Construct(statusCode: Value, message: Value): Immutable.Attrs
  {
    Immutable.Applied(map[], [(STATUS_CODE_SLOT, statusCode), (MESSAGE_SLOT, message)])
  }

  /** The `status_code` property. */
  function StatusCodeOf(attrs: Immutable.Attrs): (r: Result<Value>)
    ensures r.Ok? <==> STATUS_CODE_SLOT in attrs
    ensures r.Err? ==> r.error == AttributeError("ApplicationException", STATUS_CODE_SLOT)
  {
    if STATUS_CODE_SLOT in attrs then Ok(attrs[STATUS_CODE_SLOT]) else Err(AttributeError("ApplicationException", STATUS_CODE_SLOT))
  }

  /** The `message` property. */
  function MessageOf(attrs: Immutable.Attrs): (r: Result<Value>)
    ensures r.Ok? <==> MESSAGE_SLOT in attrs
    ensures r.Err? ==> r.error == AttributeError("ApplicationException", MESSAGE_SLOT)
  {
    if MESSAGE_SLOT in attrs then Ok(attrs[MESSAGE_SLOT]) else Err(AttributeError("ApplicationException", MESSAGE_SLOT))
  }

  /** `__str__`: `f'{self.status_code.value} - {self.message}'`, which
      evaluates its first field whole, `status_code` and then its `.value`,
      before it reads `message`; then it formats. */
  function StrOf(attrs: Immutable.Attrs): (r: Result<string>)
    ensures r.Ok? <==> STATUS_CODE_SLOT in attrs && attrs[STATUS_CODE_SLOT].Status? && MESSAGE_SLOT in attrs
    ensures STATUS_CODE_SLOT !in attrs ==> r == Err(AttributeError("ApplicationException", STATUS_CODE_SLOT))
    ensures STATUS_CODE_SLOT in attrs && !attrs[STATUS_CODE_SLOT].Status? ==>
              r == Err(AttributeError(TypeName(attrs[STATUS_CODE_SLOT]), "value"))
    ensures STATUS_CODE_SLOT in attrs && attrs[STATUS_CODE_SLOT].Status? && MESSAGE_SLOT !in attrs ==>
              r == Err(AttributeError("ApplicationException", MESSAGE_SLOT))
    ensures r.Ok? ==> r.value == IntToString(attrs[STATUS_CODE_SLOT].code.value) + " - " + Format(attrs[MESSAGE_SLOT])
  {
    match StatusCodeOf(attrs)
    case Err(e) => Err(e)
    case Ok(code) =>
      if !code.Status? then Err(AttributeError(TypeName(code), "value"))
      else
        match MessageOf(attrs)
        case Err(e) => Err(e)
        case Ok(message) => Ok(IntToString(code.code.value) + " - " + Format(message))
  }

  /** Construction sets exactly the two slots; the properties give back the
      constructor's arguments, and `str` is the status value, " - " and the
      message. */
  lemma ConstructedAccessors(statusCode: Value, message: Value)
    ensures Construct(statusCode, message) == map[STATUS_CODE_SLOT := statusCode, MESSAGE_SLOT := message]
    ensures var attrs := Construct(statusCode, message);
            && StatusCodeOf(attrs) == Ok(statusCode)
            && MessageOf(attrs) == Ok(message)
            && StrOf(attrs) == StatusMessageStr(statusCode, message)
  {
    var writes := [(STATUS_CODE_SLOT, statusCode), (MESSAGE_SLOT, message)];
    var empty: Immutable.Attrs := map[];
    var a1 := empty[STATUS_CODE_SLOT := statusCode];
    assert writes[1..][1..] == [];
    assert Immutable.Applied(empty, writes) == Immutable.Applied(a1, writes[1..]);
  }

  /** For a `StatusCode` and a string message, `str` reads back both. */
  lemma ConstructedStrRoundTrip(code: StatusCode, message: string)
    requires code.value >= 0
    ensures var text := StrOf(Construct(Status(code), Str(message)));
            && text.Ok?
            && SplitAtFirst(text.value, ' ') == Some((NatToString(code.value), "- " + message))
  {
    ConstructedAccessors(Status(code), Str(message));
    StatusMessageStrRoundTrip(code, message);
  }

  /** Construction never sets `_frozen`, and no later run of writes is ever
      refused, whatever the writes do to `_frozen`: every written attribute
      is present afterwards, the last write wins, the slots are never
      removed, and the result is the plain updates in order. Run through
      `Immutable`'s guard instead, the same writes after a truthy write to
      `_frozen` would be refused. */
  lemma NeverFrozen(statusCode: Value, message: Value, writes: seq<(string, Value)>)
    ensures Immutable.FROZEN_FLAG !in Construct(statusCode, message)
    ensures var after := Immutable.Applied(Construct(statusCode, message), writes);
            && STATUS_CODE_SLOT in after && MESSAGE_SLOT in after
            && (forall k :: 0 <= k < |writes| ==> writes[k].0 in after)
            && (writes != [] ==> after[writes[|writes| - 1].0] == writes[|writes| - 1].1)
    ensures |writes| >= 2 && writes[0] == (Immutable.FROZEN_FLAG, Bool(true)) ==>
              Immutable.WriteAll(Construct(statusCode, message), writes).refusal
                == Some(ImmutableAttribute(Immutable.Refusal(writes[1].0)))
  {
    ConstructedAccessors(statusCode, message);
    Immutable.AppliedEffect(Construct(statusCode, message), writes);
    if |writes| >= 2 && writes[0] == (Immutable.FROZEN_FLAG, Bool(true)) {
      var built := Construct(statusCode, message);
      var frozen := built[Immutable.FROZEN_FLAG := Bool(true)];
      assert !Immutable.Frozen(built);
      assert Immutable.Frozen(frozen);
      assert Immutable.WriteAll(built, writes) == Immutable.WriteAll(frozen, writes[1..]);
      Immutable.FrozenIsFinal(frozen, writes[1..]);
    }
  }

  class ApplicationException {
    /** The instance's runtime class name, which the comparison errors use. */
    const className: string
    var attrs: Immutable.Attrs

    constructor (className: string, statusCode: Value, message: Value)
      ensures this.className == className
      ensures attrs == Construct(statusCode, message)
    {
      this.className := className;
      attrs := map[];
      new;
      ConstructedAccessors(statusCode, message);
      SetAttr(STATUS_CODE_SLOT, statusCode);
      SetAttr(MESSAGE_SLOT, message);
    }

    /** `__setattr__`: `BaseException`'s generic attribute write, which
        comes before `Immutable.__setattr__` in the method resolution order,
        so `_frozen` is never consulted and the write always takes effect. */
    method SetAttr(key: string, value: Value)
      modifies this`attrs
      ensures attrs == old(attrs)[key := value]
    {
      attrs := attrs[key := value];
    }

    function StatusCode(): Result<Value>
      reads this
    {
      StatusCodeOf(attrs)
    }

    function Message(): Result<Value>
      reads this
    {
      MessageOf(attrs)
    }

    function ToString(): Result<string>
      reads this
    {
      StrOf(attrs)
    }

    /** `==`, `!=`, `<`, `<=`, `>`, `>=`, inherited from `Incomparable`. */
    method Compare(op: Incomparable.Comparison, other: Value) returns (r: Result<bool>)
      ensures r.Err? && r.error == IncomparableObject(className + Incomparable.COMPARE_SUFFIX)
    {
      r := Incomparable.Compare(className, op, other);
    }

    /** `hash`, inherited from `Incomparable`. */
    method Hash() returns (r: Result<int>)
      ensures r.Err? && r.error == IncomparableObject(className + Incomparable.HASH_SUFFIX)
    {
      r := Incomparable.Hash(className);
    }
  }

  /** `e = ApplicationException(code, message); e._frozen = True;
      e._message = replacement`: both writes go through, the flag is truthy
      afterwards and `message` returns the replacement. */
  method FrozenFlagIgnored(className: string, statusCode: Value, message: Value, replacement: Value)
    returns (e: ApplicationException)
    ensures Immutable.Frozen(e.attrs)
    ensures e.Message() == Ok(replacement)
    ensures e.StatusCode() == Ok(statusCode)
  {
    e := new ApplicationException(className, statusCode, message);
    ConstructedAccessors(statusCode, message);
    e.SetAttr(Immutable.FROZEN_FLAG, Bool(true));
    e.SetAttr(MESSAGE_SLOT, replacement);
  }
}
