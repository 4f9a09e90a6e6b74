/** The domain exception package: the Python values that flow through the
    exception constructors, the `StatusCode` enumerant they carry, the two
    `TypeError` subclasses `ImmutableAttributeError` and `SealedClassError`,
    and the errors the rest of the model can raise. */
module Exceptions {
  import opened Text

  /** An enumerant of the service's `StatusCode` enum: its name and its
      integer `.value`. */
  datatype StatusCode = StatusCode(name: string, value: int)

  const INTERNAL_SERVER_ERROR: StatusCode := StatusCode("INTERNAL_SERVER_ERROR", 500)

  /** The Python values the model passes to constructors and stores in
      attributes. */
  datatype Value =
    | NoneValue
    | Bool(b: bool)
    | Int(i: int)
    | Str(s: string)
    | Status(code: StatusCode)

  /** Python truthiness, as `if v:` and `getattr(..., False)` test it. */
  predicate Truthy(v: Value)
  {
    match v
    case NoneValue => false
    case Bool(b) => b
    case Int(i) => i != 0
    case Str(s) => s != ""
    case Status(_) => true
  }

  /** `str(v)`, which is what an f-string substitutes for `{v}`; an enum
      member without its own `__str__` renders as `StatusCode.<NAME>`. */
  function Format(v: Value): (r: string)
    ensures v.Str? ==> r == v.s
    ensures v.Int? ==> r == IntToString(v.i)
  {
    match v
    case NoneValue => "None"
    case Bool(b) => if b then "True" else "False"
    case Int(i) => IntToString(i)
    case Str(s) => s
    case Status(c) => "StatusCode." + c.name
  }

  /** An `ImmutableAttributeError` instance: its two slots. */
  datatype ImmutableAttributeError = ImmutableAttributeError(statusCode: Value, message: Value)

  /** A `SealedClassError` instance: its two slots. */
  datatype SealedClassError = SealedClassError(statusCode: Value, message: Value)

  /** Everything the modelled code can raise. */
  datatype PyError =
    | ImmutableAttribute(immutable: ImmutableAttributeError)
    | SealedClass(sealed: SealedClassError)
    | IncomparableObject(message: string)
    | ArityError(callee: string, expected: nat, given: nat)
    | AttributeError(owner: string, attribute: string)
    | ValueError(message: string)
    | BaseListConflict(message: string)

  /** The errors that are instances of `TypeError`: the two domain errors,
      which subclass it, the error Python raises for a call with the wrong
      number of arguments, and the one class creation raises for a list of
      base classes it cannot linearise. */
  predicate IsTypeError(e: PyError)
  {
    e.ImmutableAttribute? || e.SealedClass? || e.ArityError? || e.BaseListConflict?
  }

  datatype Result<+T> = Ok(value: T) | Err(error: PyError)

  /** The `__str__` shared by the three status-carrying exceptions:
      `f'{self.status_code.value} - {self.message}'`. A status code that is
      not a `StatusCode` has no `.value`, so the formatting fails. */
  function StatusMessageStr(statusCode: Value, message: Value): (r: Result<string>)
    ensures r.Ok? <==> statusCode.Status?
    ensures r.Err? ==> r.error.AttributeError? && r.error.attribute == "value"
    ensures r.Ok? ==> r.value == IntToString(statusCode.code.value) + " - " + Format(message)
  {
    match statusCode
    case Status(c) => Ok(IntToString(c.value) + " - " + Format(message))
    case _ => Err(AttributeError(TypeName(statusCode), "value"))
  }

  function TypeName(v: Value): string
  {
    match v
    case NoneValue => "NoneType"
    case Bool(_) => "bool"
    case Int(_) => "int"
    case Str(_) => "str"
    case Status(_) => "StatusCode"
  }

  /** The text of a rendered exception splits back at its first space into
      the status value and the message: rendering loses neither. */
  lemma StatusMessageStrRoundTrip(code: StatusCode, message: string)
    requires code.value >= 0
    ensures StatusMessageStr(Status(code), Str(message)).Ok?
    ensures var text := StatusMessageStr(Status(code), Str(message)).value;
            && SplitAtFirst(text, ' ') == Some((NatToString(code.value), "- " + message))
            && ParseNat(NatToString(code.value)) == Some(code.value)
  {
    var digits := NatToString(code.value);
    assert digits + " - " + message == digits + [' '] + ("- " + message);
    SplitAtFirstOf(digits, ' ', "- " + message);
    NatToStringRoundTrip(code.value);
  }

  // ----------------------------------------------- ImmutableAttributeError

  /** `ImmutableAttributeError(*args)` against
      `__init__(self, message, status_code=StatusCode.INTERNAL_SERVER_ERROR)`:
      one or two positional arguments, the second defaulting to
      INTERNAL_SERVER_ERROR. */
  function NewImmutableAttributeError(args: seq<Value>): (r: Result<ImmutableAttributeError>)
    ensures r.Ok? <==> 1 <= |args| <= 2
    ensures r.Err? ==> r.error == ArityError("ImmutableAttributeError", 2, |args|)
    ensures r.Ok? ==> r.value.message == args[0]
    ensures r.Ok? && |args| == 1 ==> r.value.statusCode == Status(INTERNAL_SERVER_ERROR)
    ensures r.Ok? && |args| == 2 ==> r.value.statusCode == args[1]
  {
    if |args| == 1 then Ok(ImmutableAttributeError(Status(INTERNAL_SERVER_ERROR), args[0]))
    else if |args| == 2 then Ok(ImmutableAttributeError(args[1], args[0]))
    else Err(ArityError("ImmutableAttributeError", 2, |args|))
  }

  /** INTERNAL_SERVER_ERROR renders as "500". */
  lemma Status500()
    ensures IntToString(INTERNAL_SERVER_ERROR.value) == "500"
  {
    assert NatToString(5) == "5";
    assert NatToString(50) == NatToString(5) + ['0'];
    assert NatToString(500) == NatToString(50) + ['0'];
  }

  /** `str(e)` of an `ImmutableAttributeError`. */
  function ImmutableAttributeErrorStr(e: ImmutableAttributeError): (r: Result<string>)
    ensures r.Ok? <==> e.statusCode.Status?
    ensures r.Ok? ==> r.value == IntToString(e.statusCode.code.value) + " - " + Format(e.message)
  {
    StatusMessageStr(e.statusCode, e.message)
  }

  /** With the status code left at its default, the error renders as
      `"500 - <message>"` and its accessors give back the message. */
  lemma ImmutableAttributeErrorDefault(message: string)
    ensures NewImmutableAttributeError([Str(message)]).Ok?
    ensures var e := NewImmutableAttributeError([Str(message)]).value;
            && e.message == Str(message)
            && e.statusCode == Status(INTERNAL_SERVER_ERROR)
            && ImmutableAttributeErrorStr(e) == Ok("500 - " + message)
  {
    Status500();
    assert IntToString(500) + " - " + message == "500 - " + message;
  }

  // ------------------------------------------------------ SealedClassError

  /** `SealedClassError(*args)` against `__init__(self, status_code, message)`:
      exactly two positional arguments, no defaults. */
  function NewSealedClassError(args: seq<Value>): (r: Result<SealedClassError>)
    ensures r.Ok? <==> |args| == 2
    ensures r.Err? ==> r.error == ArityError("SealedClassError", 2, |args|)
    ensures r.Ok? ==> r.value.statusCode == args[0] && r.value.message == args[1]
  {
    if |args| == 2 then Ok(SealedClassError(args[0], args[1]))
    else Err(ArityError("SealedClassError", 2, |args|))
  }

  /** `str(e)` of a `SealedClassError`. */
  function SealedClassErrorStr(e: SealedClassError): (r: Result<string>)
    ensures r.Ok? <==> e.statusCode.Status?
    ensures r.Ok? ==> r.value == IntToString(e.statusCode.code.value) + " - " + Format(e.message)
  {
    StatusMessageStr(e.statusCode, e.message)
  }

  /** A single argument (the message alone) cannot construct the error:
      the call itself raises a `TypeError` about its arity. */
  lemma SealedClassErrorNeedsTwoArguments(message: Value)
    ensures NewSealedClassError([message]) == Err(ArityError("SealedClassError", 2, 1))
  {
  }
}
