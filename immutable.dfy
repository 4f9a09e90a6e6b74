/** `Immutable`: every attribute write goes through a guard that refuses it
    once the instance's `_frozen` attribute is truthy; `__init__` clears the
    flag, lets the cooperative initialisers set attributes (the chain may
    raise, which leaves the flag cleared), then sets it. */
module Immutable {
  import opened Text
  import opened Exceptions

  /** An instance's attribute dictionary. */
  type Attrs = map<string, Value>

  const FROZEN_FLAG: string := "_frozen"

  /** `getattr(self, '_frozen', False)`, tested for truth, over the
      instance's own attributes. */
  predicate Frozen(attrs: Attrs)
  {
    FROZEN_FLAG in attrs && Truthy(attrs[FROZEN_FLAG])
  }

  function ModifyMessage(key: string): string
  {
    "Cannot modify immutable attribute '" + key + "'"
  }

  /** The error a refused write raises: an `ImmutableAttributeError` built
      from the message alone, so with the default status code. */
  function Refusal(key: string): (e: ImmutableAttributeError)
    ensures e.message == Str(ModifyMessage(key))
    ensures e.statusCode == Status(INTERNAL_SERVER_ERROR)
  {
    NewImmutableAttributeError([Str(ModifyMessage(key))]).value
  }

  /** `__setattr__(key, value)` on an instance whose attributes are
      `attrs`: the new attributes, or the refusal. */
  function WriteAttr(attrs: Attrs, key: string, value: Value): (r: Result<Attrs>)
    ensures r.Err? <==> Frozen(attrs)
    ensures r.Err? ==> r.error == ImmutableAttribute(Refusal(key))
    ensures r.Ok? ==> key in r.value && r.value[key] == value && r.value - {key} == attrs - {key}
  {
    if Frozen(attrs) then Err(ImmutableAttribute(Refusal(key))) else Ok(attrs[key := value])
  }

  /** What a run of writes leaves behind: the attributes as the writes
      that went through made them, and the refusal that stopped the run, if
      one did. */
  datatype Written = Written(attrs: Attrs, refusal: Option<PyError>)

  /** A run of writes, stopping at the first refusal; the writes before it
      have taken effect. */
  function WriteAll(attrs: Attrs, writes: seq<(string, Value)>): Written
    decreases |writes|
  {
    if writes == [] then Written(attrs, None)
    else match WriteAttr(attrs, writes[0].0, writes[0].1)
      case Err(e) => Written(attrs, Some(e))
      case Ok(next) => WriteAll(next, writes[1..])
  }

  /** The attributes with each write applied in order, no guard consulted:
      plain dictionary updates. */
  function Applied(attrs: Attrs, writes: seq<(string, Value)>): Attrs
    decreases |writes|
  {
    if writes == [] then attrs else Applied(attrs[writes[0].0 := writes[0].1], writes[1..])
  }

  /** Plain updates never remove an attribute, add every written key, and
      leave the last key written holding the last value written. */
  lemma {:induction false} AppliedEffect(attrs: Attrs, writes: seq<(string, Value)>)
    ensures attrs.Keys <= Applied(attrs, writes).Keys
    ensures forall k :: 0 <= k < |writes| ==> writes[k].0 in Applied(attrs, writes)
    ensures writes != [] ==> Applied(attrs, writes)[writes[|writes| - 1].0] == writes[|writes| - 1].1
    decreases |writes|
  {
    if writes != [] {
      var next := attrs[writes[0].0 := writes[0].1];
      AppliedEffect(next, writes[1..]);
      forall k | 0 < k < |writes|
        ensures writes[k].0 in Applied(attrs, writes)
      {
        assert writes[1..][k - 1] == writes[k];
      }
      if |writes| > 1 {
        assert writes[1..][|writes[1..]| - 1] == writes[|writes| - 1];
      }
    }
  }

  /** Writes that leave `_frozen` alone. */
  predicate AvoidsFlag(writes: seq<(string, Value)>)
  {
    forall k :: 0 <= k < |writes| ==> writes[k].0 != FROZEN_FLAG
  }

  /** An unfrozen instance takes the write: the key reads back the value,
      every other attribute is kept, and the instance is frozen afterwards
      exactly when the write froze it. */
  lemma UnfrozenWriteTakesEffect(attrs: Attrs, key: string, value: Value)
    requires !Frozen(attrs)
    ensures WriteAttr(attrs, key, value).Ok?
    ensures var after := WriteAttr(attrs, key, value).value;
            && key in after && after[key] == value
            && (forall other :: other in attrs && other != key ==> other in after && after[other] == attrs[other])
            && (Frozen(after) <==> key == FROZEN_FLAG && Truthy(value))
  {
  }

  /** A frozen instance refuses every write, naming the key, and keeps its
      attributes as they were; writing `_frozen` itself is refused too. */
  lemma FrozenRefusesEveryWrite(attrs: Attrs, key: string, value: Value)
    requires Frozen(attrs)
    ensures WriteAttr(attrs, key, value) == Err(ImmutableAttribute(Refusal(key)))
    ensures WriteAttr(attrs, FROZEN_FLAG, Bool(false)).Err?
  {
  }

  /** An instance without a `_frozen` attribute counts as unfrozen. */
  lemma MissingFlagIsUnfrozen(attrs: Attrs)
    requires FROZEN_FLAG !in attrs
    ensures !Frozen(attrs)
  {
  }

  /** Once frozen, an instance stays as it is: any run of writes fails at
      its first write, whatever the writes are, and changes nothing. */
  lemma FrozenIsFinal(attrs: Attrs, writes: seq<(string, Value)>)
    requires Frozen(attrs) && writes != []
    ensures WriteAll(attrs, writes) == Written(attrs, Some(ImmutableAttribute(Refusal(writes[0].0))))
  {
  }

  /** While unfrozen, writes that leave `_frozen` alone all succeed, and
      the result is the attributes with each write applied in order. */
  lemma {:induction false} UnfrozenWritesSucceed(attrs: Attrs, writes: seq<(string, Value)>)
    requires !Frozen(attrs) && AvoidsFlag(writes)
    ensures WriteAll(attrs, writes) == Written(Applied(attrs, writes), None)
    ensures !Frozen(WriteAll(attrs, writes).attrs)
    ensures forall k :: 0 <= k < |writes| ==> writes[k].0 in WriteAll(attrs, writes).attrs
    decreases |writes|
  {
    if writes != [] {
      var next := attrs[writes[0].0 := writes[0].1];
      assert !Frozen(next);
      assert AvoidsFlag(writes[1..]) by {
        forall k | 0 <= k < |writes[1..]|
          ensures writes[1..][k].0 != FROZEN_FLAG
        {
          assert writes[1..][k] == writes[k + 1];
        }
      }
      UnfrozenWritesSucceed(next, writes[1..]);
      var result := WriteAll(next, writes[1..]).attrs;
      assert WriteAll(attrs, writes).attrs == result;
      forall k | 0 <= k < |writes|
        ensures writes[k].0 in result
      {
        if k > 0 {
          assert writes[1..][k - 1] == writes[k];
        } else {
          KeyKept(next, writes[1..], writes[0].0);
        }
      }
    }
  }

  /** A run of writes never removes an attribute. */
  lemma {:induction false} KeyKept(attrs: Attrs, writes: seq<(string, Value)>, key: string)
    requires key in attrs
    ensures key in WriteAll(attrs, writes).attrs
    decreases |writes|
  {
    if writes != [] && !Frozen(attrs) {
      var next := attrs[writes[0].0 := writes[0].1];
      KeyKept(next, writes[1..], key);
    }
  }

  /** `__init__`, with `inner` the writes the cooperative initialisers make
      between the two flag writes and `raised` what the rest of that
      `super().__init__(*args, **kwargs)` chain raises after them: refused
      outright on a frozen instance; stopped, with `_frozen` still False,
      by a refused write or by the chain's own exception; otherwise the
      attributes after the writes with `_frozen` set. */
  function InitOutcome(attrs: Attrs, inner: seq<(string, Value)>, raised: Option<PyError>): Written
  {
    match WriteAttr(attrs, FROZEN_FLAG, Bool(false))
    case Err(e) => Written(attrs, Some(e))
    case Ok(open) =>
      var filled := WriteAll(open, inner);
      if filled.refusal.Some? then filled
      else if raised.Some? then Written(filled.attrs, raised)
      else match WriteAttr(filled.attrs, FROZEN_FLAG, Bool(true))
        case Err(e) => Written(filled.attrs, Some(e))
        case Ok(closed) => Written(closed, None)
  }

  /** `object.__init__`, where the cooperative chain ends: because
      `Immutable` overrides `__init__`, any positional or keyword argument
      left over for it raises `TypeError`. */
  function ObjectInit(leftover: nat): (r: Option<PyError>)
    ensures r.None? <==> leftover == 0
  {
    if leftover == 0 then None else Some(ArityError("object.__init__", 1, leftover + 1))
  }

  /** A completed `__init__` leaves the instance frozen, holding every
      attribute the initialisers set, and the chain raised nothing. On an
      unfrozen instance, initialisers that do not touch `_frozen` fail
      exactly when the chain raises, and then the instance keeps their
      writes, is not frozen, and the chain's exception propagates. */
  lemma InitFreezes(attrs: Attrs, inner: seq<(string, Value)>, raised: Option<PyError>)
    ensures InitOutcome(attrs, inner, raised).refusal.None? ==>
              Frozen(InitOutcome(attrs, inner, raised).attrs) && raised.None?
    ensures !Frozen(attrs) && AvoidsFlag(inner) ==>
              && (InitOutcome(attrs, inner, raised).refusal.None? <==> raised.None?)
              && (raised.Some? ==> InitOutcome(attrs, inner, raised).refusal == raised
                                   && !Frozen(InitOutcome(attrs, inner, raised).attrs))
              && forall k :: 0 <= k < |inner| ==> inner[k].0 in InitOutcome(attrs, inner, raised).attrs
  {
    if !Frozen(attrs) && AvoidsFlag(inner) {
      var open := attrs[FROZEN_FLAG := Bool(false)];
      UnfrozenWritesSucceed(open, inner);
    }
  }

  /** `C(*args, **kwargs)` for a direct subclass `C(Immutable)` without an
      `__init__` of its own: the chain reaches `object.__init__` at once, so
      construction completes, frozen, exactly when no argument is passed;
      otherwise it raises `TypeError` and leaves `_frozen` False. */
  lemma DirectSubclassInit(leftover: nat)
    ensures var out := InitOutcome(map[], [], ObjectInit(leftover));
            && (out.refusal.None? <==> leftover == 0)
            && (leftover == 0 ==> out.attrs == map[FROZEN_FLAG := Bool(true)])
            && (leftover > 0 ==> out.attrs == map[FROZEN_FLAG := Bool(false)] && out.refusal.value.ArityError?)
  {
    var open: Attrs := map[FROZEN_FLAG := Bool(false)];
    assert WriteAll(open, []) == Written(open, None);
    assert open[FROZEN_FLAG := Bool(true)] == map[FROZEN_FLAG := Bool(true)];
  }

  /** Calling `__init__` again on a constructed instance fails at its first
      line and changes nothing: the flag cannot be cleared once set. */
  lemma InitAgainRefused(attrs: Attrs, inner: seq<(string, Value)>, raised: Option<PyError>,
                         again: seq<(string, Value)>, raisedAgain: Option<PyError>)
    requires InitOutcome(attrs, inner, raised).refusal.None?
    ensures var built := InitOutcome(attrs, inner, raised).attrs;
            InitOutcome(built, again, raisedAgain) == Written(built, Some(ImmutableAttribute(Refusal(FROZEN_FLAG))))
  {
    InitFreezes(attrs, inner, raised);
  }

  /** An instance of an `Immutable` subclass. */
  class ImmutableObject {
    var attrs: Attrs

    /** A new instance, before `__init__` runs: no attributes. */
    constructor ()
      ensures attrs == map[]
    {
      attrs := map[];
    }

    /** `__setattr__`. */
    method SetAttr(key: string, value: Value) returns (r: Result<()>)
      modifies this
      ensures r.Err? <==> Frozen(old(attrs))
      ensures r.Err? ==> r.error == ImmutableAttribute(Refusal(key)) && attrs == old(attrs)
      ensures r.Ok? ==> attrs == old(attrs)[key := value]
    {
      if Frozen(attrs) {
        return Err(ImmutableAttribute(Refusal(key)));
      }
      attrs := attrs[key := value];
      r := Ok(());
    }

    /** `__init__`: `_frozen = False`, the cooperative initialisers'
        writes, each through `__setattr__`, then whatever the rest of the
        `super().__init__` chain raises, then `_frozen = True`. */
    method Init(inner: seq<(string, Value)>, raised: Option<PyError>) returns (r: Result<()>)
      modifies this
      ensures attrs == InitOutcome(old(attrs), inner, raised).attrs
      ensures r.Ok? <==> InitOutcome(old(attrs), inner, raised).refusal.None?
      ensures r.Err? ==> Some(r.error) == InitOutcome(old(attrs), inner, raised).refusal
    {
      r := SetAttr(FROZEN_FLAG, Bool(false));
      if r.Err? {
        return;
      }
      var filled := WriteAll(attrs, inner);
      attrs := filled.attrs;
      if filled.refusal.Some? {
        return Err(filled.refusal.value);
      }
      if raised.Some? {
        return Err(raised.value);
      }
      r := SetAttr(FROZEN_FLAG, Bool(true));
    }
  }
}
