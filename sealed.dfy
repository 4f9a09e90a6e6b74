/** `Sealed`: class definition as a registry of class objects. Creating a
    class first linearises its bases, which fails with a `TypeError` for a
    duplicated base or a base listed before one of its own descendants;
    only then, when `Sealed` is among its ancestors, does
    `__init_subclass__` run, and it looks up `_is_sealed` on the FIRST
    declared base only: a true flag rejects the definition, otherwise the
    new class gets its own flag set to true. */
module Sealed {
  import opened Text
  import opened Exceptions

  /** A class object: its name, the ids of its declared bases, the ids of
      the classes in its method resolution order (itself included), and
      its own `_is_sealed` attribute, if it has one. */
  datatype ClassInfo = ClassInfo(name: string, bases: seq<nat>, ancestors: set<nat>, sealedFlag: Option<bool>)

  const OBJECT: nat := 0
  const SEALED: nat := 1

  /** The registry before any user class: `object`, and `Sealed` with its
      class attribute `_is_sealed = False`. */
  const BUILTINS: seq<ClassInfo> :=
    [ClassInfo("object", [], {OBJECT}, None), ClassInfo("Sealed", [OBJECT], {OBJECT, SEALED}, Some(false))]

  /** Whether `Sealed` is among the class's ancestors, itself included. */
  predicate InHierarchy(c: ClassInfo)
  {
    SEALED in c.ancestors
  }

  /** Registry shape kept by every definition: the two built-in classes
      first; every class among its own ancestors; a class carries its own
      `_is_sealed` exactly when it is in the `Sealed` hierarchy, and that
      flag is true for every such class but `Sealed` itself. */
  predicate Consistent(classes: seq<ClassInfo>)
  {
    && |classes| >= 2 && classes[..2] == BUILTINS
    && forall i :: 0 <= i < |classes| ==>
         && i in classes[i].ancestors
         && (classes[i].sealedFlag.Some? <==> InHierarchy(classes[i]))
         && (i != SEALED && InHierarchy(classes[i]) ==> classes[i].sealedFlag == Some(true))
  }

  predicate KnownBases(classes: seq<ClassInfo>, declared: seq<nat>)
  {
    forall b :: b in declared ==> b < |classes|
  }

  /** `class Name(*declared)`: no declared base means `object`. */
  function BasesOf(declared: seq<nat>): (bases: seq<nat>)
    ensures bases != []
    ensures forall b :: b in bases ==> b in declared || b == OBJECT
  {
    if declared == [] then [OBJECT] else declared
  }

  const DUPLICATE_BASE: string := "duplicate base class"
  const MRO_CONFLICT: string := "Cannot create a consistent method resolution order (MRO)"

  /** The base list names the same class twice. */
  predicate HasDuplicate(bases: seq<nat>)
  {
    exists i, j :: 0 <= i < j < |bases| && bases[i] == bases[j]
  }

  /** A base is listed before one of its own descendants, which no method
      resolution order can honour. */
  predicate AncestorFirst(classes: seq<ClassInfo>, bases: seq<nat>)
    requires KnownBases(classes, bases)
  {
    exists i, j :: 0 <= i < j < |bases| && bases[j] < |classes| && bases[i] in classes[bases[j]].ancestors
  }

  /** The linearisation `type.__new__` performs before any hook runs:
      duplicates are reported first, then an ancestor listed ahead of its
      descendant. */
  function BaseListError(classes: seq<ClassInfo>, bases: seq<nat>): (r: Option<PyError>)
    requires KnownBases(classes, bases)
    ensures r.None? <==> !HasDuplicate(bases) && !AncestorFirst(classes, bases)
    ensures r.Some? ==> IsTypeError(r.value)
    ensures HasDuplicate(bases) ==> r == Some(BaseListConflict(DUPLICATE_BASE))
  {
    if HasDuplicate(bases) then Some(BaseListConflict(DUPLICATE_BASE))
    else if AncestorFirst(classes, bases) then Some(BaseListConflict(MRO_CONFLICT))
    else None
  }

  /** The ancestors of a new class with these bases: itself and every
      ancestor of every base. */
  function AncestorsOf(classes: seq<ClassInfo>, id: nat, bases: seq<nat>): (r: set<nat>)
    requires KnownBases(classes, bases)
    ensures id in r
    ensures forall b :: b in bases ==> classes[b].ancestors <= r
  {
    {id} + set b, x | b in bases && b < |classes| && x in classes[b].ancestors :: x
  }

  /** Whether the hook runs: some base is in the `Sealed` hierarchy. */
  predicate Hooked(classes: seq<ClassInfo>, bases: seq<nat>)
    requires KnownBases(classes, bases)
  {
    exists b :: b in bases && InHierarchy(classes[b])
  }

  function RejectionMessage(baseName: string): string
  {
    "The class '" + baseName + "' cannot be inherited since it is sealed"
  }

  /** The error the hook means to raise: a `SealedClassError` with the
      default status and the message naming the sealed base. */
  function Rejection(baseName: string): (e: SealedClassError)
    ensures e.message == Str(RejectionMessage(baseName))
    ensures e.statusCode == Status(INTERNAL_SERVER_ERROR)
  {
    SealedClassError(Status(INTERNAL_SERVER_ERROR), Str(RejectionMessage(baseName)))
  }

  /** The rejection as the hook writes it: `SealedClassError(message)`,
      one argument against a constructor that takes two. */
  function RejectionAsWritten(baseName: string): Result<SealedClassError>
  {
    NewSealedClassError([Str(RejectionMessage(baseName))])
  }

  /** The call as written never builds a `SealedClassError`: what reaches
      the caller is the arity `TypeError`, whose text carries no class name. */
  lemma RejectionAsWrittenRaisesArityError(baseName: string)
    ensures RejectionAsWritten(baseName) == Err(ArityError("SealedClassError", 2, 1))
    ensures RejectionAsWritten(baseName).error != SealedClass(Rejection(baseName))
  {
    SealedClassErrorNeedsTwoArguments(Str(RejectionMessage(baseName)));
  }

  /** The corrected rejection renders as "500 - " followed by its message. */
  lemma RejectionRenders(baseName: string)
    ensures SealedClassErrorStr(Rejection(baseName)) == Ok("500 - " + RejectionMessage(baseName))
  {
    Status500();
    assert IntToString(500) + " - " + RejectionMessage(baseName) == "500 - " + RejectionMessage(baseName);
  }

  /** Creating the class, then the hook's verdict on it, with the
      rejection either as written or corrected. */
  function DefineWith(classes: seq<ClassInfo>, name: string, declared: seq<nat>, asWritten: bool): (r: Result<seq<ClassInfo>>)
    requires |classes| >= 1 && KnownBases(classes, declared)
    ensures BaseListError(classes, BasesOf(declared)).Some? ==> r == Err(BaseListError(classes, BasesOf(declared)).value)
    ensures r.Ok? ==> |r.value| == |classes| + 1 && r.value[..|classes|] == classes
    ensures r.Ok? ==> && r.value[|classes|].name == name
                      && r.value[|classes|].bases == BasesOf(declared)
                      && r.value[|classes|].ancestors == AncestorsOf(classes, |classes|, BasesOf(declared))
    ensures r.Ok? ==> (r.value[|classes|].sealedFlag.Some? <==> Hooked(classes, BasesOf(declared)))
    ensures r.Ok? && Hooked(classes, BasesOf(declared)) ==> r.value[|classes|].sealedFlag == Some(true)
  {
    var bases := BasesOf(declared);
    match BaseListError(classes, bases)
    case Some(e) => Err(e)
    case None =>
      var ancestors := AncestorsOf(classes, |classes|, bases);
      if !Hooked(classes, bases) then Ok(classes + [ClassInfo(name, bases, ancestors, None)])
      else
        assert bases[0] in bases;
        var first := classes[bases[0]];
        match first.sealedFlag
        case None => Err(AttributeError(first.name, "_is_sealed"))
        case Some(flag) =>
          if flag then
            (if asWritten then Err(RejectionAsWritten(first.name).error) else Err(SealedClass(Rejection(first.name))))
          else Ok(classes + [ClassInfo(name, bases, ancestors, Some(true))])
  }

  /** The definition as the hook evidently intends it: the same verdict as
      written, except that a sealed first base raises the `SealedClassError`
      naming it. */
  function Define(classes: seq<ClassInfo>, name: string, declared: seq<nat>): (r: Result<seq<ClassInfo>>)
    requires |classes| >= 1 && KnownBases(classes, declared)
    ensures r.Ok? <==> DefineAsWritten(classes, name, declared).Ok?
    ensures r.Ok? ==> r == DefineAsWritten(classes, name, declared)
    ensures r.Err? && !r.error.SealedClass? ==> r == DefineAsWritten(classes, name, declared)
  {
    RejectionOnlyDiffers(classes, name, declared);
    DefineWith(classes, name, declared, false)
  }

  /** The definition as the hook is written: it never raises a
      `SealedClassError`, since the call that should build one fails first. */
  function DefineAsWritten(classes: seq<ClassInfo>, name: string, declared: seq<nat>): (r: Result<seq<ClassInfo>>)
    requires |classes| >= 1 && KnownBases(classes, declared)
    ensures r.Err? ==> !r.error.SealedClass?
  {
    RejectionAsWrittenRaisesArityError(if declared == [] || declared[0] >= |classes| then "" else classes[declared[0]].name);
    DefineWith(classes, name, declared, true)
  }

  /** The two readings of the hook reach the same verdict except where the
      corrected one raises its `SealedClassError`. */
  lemma RejectionOnlyDiffers(classes: seq<ClassInfo>, name: string, declared: seq<nat>)
    requires |classes| >= 1 && KnownBases(classes, declared)
    ensures var fixed := DefineWith(classes, name, declared, false);
            var written := DefineWith(classes, name, declared, true);
            && (fixed.Ok? <==> written.Ok?)
            && (fixed.Ok? ==> fixed == written)
            && (fixed.Err? && !fixed.error.SealedClass? ==> fixed == written)
  {
    var bases := BasesOf(declared);
    if BaseListError(classes, bases).None? && Hooked(classes, bases) {
      assert bases[0] in bases;
      var first := classes[bases[0]];
      if first.sealedFlag == Some(true) {
        RejectionAsWrittenRaisesArityError(first.name);
      }
    }
  }

  /** As written, subclassing a sealed class fails with the arity error,
      where the corrected hook raises the `SealedClassError` naming the
      base; both reject the class. */
  lemma SealedSubclassAsWritten(classes: seq<ClassInfo>, name: string, sealedId: nat)
    requires Consistent(classes) && sealedId < |classes|
    requires classes[sealedId].sealedFlag == Some(true)
    ensures DefineAsWritten(classes, name, [sealedId]) == Err(ArityError("SealedClassError", 2, 1))
    ensures Define(classes, name, [sealedId]) == Err(SealedClass(Rejection(classes[sealedId].name)))
  {
    assert sealedId in [sealedId];
    assert InHierarchy(classes[sealedId]);
    assert Hooked(classes, [sealedId]);
  }

  /** A new class is in the hierarchy exactly when one of its bases is. */
  lemma AncestorsInHierarchy(classes: seq<ClassInfo>, id: nat, bases: seq<nat>)
    requires KnownBases(classes, bases) && id != SEALED
    ensures SEALED in AncestorsOf(classes, id, bases) <==> Hooked(classes, bases)
  {
    if Hooked(classes, bases) {
      var b :| b in bases && InHierarchy(classes[b]);
      assert classes[b].ancestors <= AncestorsOf(classes, id, bases);
    }
    if SEALED in AncestorsOf(classes, id, bases) {
      var b, x :| b in bases && b < |classes| && x in classes[b].ancestors && x == SEALED;
      assert InHierarchy(classes[b]);
    }
  }

  /** Every definition keeps the registry consistent. */
  lemma DefinePreservesConsistent(classes: seq<ClassInfo>, name: string, declared: seq<nat>)
    requires Consistent(classes) && KnownBases(classes, declared)
    ensures Define(classes, name, declared).Ok? ==> Consistent(Define(classes, name, declared).value)
  {
    var r := Define(classes, name, declared);
    if r.Ok? {
      var next := r.value;
      var n := |classes|;
      AncestorsInHierarchy(classes, n, BasesOf(declared));
      assert next[..2] == classes[..2] by {
        assert next[..n] == classes;
      }
      forall i | 0 <= i < |next|
        ensures && i in next[i].ancestors
                && (next[i].sealedFlag.Some? <==> InHierarchy(next[i]))
                && (i != SEALED && InHierarchy(next[i]) ==> next[i].sealedFlag == Some(true))
      {
        if i < n {
          assert next[i] == next[..n][i];
        }
      }
    }
  }

  /** A class whose first base is `Sealed` is accepted, and is sealed. */
  lemma DirectSubclassOfSealedAccepted(classes: seq<ClassInfo>, name: string)
    requires Consistent(classes)
    ensures Define(classes, name, [SEALED]).Ok?
    ensures var next := Define(classes, name, [SEALED]).value;
            next[|classes|] == ClassInfo(name, [SEALED], {|classes|, OBJECT, SEALED}, Some(true))
  {
    assert classes[SEALED] == classes[..2][1];
    assert SEALED in [SEALED];
    assert !HasDuplicate([SEALED]);
    assert !AncestorFirst(classes, [SEALED]);
    assert AncestorsOf(classes, |classes|, [SEALED]) == {|classes|, OBJECT, SEALED};
  }

  /** A class outside the hierarchy gets no hook: it is accepted exactly
      when its bases linearise, and gets no flag of its own. */
  lemma PlainClassUnflagged(classes: seq<ClassInfo>, name: string, declared: seq<nat>)
    requires Consistent(classes) && KnownBases(classes, declared)
    requires forall b :: b in declared ==> !InHierarchy(classes[b])
    ensures Define(classes, name, declared).Ok? <==> BaseListError(classes, BasesOf(declared)).None?
    ensures Define(classes, name, declared).Ok? ==> Define(classes, name, declared).value[|classes|].sealedFlag == None
  {
    assert classes[OBJECT] == classes[..2][0];
  }

  /** A class whose bases linearise and whose first base is sealed is
      rejected: by the corrected hook with the `SealedClassError` naming that
      base, as written with the arity error. */
  lemma SealedFirstBaseRejected(classes: seq<ClassInfo>, name: string, declared: seq<nat>)
    requires Consistent(classes) && KnownBases(classes, declared)
    requires declared != [] && declared[0] < |classes| && classes[declared[0]].sealedFlag == Some(true)
    ensures BaseListError(classes, declared).None? ==>
              && Define(classes, name, declared) == Err(SealedClass(Rejection(classes[declared[0]].name)))
              && DefineAsWritten(classes, name, declared) == Err(ArityError("SealedClassError", 2, 1))
    ensures BaseListError(classes, declared).Some? ==> Define(classes, name, declared) == Err(BaseListError(classes, declared).value)
  {
    assert declared[0] in declared;
    assert InHierarchy(classes[declared[0]]);
  }

  /** No definition that names a sealed class among its bases, in any
      position, is accepted, as written or corrected: a sealed first base
      is rejected by the hook; `Sealed` listed first is an ancestor of the
      sealed base and fails the linearisation; any other first base is
      outside the hierarchy and has no `_is_sealed` to look up. */
  lemma SealedBaseNeverAccepted(classes: seq<ClassInfo>, name: string, declared: seq<nat>, k: nat)
    requires Consistent(classes) && KnownBases(classes, declared)
    requires k < |declared| && declared[k] < |classes| && classes[declared[k]].sealedFlag == Some(true)
    ensures !Define(classes, name, declared).Ok?
    ensures !DefineAsWritten(classes, name, declared).Ok?
  {
    assert declared[k] in declared;
    assert InHierarchy(classes[declared[k]]);
    assert Hooked(classes, declared);
    assert declared[0] in declared;
    var first := declared[0];
    if classes[first].sealedFlag == Some(false) {
      assert first == SEALED;
      assert k != 0;
      assert AncestorFirst(classes, declared) by {
        assert 0 < k && declared[0] in classes[declared[k]].ancestors;
      }
    }
  }

  /** Only the first base's flag is read: with the bases linearised and
      some base in the hierarchy, a first base outside it raises an
      `AttributeError` for `_is_sealed`, whatever the later bases are. */
  lemma FirstBaseOutsideHierarchy(classes: seq<ClassInfo>, name: string, declared: seq<nat>, k: nat)
    requires Consistent(classes) && KnownBases(classes, declared)
    requires k < |declared| && declared[k] < |classes| && InHierarchy(classes[declared[k]])
    requires declared[0] < |classes| && !InHierarchy(classes[declared[0]])
    requires BaseListError(classes, declared).None?
    ensures Define(classes, name, declared) == Err(AttributeError(classes[declared[0]].name, "_is_sealed"))
    ensures DefineAsWritten(classes, name, declared) == Define(classes, name, declared)
  {
    assert declared[k] in declared;
    assert declared[0] in declared;
  }

  /** Base lists Python refuses before the hook can run: `Sealed` twice,
      `object` ahead of `Sealed`, and `Sealed` ahead of a sealed subclass. */
  lemma BaseListConflicts(classes: seq<ClassInfo>, name: string, sealedId: nat)
    requires Consistent(classes) && sealedId < |classes|
    requires classes[sealedId].sealedFlag == Some(true)
    ensures Define(classes, name, [SEALED, SEALED]) == Err(BaseListConflict(DUPLICATE_BASE))
    ensures Define(classes, name, [OBJECT, SEALED]) == Err(BaseListConflict(MRO_CONFLICT))
    ensures Define(classes, name, [SEALED, sealedId]) == Err(BaseListConflict(MRO_CONFLICT))
  {
    assert classes[SEALED] == classes[..2][1];
    assert [SEALED, SEALED][0] == [SEALED, SEALED][1];
    assert !HasDuplicate([OBJECT, SEALED]);
    assert [OBJECT, SEALED][0] in classes[[OBJECT, SEALED][1]].ancestors;
    assert InHierarchy(classes[sealedId]) && sealedId != SEALED;
    assert !HasDuplicate([SEALED, sealedId]);
    assert [SEALED, sealedId][0] in classes[[SEALED, sealedId][1]].ancestors;
  }

  /** One level of inheritance below `Sealed`, then closed: after `A(Sealed)`
      is defined, the corrected hook rejects `B(A)` naming `A`, and the hook
      as written rejects it with the arity error. */
  lemma OneLevelThenClosed(classes: seq<ClassInfo>, a: string, b: string)
    requires Consistent(classes)
    ensures Define(classes, a, [SEALED]).Ok?
    ensures var next := Define(classes, a, [SEALED]).value;
            && Define(next, b, [|classes|]) == Err(SealedClass(Rejection(a)))
            && DefineAsWritten(next, b, [|classes|]) == Err(ArityError("SealedClassError", 2, 1))
  {
    DirectSubclassOfSealedAccepted(classes, a);
    DefinePreservesConsistent(classes, a, [SEALED]);
    var next := Define(classes, a, [SEALED]).value;
    SealedSubclassAsWritten(next, b, |classes|);
  }

  /** The running interpreter's class objects. */
  class Registry {
    var classes: seq<ClassInfo>

    constructor ()
      ensures classes == BUILTINS
    {
      classes := BUILTINS;
    }

    /** Defining a class: its bases linearised, then `__init_subclass__`
        if it is in the hierarchy, with the corrected rejection. A refused
        definition leaves the registry unchanged; an accepted one appends
        the class, whose id is returned. */
    method DefineClass(name: string, declared: seq<nat>) returns (r: Result<nat>)
      requires |classes| >= 1 && KnownBases(classes, declared)
      modifies this
      ensures r.Ok? <==> Define(old(classes), name, declared).Ok?
      ensures r.Ok? ==> classes == Define(old(classes), name, declared).value && r.value == |old(classes)|
      ensures r.Err? ==> classes == old(classes) && r.error == Define(old(classes), name, declared).error
    {
      var bases := BasesOf(declared);
      var conflict := BaseListError(classes, bases);
      if conflict.Some? {
        return Err(conflict.value);
      }
      var ancestors := AncestorsOf(classes, |classes|, bases);
      if !Hooked(classes, bases) {
        classes := classes + [ClassInfo(name, bases, ancestors, None)];
        return Ok(|classes| - 1);
      }
      assert bases[0] in bases;
      var first := classes[bases[0]];
      if first.sealedFlag.None? {
        return Err(AttributeError(first.name, "_is_sealed"));
      }
      if first.sealedFlag.value {
        return Err(SealedClass(Rejection(first.name)));
      }
      classes := classes + [ClassInfo(name, bases, ancestors, Some(true))];
      r := Ok(|classes| - 1);
    }
  }
}
