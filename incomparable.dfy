/** `Incomparable`: the six comparison operators and `hash` all raise an
    `IncomparableObjectError` naming the instance's own class. */
module Incomparable {
  import opened Exceptions

  datatype Comparison = Eq | Ne | Lt | Le | Gt | Ge

  const COMPARE_SUFFIX: string := " objects cannot be compared"
  const HASH_SUFFIX: string := " objects cannot be hashed"

  /** `self.<op>(other)` on an instance of the class `className`: whatever
      the operator and the other operand, an error naming the class. */
  function Compare(className: string, op: Comparison, other: Value): (r: Result<bool>)
    ensures r.Err? && r.error.IncomparableObject?
    ensures r.error.message == className + COMPARE_SUFFIX
  {
    Err(IncomparableObject(className + COMPARE_SUFFIX))
  }

  /** `hash(self)`. */
  function Hash(className: string): (r: Result<int>)
    ensures r.Err? && r.error.IncomparableObject?
    ensures r.error.message == className + HASH_SUFFIX
  {
    Err(IncomparableObject(className + HASH_SUFFIX))
  }

  /** The class name can be read back from either message, and the two
      messages never coincide, so a handler can tell a comparison from a
      hash and name the class involved. */
  lemma MessagesNameTheClass(className: string, op: Comparison, other: Value)
    ensures var m := Compare(className, op, other).error.message;
            |m| >= |COMPARE_SUFFIX| && m[..|m| - |COMPARE_SUFFIX|] == className
    ensures var m := Hash(className).error.message;
            |m| >= |HASH_SUFFIX| && m[..|m| - |HASH_SUFFIX|] == className
    ensures Compare(className, op, other).error.message != Hash(className).error.message
  {
    var c := className + COMPARE_SUFFIX;
    var h := className + HASH_SUFFIX;
    assert c[|className| + 19] == COMPARE_SUFFIX[19] == 'c';
    assert h[|className| + 19] == HASH_SUFFIX[19] == 'h';
  }

  /** Reflexive comparison is refused like any other: `x == x` does not
      hold, and neither does `x != x`. */
  lemma ReflexiveComparisonRefused(className: string, self: Value)
    ensures Compare(className, Eq, self) == Compare(className, Ne, self)
    ensures !(Compare(className, Eq, self) == Ok(true))
  {
  }
}
