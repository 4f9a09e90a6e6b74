/** `LogLevel`: six severities, each with an integer value, compared with
    each other or with plain integers through their values. */
module LogLevels {
  import opened Text

  datatype LogLevel = DEBUG | INFO | WARNING | ERROR | CRITICAL | EXCEPTION

  /** The levels in declaration order, least severe first. */
  const ALL_LEVELS: seq<LogLevel> := [DEBUG, INFO, WARNING, ERROR, CRITICAL, EXCEPTION]

  /** Where a level stands in declaration order. */
  function Position(l: LogLevel): (p: nat)
    ensures p < |ALL_LEVELS| && ALL_LEVELS[p] == l
  {
    match l
    case DEBUG => 0
    case INFO => 1
    case WARNING => 2
    case ERROR => 3
    case CRITICAL => 4
    case EXCEPTION => 5
  }

  /** The enum member's `.value`. */
  function Rank(l: LogLevel): (r: int)
    ensures r == 10 * (Position(l) + 1)
  {
    match l
    case DEBUG => 10
    case INFO => 20
    case WARNING => 30
    case ERROR => 40
    case CRITICAL => 50
    case EXCEPTION => 60
  }

  /** The enum member's `.name`, which is also `str(level)`. */
  function Name(l: LogLevel): string
  {
    match l
    case DEBUG => "DEBUG"
    case INFO => "INFO"
    case WARNING => "WARNING"
    case ERROR => "ERROR"
    case CRITICAL => "CRITICAL"
    case EXCEPTION => "EXCEPTION"
  }

  /** What the comparison operators accept on their right: another level
      or an `int`. */
  datatype Operand = Level(level: LogLevel) | Int(i: int)

  function OperandRank(o: Operand): int
  {
    match o
    case Level(l) => Rank(l)
    case Int(i) => i
  }

  /** `__eq__`: equal ranks. Between two levels that is identity. */
  function Eq(a: LogLevel, o: Operand): (r: bool)
    ensures o.Level? ==> (r <==> a == o.level)
    ensures o.Int? ==> (r <==> o.i == Rank(a))
  {
    Rank(a) == OperandRank(o)
  }

  /** `__ne__`: the negation of `__eq__`. */
  function Ne(a: LogLevel, o: Operand): (r: bool)
    ensures r <==> !Eq(a, o)
  {
    !Eq(a, o)
  }

  /** `__lt__`: between levels, earlier in declaration order. */
  function Lt(a: LogLevel, o: Operand): (r: bool)
    ensures o.Level? ==> (r <==> Position(a) < Position(o.level))
    ensures o.Int? ==> (r <==> Rank(a) < o.i)
  {
    Rank(a) < OperandRank(o)
  }

  /** `__le__`: less than or equal. */
  function Le(a: LogLevel, o: Operand): (r: bool)
    ensures r <==> Lt(a, o) || Eq(a, o)
  {
    Rank(a) <= OperandRank(o)
  }

  /** `__gt__`: the converse of `__le__`. */
  function Gt(a: LogLevel, o: Operand): (r: bool)
    ensures r <==> !Le(a, o)
    ensures o.Level? ==> (r <==> Lt(o.level, Level(a)))
  {
    Rank(a) > OperandRank(o)
  }

  /** `__ge__`: the converse of `__lt__`; the logger's filter. */
  function Ge(a: LogLevel, o: Operand): (r: bool)
    ensures r <==> !Lt(a, o)
    ensures o.Level? ==> (r <==> Position(a) >= Position(o.level))
  {
    Rank(a) >= OperandRank(o)
  }

  /** `__str__`: the member's upper-case name, which tells the levels
      apart. */
  function Str(l: LogLevel): (r: string)
    ensures r != [] && forall k :: 0 <= k < |r| ==> 'A' <= r[k] <= 'Z'
    ensures forall m: LogLevel :: Name(m) == r <==> m == l
  {
    Name(l)
  }

  /** `__repr__`: `[<value>, '<name>']`. */
  function Repr(l: LogLevel): string
  {
    "[" + IntToString(Rank(l)) + ", '" + Name(l) + "']"
  }

  /** Every `repr` has the same layout: the two-digit value at positions 1
      and 2, the name between the quotes, so both can be read back. */
  lemma ReprLayout(l: LogLevel)
    ensures var r := Repr(l);
            && |r| == |Name(l)| + 8
            && r[0] == '[' && r[3..6] == ", '" && r[|r| - 2..] == "']"
            && r[1..3] == [DigitChar(Position(l) + 1), '0']
            && r[6..|r| - 2] == Name(l)
  {
    RankText(l);
    var digits := IntToString(Rank(l));
    assert Repr(l) == "[" + (digits + (", '" + (Name(l) + "']")));
  }

  /** The `repr` strings of the three lower levels, spelled out. */
  lemma ReprTableLower()
    ensures Repr(DEBUG) == "[10, 'DEBUG']"
    ensures Repr(INFO) == "[20, 'INFO']"
    ensures Repr(WARNING) == "[30, 'WARNING']"
  {
    RankText(DEBUG);
    RankText(INFO);
    RankText(WARNING);
  }

  /** The `repr` strings of the three upper levels, spelled out. */
  lemma ReprTableUpper()
    ensures Repr(ERROR) == "[40, 'ERROR']"
    ensures Repr(CRITICAL) == "[50, 'CRITICAL']"
    ensures Repr(EXCEPTION) == "[60, 'EXCEPTION']"
  {
    RankText(ERROR);
    RankText(CRITICAL);
    RankText(EXCEPTION);
  }

  /** Every value is two digits, the second a zero. */
  lemma RankText(l: LogLevel)
    ensures IntToString(Rank(l)) == [DigitChar(Position(l) + 1), '0']
  {
    var d := Position(l) + 1;
    assert Rank(l) / 10 == d && Rank(l) % 10 == 0;
    assert NatToString(d) == [DigitChar(d)];
  }

  /** Between levels, `<` is a strict total order: irreflexive, transitive
      and total, and `>=` is exactly its complement. */
  lemma LevelsTotallyOrdered(a: LogLevel, b: LogLevel, c: LogLevel)
    ensures !Lt(a, Level(a))
    ensures Lt(a, Level(b)) && Lt(b, Level(c)) ==> Lt(a, Level(c))
    ensures a == b || Lt(a, Level(b)) || Lt(b, Level(a))
    ensures Ge(a, Level(b)) <==> !Lt(a, Level(b))
  {
  }

  /** Two different levels never share a name or a value. */
  lemma NamesAndRanksDistinct(a: LogLevel, b: LogLevel)
    requires a != b
    ensures Name(a) != Name(b) && Rank(a) != Rank(b)
  {
  }
}
