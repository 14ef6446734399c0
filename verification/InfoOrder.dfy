/** H5VL_provenance_info_cmp: the order on connector information, for stacks of any depth. */
module InfoOrder {
  import opened Results
  import opened CMachine
  import opened InfoString

  /** strcmp, by its sign. */
  function StrCmp(a: string, b: string): int {
    if a == [] then (if b == [] then 0 else -1)
    else if b == [] then 1
    else if a[0] < b[0] then -1
    else if a[0] > b[0] then 1
    else StrCmp(a[1..], b[1..])
  }

  /** H5VLcmp_connector_cls: connectors are told apart by their values. */
  function ClassCmp(a: Int32, b: Int32): int {
    if a < b then -1 else if a > b then 1 else 0
  }

  /** The subtraction of levels, kept in an int. */
  function LevelDifference(a: Int32, b: Int32): int {
    LowInt((a - b) % TWO_32)
  }

  /** The subtraction of levels as numbers. */
  function LevelOrder(a: Int32, b: Int32): int {
    a - b
  }

  /** How the connector with this value compares two of its own texts: given by that connector. */
  type Foreign = (Int32, string, string) -> int

  function Then(first: int, second: int): int {
    if first != 0 then first else second
  }

  /** The comparison decided by the first part that differs, the levels compared by `levels`. */
  function Compare(foreign: Foreign, levels: (Int32, Int32) -> int, a: Info, b: Info): int
    decreases a
  {
    Then(ClassCmp(a.value, b.value),
    Then(CompareUnder(foreign, levels, a.value, a.under, b.under),
    Then(StrCmp(a.path, b.path),
    Then(StrCmp(a.format, b.format), levels(a.level, b.level)))))
  }

  /** H5VLcmp_connector_info: missing information comes first; otherwise the connector compares. */
  function CompareUnder(foreign: Foreign, levels: (Int32, Int32) -> int, value: Int32, a: Under, b: Under): int
    decreases a
  {
    match (a, b)
    case (NoInfo, NoInfo) => 0
    case (NoInfo, _) => -1
    case (_, NoInfo) => 1
    case (Opaque(t), Opaque(u)) => foreign(value, t, u)
    case (Nested(m), Nested(n)) => Compare(foreign, levels, m, n)
    case (Opaque(_), Nested(_)) => -1
    case (Nested(_), Opaque(_)) => 1
  }

  /** info_cmp as written: each comparison overwrites the result, and the first that is not zero
      ends it. */
  method InfoCmp(foreign: Foreign, info1: Info, info2: Info) returns (cmpValue: int)
    ensures cmpValue == Compare(foreign, LevelDifference, info1, info2)
    decreases info1
  {
    cmpValue := 0;
    cmpValue := ClassCmp(info1.value, info2.value);
    if cmpValue != 0 { return; }
    if info1.under.Nested? && info2.under.Nested? {
      cmpValue := InfoCmp(foreign, info1.under.info, info2.under.info);
    } else {
      cmpValue := CompareUnder(foreign, LevelDifference, info1.value, info1.under, info2.under);
    }
    if cmpValue != 0 { return; }
    cmpValue := StrCmp(info1.path, info2.path);
    if cmpValue != 0 { return; }
    cmpValue := StrCmp(info1.format, info2.format);
    if cmpValue != 0 { return; }
    cmpValue := LevelDifference(info1.level, info2.level);
  }

  function Sign(i: int): int {
    if i < 0 then -1 else if i > 0 then 1 else 0
  }

  // ---- what the other connectors are trusted with ----

  /** Swapping the arguments swaps the sign. */
  ghost predicate Antisymmetric(foreign: Foreign) {
    forall v, t, u :: Sign(foreign(v, t, u)) == -Sign(foreign(v, u, t))
  }

  ghost predicate Transitive(foreign: Foreign) {
    forall v, t, u, w :: foreign(v, t, u) <= 0 && foreign(v, u, w) <= 0 ==> foreign(v, t, w) <= 0
  }

  ghost predicate Preorder(foreign: Foreign) {
    Antisymmetric(foreign) && Transitive(foreign)
  }

  ghost predicate ZeroOnEquals(foreign: Foreign) {
    forall v, t, u :: foreign(v, t, u) == 0 <==> t == u
  }

  // ---- one pass down a chain a, b, c of three ----

  /** What the comparisons of a with b, b with c and a with c owe each other. */
  predicate Chain(ab: int, bc: int, ac: int) {
    ab <= 0 && bc <= 0 ==> ac <= 0 && (ac == 0 ==> ab == 0 && bc == 0)
  }

  lemma PreorderChains(foreign: Foreign, v: Int32, t: string, u: string, w: string)
    requires Preorder(foreign)
    ensures Chain(foreign(v, t, u), foreign(v, u, w), foreign(v, t, w))
  {
    if foreign(v, t, u) <= 0 && foreign(v, u, w) <= 0 && foreign(v, t, w) == 0 {
      SignSwapped(foreign, v, t, w);
      SignSwapped(foreign, v, t, u);
      SignSwapped(foreign, v, u, w);
      assert foreign(v, w, t) <= 0;
      assert foreign(v, u, t) <= 0;
      assert foreign(v, w, u) <= 0;
    }
  }

  lemma SignSwapped(foreign: Foreign, v: Int32, t: string, u: string)
    requires Antisymmetric(foreign)
    ensures Sign(foreign(v, t, u)) == -Sign(foreign(v, u, t))
  {
  }

  lemma {:induction false} StrCmpOrder(a: string, b: string)
    ensures StrCmp(a, b) == 0 <==> a == b
    ensures StrCmp(a, b) == -StrCmp(b, a)
  {
    if a != [] && b != [] && a[0] == b[0] {
      StrCmpOrder(a[1..], b[1..]);
      assert a == [a[0]] + a[1..] && b == [b[0]] + b[1..];
    }
  }

  /** A proper prefix comes first, and otherwise the first difference decides. */
  lemma {:induction false} StrCmpMeans(a: string, b: string)
    ensures StrCmp(a, b) < 0 <==> a < b || exists i :: DiffersAt(a, b, i) && a[i] < b[i]
  {
    if a != [] && b != [] && a[0] == b[0] {
      StrCmpMeans(a[1..], b[1..]);
      assert a == [a[0]] + a[1..] && b == [b[0]] + b[1..];
      if i :| DiffersAt(a[1..], b[1..], i) && a[1..][i] < b[1..][i] {
        assert a[..i + 1] == [a[0]] + a[1..][..i] && b[..i + 1] == [b[0]] + b[1..][..i];
        assert DiffersAt(a, b, i + 1);
      }
      if i :| DiffersAt(a, b, i) && a[i] < b[i] {
        assert a[1..][..i - 1] == a[..i][1..] && b[1..][..i - 1] == b[..i][1..];
        assert DiffersAt(a[1..], b[1..], i - 1);
      }
    } else if a != [] && b != [] {
      assert DiffersAt(a, b, 0);
    }
  }

  ghost predicate DiffersAt(a: string, b: string, i: int) {
    0 <= i < |a| && i < |b| && a[..i] == b[..i] && a[i] != b[i]
  }

  lemma {:induction false} StrCmpChain(a: string, b: string, c: string)
    ensures Chain(StrCmp(a, b), StrCmp(b, c), StrCmp(a, c))
  {
    if a != [] && b != [] && c != [] && a[0] == b[0] == c[0] {
      StrCmpChain(a[1..], b[1..], c[1..]);
    }
  }

  // ---- the order ----

  /** Zero means equal in every part, for stacks of any depth and levels of any value, if it does for the
      other connectors. */
  lemma {:induction false} ZeroIffEqual(foreign: Foreign, a: Info, b: Info)
    requires ZeroOnEquals(foreign)
    ensures Compare(foreign, LevelDifference, a, b) == 0 <==> a == b
    decreases a
  {
    StrCmpOrder(a.path, b.path);
    StrCmpOrder(a.format, b.format);
    match (a.under, b.under)
    case (Opaque(t), Opaque(u)) => assert foreign(a.value, t, u) == 0 <==> t == u;
    case (Nested(m), Nested(n)) => ZeroIffEqual(foreign, m, n);
    case _ =>
  }

  /** How the connector with this value copies one of its own texts: given by that connector. */
  type Copier = (Int32, string) -> string

  /** What info_copy makes of information. */
  function Copy(copier: Copier, info: Info): Info {
    info.(under := match info.under
                   case NoInfo => NoInfo
                   case Opaque(t) => Opaque(copier(info.value, t))
                   case Nested(n) => Nested(Copy(copier, n)))
  }

  /** info_copy as written: a cleared structure, filled field by field. */
  method InfoCopy(copier: Copier, info: Info) returns (newInfo: Info)
    ensures newInfo == Copy(copier, info)
    decreases info
  {
    newInfo := Info(0, NoInfo, "", 0, "");
    newInfo := newInfo.(value := info.value);
    match info.under {
      case NoInfo =>
      case Opaque(t) => newInfo := newInfo.(under := Opaque(copier(newInfo.value, t)));
      case Nested(n) =>
        var below := InfoCopy(copier, n);
        newInfo := newInfo.(under := Nested(below));
    }
    newInfo := newInfo.(path := info.path);
    newInfo := newInfo.(format := info.format);
    newInfo := newInfo.(level := info.level);
  }

  /** A copy compares equal to its original, if the other connectors' copies do. */
  lemma {:induction false} CopyIsEqual(foreign: Foreign, copier: Copier, a: Info)
    requires forall v, t :: foreign(v, t, copier(v, t)) == 0
    ensures Compare(foreign, LevelDifference, a, Copy(copier, a)) == 0
    decreases a
  {
    StrCmpOrder(a.path, a.path);
    StrCmpOrder(a.format, a.format);
    if a.under.Nested? { CopyIsEqual(foreign, copier, a.under.info); }
  }

  /** Comparing levels as they are or in an int, the same information is equal. */
  lemma {:induction false} ZeroAgrees(foreign: Foreign, a: Info, b: Info)
    ensures Compare(foreign, LevelDifference, a, b) == 0 <==> Compare(foreign, LevelOrder, a, b) == 0
    decreases a
  {
    match (a.under, b.under)
    case (Nested(m), Nested(n)) => ZeroAgrees(foreign, m, n);
    case _ =>
  }

  /** Below connectors of the same class: missing information comes first; of two texts the other
      connector's own comparison decides, in this order and with its sign; of two provenance connectors
      their comparison. */
  lemma BelowDecides(foreign: Foreign, a: Info, b: Info)
    requires a.value == b.value
    ensures a.under.NoInfo? && !b.under.NoInfo? ==> Compare(foreign, LevelDifference, a, b) < 0
    ensures !a.under.NoInfo? && b.under.NoInfo? ==> Compare(foreign, LevelDifference, a, b) > 0
    ensures a.under.Opaque? && b.under.Opaque? && foreign(a.value, a.under.text, b.under.text) != 0 ==>
              Compare(foreign, LevelDifference, a, b) == foreign(a.value, a.under.text, b.under.text)
    ensures a.under.Nested? && b.under.Nested? && Compare(foreign, LevelDifference, a.under.info, b.under.info) != 0
            ==> Compare(foreign, LevelDifference, a, b)
                == Compare(foreign, LevelDifference, a.under.info, b.under.info)
  {
  }

  /** What is below the two connectors compares as equal. */
  predicate EqualBelow(foreign: Foreign, a: Info, b: Info) {
    match (a.under, b.under)
    case (NoInfo, NoInfo) => true
    case (Opaque(t), Opaque(u)) => foreign(a.value, t, u) == 0
    case (Nested(m), Nested(n)) => Compare(foreign, LevelDifference, m, n) == 0
    case _ => false
  }

  /** The connector class decides first; when that and what is below are equal the path decides, then the
      format, then the level. */
  lemma FirstDifferenceDecides(foreign: Foreign, a: Info, b: Info)
    ensures a.value != b.value ==> (Compare(foreign, LevelDifference, a, b) < 0 <==> a.value < b.value)
    ensures a.value == b.value && EqualBelow(foreign, a, b) ==>
              && (a.path != b.path ==> Compare(foreign, LevelDifference, a, b) == StrCmp(a.path, b.path))
              && (a.path == b.path && a.format != b.format
                  ==> Compare(foreign, LevelDifference, a, b) == StrCmp(a.format, b.format))
              && (a.path == b.path && a.format == b.format
                  ==> Compare(foreign, LevelDifference, a, b) == LevelDifference(a.level, b.level))
  {
    StrCmpOrder(a.path, b.path);
    StrCmpOrder(a.format, b.format);
  }

  /** With levels compared as numbers, swapping the arguments swaps the sign. */
  lemma {:induction false} OrderSignSwaps(foreign: Foreign, a: Info, b: Info)
    requires Antisymmetric(foreign)
    ensures Sign(Compare(foreign, LevelOrder, a, b)) == -Sign(Compare(foreign, LevelOrder, b, a))
    decreases a
  {
    StrCmpOrder(a.path, b.path);
    StrCmpOrder(a.format, b.format);
    match (a.under, b.under)
    case (Opaque(t), Opaque(u)) => SignSwapped(foreign, a.value, t, u);
    case (Nested(m), Nested(n)) => OrderSignSwaps(foreign, m, n);
    case _ =>
  }

  /** With levels compared as numbers, the comparison chains. */
  lemma {:induction false} OrderChain(foreign: Foreign, a: Info, b: Info, c: Info)
    requires Preorder(foreign)
    ensures Chain(Compare(foreign, LevelOrder, a, b), Compare(foreign, LevelOrder, b, c),
                  Compare(foreign, LevelOrder, a, c))
    decreases a
  {
    if a.value == b.value == c.value {
      StrCmpChain(a.path, b.path, c.path);
      StrCmpChain(a.format, b.format, c.format);
      UnderChain(foreign, a.value, a.under, b.under, c.under);
    }
  }

  lemma {:induction false} UnderChain(foreign: Foreign, v: Int32, a: Under, b: Under, c: Under)
    requires Preorder(foreign)
    ensures Chain(CompareUnder(foreign, LevelOrder, v, a, b), CompareUnder(foreign, LevelOrder, v, b, c),
                  CompareUnder(foreign, LevelOrder, v, a, c))
    decreases a
  {
    match (a, b, c)
    case (Opaque(t), Opaque(u), Opaque(w)) => PreorderChains(foreign, v, t, u, w);
    case (Nested(l), Nested(m), Nested(n)) => OrderChain(foreign, l, m, n);
    case _ =>
  }

  // ---- where the code meets the order ----

  /** The difference of the levels that the comparison comes down to, if it does. */
  function Deciding(foreign: Foreign, a: Info, b: Info): Option<int>
    decreases a
  {
    if a.value != b.value then None
    else if CompareUnder(foreign, LevelDifference, a.value, a.under, b.under) != 0 then
      if a.under.Nested? && b.under.Nested? then Deciding(foreign, a.under.info, b.under.info) else None
    else if a.path != b.path || a.format != b.format then None
    else Some(a.level - b.level)
  }

  /** It does not fit an int. */
  predicate Overflows(foreign: Foreign, a: Info, b: Info) {
    var d := Deciding(foreign, a, b);
    d.Some? && !(-TWO_31 <= d.value < TWO_31)
  }

  /** Main result on the comparison: info_cmp has the sign of the order if and only if no deciding
      difference of levels overflows, however the other connectors compare. */
  lemma {:induction false} SignIff(foreign: Foreign, a: Info, b: Info)
    ensures Sign(Compare(foreign, LevelDifference, a, b)) == Sign(Compare(foreign, LevelOrder, a, b))
            <==> !Overflows(foreign, a, b)
    decreases a
  {
    StrCmpOrder(a.path, b.path);
    StrCmpOrder(a.format, b.format);
    match (a.under, b.under)
    case (Nested(m), Nested(n)) => SignIff(foreign, m, n); ZeroAgrees(foreign, m, n);
    case _ =>
  }

  /** Swapping the arguments of info_cmp swaps the sign if and only if the deciding levels, if any, do not
      differ by 2^31 exactly. */
  lemma {:induction false} SignSwapsIff(foreign: Foreign, a: Info, b: Info)
    requires Antisymmetric(foreign)
    ensures Sign(Compare(foreign, LevelDifference, a, b)) == -Sign(Compare(foreign, LevelDifference, b, a))
            <==> Deciding(foreign, a, b) != Some(TWO_31) && Deciding(foreign, a, b) != Some(-TWO_31)
    decreases a
  {
    StrCmpOrder(a.path, b.path);
    StrCmpOrder(a.format, b.format);
    LevelsSwap(a.level, b.level);
    match (a.under, b.under)
    case (Opaque(t), Opaque(u)) => SignSwapped(foreign, a.value, t, u);
    case (Nested(m), Nested(n)) => SignSwapsIff(foreign, m, n); ZeroSwaps(foreign, m, n);
    case _ =>
  }

  lemma LevelsSwap(a: Int32, b: Int32)
    ensures Sign(LevelDifference(a, b)) == -Sign(LevelDifference(b, a)) <==> a - b != TWO_31 && a - b != -TWO_31
    ensures LevelDifference(a, b) == 0 <==> a == b
  {
    DifferenceIs(a, b);
    DifferenceIs(b, a);
  }

  lemma DifferenceIs(a: Int32, b: Int32)
    ensures var d := a as int - b as int;
            LevelDifference(a, b) == if d < -TWO_31 then d + TWO_32 else if d < TWO_31 then d else d - TWO_32
  {
    var d := a as int - b as int;
    assert d % TWO_32 == if d < 0 then d + TWO_32 else d;
  }

  lemma ZeroSwaps(foreign: Foreign, a: Info, b: Info)
    requires Antisymmetric(foreign)
    ensures Compare(foreign, LevelDifference, a, b) == 0 <==> Compare(foreign, LevelDifference, b, a) == 0
  {
    ZeroAgrees(foreign, a, b);
    ZeroAgrees(foreign, b, a);
    OrderSignSwaps(foreign, a, b);
  }

  /** info_cmp is transitive on any information, wherever no deciding difference overflows. */
  lemma TransitiveUnlessOverflow(foreign: Foreign, a: Info, b: Info, c: Info)
    requires Preorder(foreign)
    requires !Overflows(foreign, a, b) && !Overflows(foreign, b, c) && !Overflows(foreign, a, c)
    ensures Compare(foreign, LevelDifference, a, b) <= 0 && Compare(foreign, LevelDifference, b, c) <= 0
            ==> Compare(foreign, LevelDifference, a, c) <= 0
  {
    SignIff(foreign, a, b);
    SignIff(foreign, b, c);
    SignIff(foreign, a, c);
    OrderChain(foreign, a, b, c);
  }

  /** The values of the enumeration Prov_level, at every level of the stack. */
  predicate LevelsInRange(info: Info) {
    0 <= info.level <= 6 && (info.under.Nested? ==> LevelsInRange(info.under.info))
  }

  lemma {:induction false} SmallDifference(foreign: Foreign, a: Info, b: Info)
    requires LevelsInRange(a) && LevelsInRange(b)
    ensures Deciding(foreign, a, b).Some? ==> -6 <= Deciding(foreign, a, b).value <= 6
    decreases a
  {
    if a.under.Nested? && b.under.Nested? {
      SmallDifference(foreign, a.under.info, b.under.info);
    }
  }

  /** So info_cmp is a total preorder on connector stacks of any depth whose levels are values of the
      enumeration, given that the other connectors' comparisons are. */
  lemma InfoCmpIsTotalPreorder(foreign: Foreign, a: Info, b: Info, c: Info)
    requires Preorder(foreign) && LevelsInRange(a) && LevelsInRange(b) && LevelsInRange(c)
    ensures Sign(Compare(foreign, LevelDifference, a, b)) == -Sign(Compare(foreign, LevelDifference, b, a))
    ensures Compare(foreign, LevelDifference, a, b) <= 0 && Compare(foreign, LevelDifference, b, c) <= 0
            ==> Compare(foreign, LevelDifference, a, c) <= 0
  {
    SmallDifference(foreign, a, b);
    SmallDifference(foreign, b, c);
    SmallDifference(foreign, a, c);
    SignSwapsIff(foreign, a, b);
    TransitiveUnlessOverflow(foreign, a, b, c);
  }

  /** The parser accepts any int as a level; the greatest one then compares as before -1. */
  lemma LevelsOverflow(foreign: Foreign)
    ensures var a, b := Info(0, NoInfo, "p", TWO_31 - 1, "f"), Info(0, NoInfo, "p", -1, "f");
            Compare(foreign, LevelDifference, a, b) < 0 && 0 < Compare(foreign, LevelOrder, a, b)
  {
    StrCmpOrder("p", "p");
    StrCmpOrder("f", "f");
  }
}
