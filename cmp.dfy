/** A model of the comparison primitives of Rust's `core::cmp`: the
    three-valued `Ordering`, its `reverse`, the order of `Ordering` itself,
    total comparison of integers (directly and through `&mut` references),
    and the partial-order extrema `partial_min` and `partial_max`, generic
    over a partial comparison that may report two values as incomparable. */
module Cmp {

  datatype Option<T> = None | Some(value: T)

  /** The outcome of comparing two values. */
  datatype Ordering = Less | Equal | Greater

  /** `Ordering::reverse`: swaps `Less` and `Greater`, keeps `Equal`. */
  function Reverse(o: Ordering): (r: Ordering)
    ensures Discriminant(r) == -Discriminant(o)
  {
    match o
    case Less => Greater
    case Equal => Equal
    case Greater => Less
  }

  /** The numeric value of each variant; the order of `Ordering` follows
      these numbers. */
  function Discriminant(o: Ordering): int
  {
    match o
    case Less => -1
    case Equal => 0
    case Greater => 1
  }

  /** `Ord::cmp` on integers: the `Ordering` that numeric `<`, `==`, `>` give. */
  function IntCmp(a: int, b: int): (r: Ordering)
    ensures r == Less <==> a < b
    ensures r == Equal <==> a == b
    ensures r == Greater <==> a > b
  {
    if a < b then Less else if a == b then Equal else Greater
  }

  /** `PartialOrd::lt` on `Ordering`: `Less < Equal < Greater`. */
  predicate OrderingLt(a: Ordering, b: Ordering)
    ensures OrderingLt(a, b) <==> (a == Less && b != Less) || (a == Equal && b == Greater)
  {
    Discriminant(a) < Discriminant(b)
  }

  /** `Ord::cmp` on `Ordering` itself. */
  function OrderingCmp(a: Ordering, b: Ordering): (r: Ordering)
    ensures r == Less <==> OrderingLt(a, b)
    ensures r == Equal <==> a == b
    ensures r == Greater <==> OrderingLt(b, a)
  {
    IntCmp(Discriminant(a), Discriminant(b))
  }

  /** A `&mut` reference to an integer; borrowing is not modelled, the
      reference is its target. */
  datatype MutRef = MutRef(target: int)

  /** `Ord::cmp` on `&mut A`, which compares the referenced values. */
  function MutRefCmp(x: MutRef, y: MutRef): (r: Ordering)
    ensures r == Less <==> x.target < y.target
    ensures r == Equal <==> x.target == y.target
    ensures r == Greater <==> x.target > y.target
  {
    IntCmp(x.target, y.target)
  }

  /** Reversing an `Option<Ordering>`, as swapping the operands of a
      partial comparison does. */
  function ReverseOption(o: Option<Ordering>): (r: Option<Ordering>)
    ensures r.None? <==> o.None?
    ensures o.Some? ==> r.value == Reverse(o.value)
  {
    match o
    case None => None
    case Some(v) => Some(Reverse(v))
  }

  /** The duality law of `PartialOrd`: swapping the operands reverses the
      answer, and incomparable stays incomparable. */
  ghost predicate Dual<T(!new)>(partialCmp: (T, T) -> Option<Ordering>)
  {
    forall x, y :: partialCmp(y, x) == ReverseOption(partialCmp(x, y))
  }

  /** `a <= b` under a partial comparison. */
  predicate Le<T>(partialCmp: (T, T) -> Option<Ordering>, a: T, b: T)
  {
    partialCmp(a, b) == Some(Less) || partialCmp(a, b) == Some(Equal)
  }

  /** `a >= b` under a partial comparison. */
  predicate Ge<T>(partialCmp: (T, T) -> Option<Ordering>, a: T, b: T)
  {
    partialCmp(a, b) == Some(Greater) || partialCmp(a, b) == Some(Equal)
  }

  /** `core::cmp::partial_min`: the smaller operand, or `None` when the
      operands are incomparable. On `Equal` either operand is an answer. */
  function PartialMin<T>(partialCmp: (T, T) -> Option<Ordering>, a: T, b: T): (r: Option<T>)
    ensures r.None? <==> partialCmp(a, b).None?
    ensures partialCmp(a, b) == Some(Less) ==> r == Some(a)
    ensures partialCmp(a, b) == Some(Greater) ==> r == Some(b)
    ensures partialCmp(a, b) == Some(Equal) ==> r == Some(a) || r == Some(b)
  {
    match partialCmp(a, b)
    case Some(Less) => Some(a)
    case Some(Equal) => Some(a)
    case Some(Greater) => Some(b)
    case None => None
  }

  /** `core::cmp::partial_max`: the larger operand, or `None` when the
      operands are incomparable. On `Equal` either operand is an answer. */
  function PartialMax<T>(partialCmp: (T, T) -> Option<Ordering>, a: T, b: T): (r: Option<T>)
    ensures r.None? <==> partialCmp(a, b).None?
    ensures partialCmp(a, b) == Some(Greater) ==> r == Some(a)
    ensures partialCmp(a, b) == Some(Less) ==> r == Some(b)
    ensures partialCmp(a, b) == Some(Equal) ==> r == Some(a) || r == Some(b)
  {
    match partialCmp(a, b)
    case Some(Greater) => Some(a)
    case Some(Equal) => Some(a)
    case Some(Less) => Some(b)
    case None => None
  }

  // ---------------------------------------------------------------------
  // Laws of Ordering

  lemma ReverseInvolution(o: Ordering)
    ensures Reverse(Reverse(o)) == o
  {
  }

  /** `reverse` turns the order of `Ordering` around. */
  lemma ReverseAntitone(a: Ordering, b: Ordering)
    ensures OrderingLt(a, b) <==> OrderingLt(Reverse(b), Reverse(a))
    ensures OrderingCmp(Reverse(a), Reverse(b)) == Reverse(OrderingCmp(a, b))
  {
  }

  /** `Less < Equal < Greater` is a strict total order. */
  lemma OrderingLtStrictTotal(a: Ordering, b: Ordering, c: Ordering)
    ensures !OrderingLt(a, a)
    ensures OrderingLt(a, b) ==> !OrderingLt(b, a)
    ensures OrderingLt(a, b) && OrderingLt(b, c) ==> OrderingLt(a, c)
    ensures a == b || OrderingLt(a, b) || OrderingLt(b, a)
  {
  }

  /** `Less` is the least and `Greater` the greatest `Ordering`. */
  lemma OrderingBounds(o: Ordering)
    ensures o == Less || OrderingLt(Less, o)
    ensures o == Greater || OrderingLt(o, Greater)
  {
  }

  // ---------------------------------------------------------------------
  // Laws of integer comparison

  lemma IntCmpReflexive(a: int)
    ensures IntCmp(a, a) == Equal
  {
  }

  /** Swapping the operands reverses the answer. */
  lemma IntCmpAntisymmetric(a: int, b: int)
    ensures IntCmp(b, a) == Reverse(IntCmp(a, b))
  {
  }

  lemma IntCmpTransitive(a: int, b: int, c: int)
    ensures IntCmp(a, b) == Less && IntCmp(b, c) == Less ==> IntCmp(a, c) == Less
    ensures IntCmp(a, b) == Greater && IntCmp(b, c) == Greater ==> IntCmp(a, c) == Greater
    ensures IntCmp(a, b) == Equal ==> IntCmp(a, c) == IntCmp(b, c)
  {
  }

  /** Comparing through `&mut` references gives the same `Ordering` as
      comparing the plain integers, and inherits the laws of the latter. */
  lemma MutRefCmpTransparent(a: int, b: int)
    ensures MutRefCmp(MutRef(a), MutRef(b)) == IntCmp(a, b)
    ensures MutRefCmp(MutRef(b), MutRef(a)) == Reverse(MutRefCmp(MutRef(a), MutRef(b)))
  {
  }

  // ---------------------------------------------------------------------
  // Laws of partial_min and partial_max

  /** The result of `partial_min` is an operand that is `<=` the other one. */
  lemma PartialMinIsLowerOperand<T(!new)>(partialCmp: (T, T) -> Option<Ordering>, a: T, b: T)
    requires Dual(partialCmp)
    requires partialCmp(a, b).Some?
    ensures || (PartialMin(partialCmp, a, b) == Some(a) && Le(partialCmp, a, b))
            || (PartialMin(partialCmp, a, b) == Some(b) && Le(partialCmp, b, a))
  {
  }

  /** The result of `partial_max` is an operand that is `>=` the other one. */
  lemma PartialMaxIsUpperOperand<T(!new)>(partialCmp: (T, T) -> Option<Ordering>, a: T, b: T)
    requires Dual(partialCmp)
    requires partialCmp(a, b).Some?
    ensures || (PartialMax(partialCmp, a, b) == Some(a) && Ge(partialCmp, a, b))
            || (PartialMax(partialCmp, a, b) == Some(b) && Ge(partialCmp, b, a))
  {
  }

  /** Under the duality law the operand order does not matter, except for
      which of two `Equal` operands is returned. */
  lemma PartialMinMaxCommute<T(!new)>(partialCmp: (T, T) -> Option<Ordering>, a: T, b: T)
    requires Dual(partialCmp)
    ensures PartialMin(partialCmp, a, b).None? <==> PartialMin(partialCmp, b, a).None?
    ensures PartialMax(partialCmp, a, b).None? <==> PartialMax(partialCmp, b, a).None?
    ensures partialCmp(a, b) != Some(Equal) ==>
              PartialMin(partialCmp, a, b) == PartialMin(partialCmp, b, a)
              && PartialMax(partialCmp, a, b) == PartialMax(partialCmp, b, a)
  {
  }

  /** When the operands are comparable and not `Equal`, `partial_min` and
      `partial_max` split them: one gets each. */
  lemma PartialMinMaxSplit<T>(partialCmp: (T, T) -> Option<Ordering>, a: T, b: T)
    requires partialCmp(a, b) == Some(Less) || partialCmp(a, b) == Some(Greater)
    ensures PartialMin(partialCmp, a, b).Some? && PartialMax(partialCmp, a, b).Some?
    ensures multiset{PartialMin(partialCmp, a, b).value, PartialMax(partialCmp, a, b).value}
         == multiset{a, b}
  {
  }

  /** The partial comparison of a total order: never incomparable. */
  function IntPartialCmp(a: int, b: int): (r: Option<Ordering>)
    ensures r.Some?
    ensures r == Some(Less) <==> a < b
    ensures r == Some(Equal) <==> a == b
    ensures r == Some(Greater) <==> a > b
  {
    Some(IntCmp(a, b))
  }

  lemma IntPartialCmpDual()
    ensures Dual(IntPartialCmp)
  {
  }

  /** On integers `partial_min` and `partial_max` are the mathematical
      minimum and maximum. */
  lemma IntPartialMinMax(a: int, b: int)
    ensures PartialMin(IntPartialCmp, a, b) == Some(if a <= b then a else b)
    ensures PartialMax(IntPartialCmp, a, b) == Some(if a >= b then a else b)
  {
  }
}
