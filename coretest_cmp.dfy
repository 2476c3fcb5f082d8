/** The values and assertions of the `core::cmp` tests: a stand-in for
    `f64` with an incomparable NaN, the user type `SketchyNum` with its own
    `PartialEq`, and one lemma per test with every row of its tables. */
module CoreTestCmp {
  import opened Cmp

  /** A stand-in for `f64`: a number, or NaN. IEEE-754 arithmetic and
      rounding are not modelled. */
  datatype F64 = Num(x: real) | NaN

  /** `PartialOrd::partial_cmp` on the stand-in: NaN is comparable with
      nothing, not even with itself. */
  function F64PartialCmp(a: F64, b: F64): (r: Option<Ordering>)
    ensures r.None? <==> a.NaN? || b.NaN?
    ensures r == Some(Less) <==> a.Num? && b.Num? && a.x < b.x
    ensures r == Some(Equal) <==> a.Num? && b.Num? && a.x == b.x
    ensures r == Some(Greater) <==> a.Num? && b.Num? && a.x > b.x
  {
    if a.NaN? || b.NaN? then None
    else if a.x < b.x then Some(Less)
    else if a.x == b.x then Some(Equal)
    else Some(Greater)
  }

  lemma F64PartialCmpDual()
    ensures Dual(F64PartialCmp)
  {
  }

  /** NaN makes the float comparison non-reflexive, which is why the
      extrema have to be partial. */
  lemma F64PartialCmpNotReflexive()
    ensures !(forall v :: F64PartialCmp(v, v) == Some(Equal))
  {
    assert F64PartialCmp(NaN, NaN) == None;
  }

  /** `partial_min` and `partial_max` give `None` exactly when an operand
      is NaN, whatever its position. */
  lemma F64PartialExtremaNoneIffNaN(a: F64, b: F64)
    ensures PartialMin(F64PartialCmp, a, b).None? <==> a.NaN? || b.NaN?
    ensures PartialMax(F64PartialCmp, a, b).None? <==> a.NaN? || b.NaN?
  {
  }

  /** On numbers the float extrema agree with the integer ones. */
  lemma F64PartialExtremaMatchInt(i: int, j: int)
    ensures PartialMin(F64PartialCmp, Num(i as real), Num(j as real))
         == Some(Num(PartialMin(IntPartialCmp, i, j).value as real))
    ensures PartialMax(F64PartialCmp, Num(i as real), Num(j as real))
         == Some(Num(PartialMax(IntPartialCmp, i, j).value as real))
  {
  }

  /** The user type of `test_user_defined_eq`; `isize` is modelled as an
      unbounded integer. */
  datatype SketchyNum = SketchyNum(num: int)

  /** `SignedInt::abs`, on unbounded integers. */
  function Abs(n: int): (r: nat)
    ensures r == n || r == -n
  {
    if n < 0 then -n else n
  }

  /** The user-defined `PartialEq::eq`: numbers closer than 5 are equal. */
  predicate SketchyEq(a: SketchyNum, b: SketchyNum)
    ensures SketchyEq(a, b) <==> -5 < a.num - b.num < 5
  {
    Abs(a.num - b.num) < 5
  }

  /** `!=`, which `PartialEq` defines as the negation of `eq`. */
  predicate SketchyNe(a: SketchyNum, b: SketchyNum)
    ensures SketchyNe(a, b) <==> a.num - b.num <= -5 || 5 <= a.num - b.num
  {
    !SketchyEq(a, b)
  }

  lemma SketchyEqReflexiveSymmetric(a: SketchyNum, b: SketchyNum)
    ensures SketchyEq(a, a)
    ensures SketchyEq(a, b) <==> SketchyEq(b, a)
  {
  }

  /** The custom equality is not transitive, so it breaks the transitivity
      that `PartialEq` asks of `==`. */
  lemma SketchyEqNotTransitive()
    ensures !(forall a, b, c :: SketchyEq(a, b) && SketchyEq(b, c) ==> SketchyEq(a, c))
  {
    var a, b, c := SketchyNum(0), SketchyNum(4), SketchyNum(8);
    assert SketchyEq(a, b) && SketchyEq(b, c) && !SketchyEq(a, c);
  }

  // ---------------------------------------------------------------------
  // The tests, row by row

  lemma TestIntTotalOrd()
    ensures IntCmp(5, 10) == Less
    ensures IntCmp(10, 5) == Greater
    ensures IntCmp(5, 5) == Equal
    ensures IntCmp(-5, 12) == Less
    ensures IntCmp(12, -5) == Greater
  {
  }

  lemma TestMutIntTotalOrd()
    ensures MutRefCmp(MutRef(5), MutRef(10)) == Less
    ensures MutRefCmp(MutRef(10), MutRef(5)) == Greater
    ensures MutRefCmp(MutRef(5), MutRef(5)) == Equal
    ensures MutRefCmp(MutRef(-5), MutRef(12)) == Less
    ensures MutRefCmp(MutRef(12), MutRef(-5)) == Greater
  {
  }

  lemma TestOrderingReverse()
    ensures Reverse(Less) == Greater
    ensures Reverse(Equal) == Equal
    ensures Reverse(Greater) == Less
  {
  }

  lemma TestOrderingOrder()
    ensures OrderingLt(Less, Equal)
    ensures OrderingCmp(Greater, Less) == Greater
  {
  }

  lemma TestPartialMin()
    ensures PartialMin(IntPartialCmp, 0, 0) == Some(0)
    ensures PartialMin(IntPartialCmp, 1, 0) == Some(0)
    ensures PartialMin(IntPartialCmp, 0, 1) == Some(0)
    ensures PartialMin(IntPartialCmp, -1, 0) == Some(-1)
    ensures PartialMin(IntPartialCmp, 0, -1) == Some(-1)
    ensures PartialMin(F64PartialCmp, Num(0.0), Num(0.0)) == Some(Num(0.0))
    ensures PartialMin(F64PartialCmp, Num(1.0), Num(0.0)) == Some(Num(0.0))
    ensures PartialMin(F64PartialCmp, Num(0.0), Num(1.0)) == Some(Num(0.0))
    ensures PartialMin(F64PartialCmp, Num(-1.0), Num(0.0)) == Some(Num(-1.0))
    ensures PartialMin(F64PartialCmp, Num(0.0), Num(-1.0)) == Some(Num(-1.0))
    ensures PartialMin(F64PartialCmp, NaN, NaN) == None
    ensures PartialMin(F64PartialCmp, NaN, Num(1.0)) == None
    ensures PartialMin(F64PartialCmp, Num(1.0), NaN) == None
  {
  }

  lemma TestPartialMax()
    ensures PartialMax(IntPartialCmp, 0, 0) == Some(0)
    ensures PartialMax(IntPartialCmp, 1, 0) == Some(1)
    ensures PartialMax(IntPartialCmp, 0, 1) == Some(1)
    ensures PartialMax(IntPartialCmp, -1, 0) == Some(0)
    ensures PartialMax(IntPartialCmp, 0, -1) == Some(0)
    ensures PartialMax(F64PartialCmp, Num(0.0), Num(0.0)) == Some(Num(0.0))
    ensures PartialMax(F64PartialCmp, Num(1.0), Num(0.0)) == Some(Num(1.0))
    ensures PartialMax(F64PartialCmp, Num(0.0), Num(1.0)) == Some(Num(1.0))
    ensures PartialMax(F64PartialCmp, Num(-1.0), Num(0.0)) == Some(Num(0.0))
    ensures PartialMax(F64PartialCmp, Num(0.0), Num(-1.0)) == Some(Num(0.0))
    ensures PartialMax(F64PartialCmp, NaN, NaN) == None
    ensures PartialMax(F64PartialCmp, NaN, Num(1.0)) == None
    ensures PartialMax(F64PartialCmp, Num(1.0), NaN) == None
  {
  }

  lemma TestUserDefinedEq()
    ensures SketchyEq(SketchyNum(37), SketchyNum(34))
    ensures SketchyNe(SketchyNum(25), SketchyNum(57))
  {
  }
}
