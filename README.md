# Comparison primitives of Rust's `core::cmp`, in Dafny

This project models the comparison layer that the `core::cmp` tests use in
`src/libcoretest/cmp.rs`:

- `Ordering`, the result of a comparison, with the variants `Less`, `Equal`
  and `Greater`. It has `reverse`, its own order `Less < Equal < Greater`
  (following the numeric values -1, 0 and 1 of the variants), and its own
  `cmp`.
- `cmp` on integers. It also handles comparison through `&mut` references,
  which answers from the referenced integers.
- `partial_min` and `partial_max`. They work for any type that has a partial
  comparison returning `Option<Ordering>`. They give `None` when the operands
  are incomparable.
- The test's own values. `F64` stands in for `f64`: it is a number, or a NaN
  that nothing compares with. `SketchyNum` has a user-defined `PartialEq`.

`cmp.dfy` (module `Cmp`) holds the library part. `coretest_cmp.dfy` (module
`CoreTestCmp`) holds the test types, and one lemma per test that states every
row of that test's tables.

This model is built from the tests in src/libcoretest/cmp.rs; the library code
of `core::cmp` (src/libcore/cmp.rs) is not modelled. Its behaviour comes from the test assertions, and for `partial_min`
and `partial_max` from what their names mean and what the tables show: the
smaller (or larger) operand, or `None` when the operands cannot be compared. On `Equal`, both bodies
return the first operand. The tests cannot tell the two operands apart in
that case `(0, 0)`, so no contract or lemma relies on which one is returned.
Both operands are allowed.

## Model

| member | source | states |
|---|---|---|
| `Cmp.Reverse` | src/libcoretest/cmp.rs:33-37 | reversing negates the discriminant: `Less` and `Greater` swap, `Equal` stays |
| `Cmp.ReverseInvolution` | src/libcoretest/cmp.rs:33-37 | reversing twice gives back the original `Ordering` |
| `Cmp.ReverseAntitone` | src/libcoretest/cmp.rs:33-43 | `reverse` turns the order of `Ordering` around; `cmp` of two reversed values is the reverse of their `cmp` |
| `Cmp.OrderingLt` | src/libcoretest/cmp.rs:41 | `Less` is below `Equal` and `Greater`, `Equal` is below `Greater`, and nothing else is below anything |
| `Cmp.OrderingCmp` | src/libcoretest/cmp.rs:40-43 | `cmp` on `Ordering` is `Less`, `Equal` or `Greater` exactly when the first is below, the same as, or above the second in `Less < Equal < Greater` |
| `Cmp.OrderingLtStrictTotal` | src/libcoretest/cmp.rs:40-43 | `<` on `Ordering` is irreflexive, asymmetric, transitive and total |
| `Cmp.OrderingBounds` | src/libcoretest/cmp.rs:40-43 | `Less` is the smallest `Ordering` and `Greater` the largest |
| `Cmp.IntCmp` | src/libcoretest/cmp.rs:15-21 | integer `cmp` is `Less`, `Equal` or `Greater` exactly when numeric `<`, `==` or `>` holds, for any signs |
| `Cmp.IntCmpReflexive` | src/libcoretest/cmp.rs:18 | a value compares `Equal` to itself |
| `Cmp.IntCmpAntisymmetric` | src/libcoretest/cmp.rs:16-20 | swapping the operands reverses the answer |
| `Cmp.IntCmpTransitive` | src/libcoretest/cmp.rs:15-21 | `Less` and `Greater` chain, and an `Equal` operand can be replaced by its equal |
| `Cmp.MutRefCmp` | src/libcoretest/cmp.rs:24-30 | `cmp` through `&mut` references is `Less`, `Equal` or `Greater` exactly when numeric `<`, `==` or `>` holds on the referenced integers |
| `Cmp.MutRefCmpTransparent` | src/libcoretest/cmp.rs:24-30 | comparing through `&mut` references gives the same `Ordering` as comparing the plain integers, and swapping the references reverses it |
| `Cmp.PartialMin` | src/libcoretest/cmp.rs:45-76 | `None` exactly when the operands are incomparable; the first operand when it is less, the second when it is greater; one of the two when they are `Equal` |
| `Cmp.PartialMax` | src/libcoretest/cmp.rs:78-109 | `None` exactly when the operands are incomparable; the first operand when it is greater, the second when it is less; one of the two when they are `Equal` |
| `Cmp.PartialMinIsLowerOperand` | src/libcoretest/cmp.rs:48-55 | for a partial comparison obeying duality, a comparable pair's `partial_min` is one of the operands and is `<=` the other |
| `Cmp.PartialMaxIsUpperOperand` | src/libcoretest/cmp.rs:81-88 | for a partial comparison obeying duality, a comparable pair's `partial_max` is one of the operands and is `>=` the other |
| `Cmp.PartialMinMaxCommute` | src/libcoretest/cmp.rs:51-54 | under duality, swapping the operands does not change whether the result is `None`, and changes nothing at all unless the operands are `Equal` |
| `Cmp.PartialMinMaxSplit` | src/libcoretest/cmp.rs:51-54 | for operands that are comparable and not `Equal`, `partial_min` returns one of them and `partial_max` the other |
| `Cmp.IntPartialCmp` | src/libcoretest/cmp.rs:69-71 | integers are always comparable, and the answer is `Less`, `Equal` or `Greater` exactly when numeric `<`, `==` or `>` holds |
| `Cmp.IntPartialCmpDual` | src/libcoretest/cmp.rs:48-55 | the integer partial comparison obeys duality |
| `Cmp.IntPartialMinMax` | src/libcoretest/cmp.rs:48-55 | on integers `partial_min` is `Some` of the mathematical minimum and `partial_max` is `Some` of the maximum |
| `CoreTestCmp.F64PartialCmp` | src/libcoretest/cmp.rs:57-67 | float comparison is `None` exactly when an operand is NaN; otherwise it is `Less`, `Equal` or `Greater` exactly as the numbers compare |
| `CoreTestCmp.F64PartialCmpDual` | src/libcoretest/cmp.rs:57-67 | the float partial comparison obeys duality |
| `CoreTestCmp.F64PartialCmpNotReflexive` | src/libcoretest/cmp.rs:64 | some value (NaN) does not compare `Equal` to itself |
| `CoreTestCmp.F64PartialExtremaNoneIffNaN` | src/libcoretest/cmp.rs:64-66 | both extrema are `None` exactly when an operand is NaN, in either position |
| `CoreTestCmp.F64PartialExtremaMatchInt` | src/libcoretest/cmp.rs:57-63 | on numbers, the float extrema are the integer extrema |
| `CoreTestCmp.SketchyEq` | src/libcoretest/cmp.rs:123-125 | the custom `eq`, `(self.num - other.num).abs() < 5` with `abs` modelled by the helper `Abs`, holds exactly when the numbers differ by less than 5 in either direction |
| `CoreTestCmp.SketchyNe` | src/libcoretest/cmp.rs:130 | `!=` holds exactly when the numbers differ by 5 or more in either direction |
| `CoreTestCmp.SketchyEqReflexiveSymmetric` | src/libcoretest/cmp.rs:121-126 | the custom equality is reflexive and symmetric |
| `CoreTestCmp.SketchyEqNotTransitive` | src/libcoretest/cmp.rs:121-126 | the custom equality is not transitive |
| `CoreTestCmp.TestIntTotalOrd` | src/libcoretest/cmp.rs:15-21 | each row of `test_int_totalord` |
| `CoreTestCmp.TestMutIntTotalOrd` | src/libcoretest/cmp.rs:24-30 | each row of `test_mut_int_totalord` |
| `CoreTestCmp.TestOrderingReverse` | src/libcoretest/cmp.rs:33-37 | each row of `test_ordering_reverse` |
| `CoreTestCmp.TestOrderingOrder` | src/libcoretest/cmp.rs:40-43 | `Less < Equal`, and `Greater.cmp(Less)` is `Greater` |
| `CoreTestCmp.TestPartialMin` | src/libcoretest/cmp.rs:46-76 | each row of the integer and float tables of `test_partial_min`, NaN rows included |
| `CoreTestCmp.TestPartialMax` | src/libcoretest/cmp.rs:79-109 | each row of the integer and float tables of `test_partial_max`, NaN rows included |
| `CoreTestCmp.TestUserDefinedEq` | src/libcoretest/cmp.rs:129-130 | `37 == 34` and `25 != 57` under the custom equality |

## Left out

- The library code of `core::cmp` is not part of this model. `partial_min`, `partial_max` and `Ordering` are modelled from the tests and from what their names mean, as described above.
- `Cmp.PartialMin`, `Cmp.PartialMax`: on `Equal` the contracts allow either operand. The tests never separate the two, so the model states no winner.
- `F64` does not model IEEE-754 numbers: rounding, infinities, signed zero and NaN payloads are left out. A NaN is a value that compares with nothing.
- `MutRef` does not model borrowing or references. A `&mut` reference is treated as its target.
- `CoreTestCmp.SketchyEq` uses unbounded integers. It does not model the overflow of `isize` subtraction or of `abs`.
- The `#[test]` harness and the `for` loops over the tables are left out. Each table row is an `ensures` clause of one lemma.
