/** Row rules shared by several trusted scripts: each is one
    `pl.when(...).then(...).otherwise(...)` expression. A comparison with a
    missing cell is not true, so a missing input always takes the
    `otherwise` branch. */
module Rules {
  import opened Wrappers
  import opened Frame

  /** The branch code every known mistyped code is rewritten to. */
  const FixedBranch := "0-1-1"

  predicate IsCode(c: Cell, bad: set<string>) {
    c.Some? && c.value.Text? && c.value.s in bad
  }

  /** `when(Cod_Filial is one of bad).then(lit("0-1-1")).otherwise(Cod_Filial)` */
  function RemapBranch(bad: set<string>, c: Cell): (r: Cell)
    ensures IsCode(c, bad) ==> r == Some(Text(FixedBranch))
    ensures !IsCode(c, bad) ==> r == c
  {
    if IsCode(c, bad) then Some(Text(FixedBranch)) else c
  }

  /** Once the fixed code is not itself a bad code, no bad code survives
      the rewrite and rewriting again changes nothing. */
  lemma RemapBranchCleans(bad: set<string>, c: Cell)
    requires FixedBranch !in bad
    ensures !IsCode(RemapBranch(bad, c), bad)
    ensures RemapBranch(bad, RemapBranch(bad, c)) == RemapBranch(bad, c)
    ensures RemapBranch(bad, c) != c <==> IsCode(c, bad)
  {
  }

  predicate IsZero(c: Cell) {
    c == Some(Num(0.0))
  }

  /** `when(quantity == 0).then(0).otherwise(v)` */
  function ZeroWhenNoQuantity(quantity: Cell, v: Cell): (r: Cell)
    ensures IsZero(quantity) ==> IsZero(r)
    ensures !IsZero(quantity) ==> r == v
  {
    if IsZero(quantity) then Some(Num(0.0)) else v
  }

  predicate NonNegative(c: Cell) {
    c.Some? && c.value.Num? ==> c.value.x >= 0.0
  }

  /** `when(v < 0).then(v * -1).otherwise(v)`: the absolute value of a
      number; a missing cell stays missing. */
  function Absolute(v: Cell): (r: Cell)
    ensures NonNegative(r)
    ensures r.None? <==> v.None?
    ensures v.Some? && v.value.Num? ==>
      r.Some? && r.value.Num? && (r.value.x == v.value.x || r.value.x == -v.value.x)
    ensures NonNegative(v) ==> r == v
  {
    if v.Some? && v.value.Num? && v.value.x < 0.0 then Some(Num(-v.value.x)) else v
  }

  /** The sign fix is idempotent. */
  lemma AbsoluteTwice(v: Cell)
    ensures Absolute(Absolute(v)) == Absolute(v)
  {
  }
}
