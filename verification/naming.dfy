/** Column names built by appending a suffix, as the sales scripts do
    with `f"{col}_Ajustado"`. */
module Naming {
  /** `f"{col}_Ajustado"` */
  function Ajustado(c: string): string {
    c + "_Ajustado"
  }

  /** Different columns have different adjusted names. */
  lemma AjustadoInjective(a: string, b: string)
    ensures Ajustado(a) == Ajustado(b) <==> a == b
  {
    if Ajustado(a) == Ajustado(b) {
      assert |a| == |b|;
      assert a == Ajustado(a)[..|a|];
      assert b == Ajustado(b)[..|b|];
    }
  }

  function AdjustedNames(cols: seq<string>): (r: seq<string>)
    ensures |r| == |cols|
    ensures forall k :: 0 <= k < |cols| ==> r[k] == Ajustado(cols[k])
  {
    seq(|cols|, k requires 0 <= k < |cols| => Ajustado(cols[k]))
  }

  predicate Distinct(cols: seq<string>) {
    forall a, b :: 0 <= a < b < |cols| ==> cols[a] != cols[b]
  }

  /** Distinct columns have distinct adjusted names. */
  lemma AdjustedNamesDistinct(cols: seq<string>)
    requires Distinct(cols)
    ensures Distinct(AdjustedNames(cols))
  {
    forall a, b | 0 <= a < b < |cols|
      ensures Ajustado(cols[a]) != Ajustado(cols[b])
    {
      AjustadoInjective(cols[a], cols[b]);
    }
  }

  /** `d` is none of the adjusted names of `cols[k..]`. */
  predicate OutsideAdjusted(d: string, cols: seq<string>, k: int) {
    forall j :: 0 <= j < |cols| && k <= j ==> d != Ajustado(cols[j])
  }

  lemma OutsideAdjustedIff(d: string, cols: seq<string>)
    ensures OutsideAdjusted(d, cols, 0) <==> d !in AdjustedNames(cols)
  {
    if d in AdjustedNames(cols) {
      var j :| 0 <= j < |cols| && AdjustedNames(cols)[j] == d;
    }
  }
}
