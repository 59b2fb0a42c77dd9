/** `Expr.replace(mapping)` with a string-to-string dictionary: a text cell
    that is a key of the mapping becomes the mapped text; every other cell,
    including a missing one, is left as it is. */
module Lookup {
  import opened Wrappers
  import opened Frame

  predicate Mapped(m: map<string, string>, c: Cell) {
    c.Some? && c.value.Text? && c.value.s in m
  }

  function Replace(m: map<string, string>, c: Cell): (r: Cell)
    ensures Mapped(m, c) ==> r == Some(Text(m[c.value.s]))
    ensures !Mapped(m, c) ==> r == c
  {
    if Mapped(m, c) then Some(Text(m[c.value.s])) else c
  }

  /** Every label a key maps to is either not a key itself or a key that
      maps to itself. */
  predicate Idempotent(m: map<string, string>) {
    forall k :: k in m && m[k] in m ==> m[m[k]] == m[k]
  }

  /** Distinct keys map to distinct labels. */
  predicate Injective(m: map<string, string>) {
    forall k, k' :: k in m && k' in m && k != k' ==> m[k] != m[k']
  }

  /** Replacing twice is the same as replacing once, on every cell, exactly
      when the mapping is idempotent. */
  lemma ReplaceTwiceIff(m: map<string, string>)
    ensures (forall c :: Replace(m, Replace(m, c)) == Replace(m, c)) <==> Idempotent(m)
  {
    if forall c :: Replace(m, Replace(m, c)) == Replace(m, c) {
      forall k | k in m && m[k] in m
        ensures m[m[k]] == m[k]
      {
        assert Replace(m, Replace(m, Some(Text(k)))) == Replace(m, Some(Text(k)));
      }
    }
  }

  /** With the empty mapping, replacing is the identity. */
  lemma ReplaceEmpty(c: Cell)
    ensures Replace(map[], c) == c
  {
  }

  /** `df.with_columns(pl.col(src).replace(m).alias(dst))`. */
  function ReplaceColumn(t: Table, src: string, dst: string, m: map<string, string>): (u: Table)
    ensures |u| == |t|
    ensures forall i :: 0 <= i < |t| ==> Get(u[i], dst) == Replace(m, Get(t[i], src))
    ensures forall i, d :: 0 <= i < |t| && d != dst ==> Get(u[i], d) == Get(t[i], d)
  {
    WithColumn(t, dst, row => Replace(m, Get(row, src)))
  }
}
