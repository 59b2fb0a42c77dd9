/** `df.group_by(key).agg(pl.col(val).sum().alias(out))` joined back onto
    the table with `how="left"`. Sums skip missing amounts; the group of
    rows whose key is missing is formed, but a join never matches a
    missing key, so those rows get a missing total. */
module Grouping {
  import opened Wrappers
  import opened Frame

  /** The amount a cell adds to a sum: its number, or nothing if missing. */
  function Amount(c: Cell): real {
    if c.Some? && c.value.Num? then c.value.x else 0.0
  }

  /** Reference definition: the sum of `val` over every row whose `key`
      holds `k`. */
  function SumWhere(t: Table, key: string, val: string, k: Cell): real
    decreases |t|
  {
    if |t| == 0 then 0.0
    else
      var last := t[|t| - 1];
      SumWhere(t[..|t| - 1], key, val, k) + (if Get(last, key) == k then Amount(Get(last, val)) else 0.0)
  }

  /** No row carries the key, so its sum is zero. */
  lemma {:induction false} SumWhereAbsent(t: Table, key: string, val: string, k: Cell)
    requires forall i :: 0 <= i < |t| ==> Get(t[i], key) != k
    ensures SumWhere(t, key, val, k) == 0.0
    decreases |t|
  {
    if |t| > 0 {
      var init := t[..|t| - 1];
      assert forall i :: 0 <= i < |init| ==> init[i] == t[i];
      SumWhereAbsent(init, key, val, k);
    }
  }

  /** The sum reads only the key and the summed column: tables that agree
      on those two columns, row by row, have the same sums. */
  lemma {:induction false} SumWhereReadsTwoColumns(t: Table, u: Table, key: string, val: string, k: Cell)
    requires |t| == |u|
    requires forall i :: 0 <= i < |t| ==> Get(t[i], key) == Get(u[i], key) && Get(t[i], val) == Get(u[i], val)
    ensures SumWhere(t, key, val, k) == SumWhere(u, key, val, k)
    decreases |t|
  {
    if |t| > 0 {
      var n := |t| - 1;
      assert forall i :: 0 <= i < n ==> t[..n][i] == t[i] && u[..n][i] == u[i];
      SumWhereReadsTwoColumns(t[..n], u[..n], key, val, k);
    }
  }

  /** The group-by: one entry per distinct key (the missing key included),
      holding the sum of `val` over that group, built row by row. */
  function GroupSums(t: Table, key: string, val: string): (g: map<Cell, real>)
    ensures forall i :: 0 <= i < |t| ==> Get(t[i], key) in g
    ensures forall k :: k in g ==> g[k] == SumWhere(t, key, val, k)
    decreases |t|
  {
    if |t| == 0 then map[]
    else
      var init, last := t[..|t| - 1], t[|t| - 1];
      var g := GroupSums(init, key, val);
      var k := Get(last, key);
      var before := if k in g then g[k] else 0.0;
      assert before == SumWhere(init, key, val, k) by {
        if k !in g {
          SumWhereAbsent(init, key, val, k);
        }
      }
      assert forall i :: 0 <= i < |init| ==> init[i] == t[i];
      g[k := before + Amount(Get(last, val))]
  }

  /** The left join of the group sums on `key`: a present key finds its
      group's sum, a missing key finds nothing. */
  function JoinedTotal(g: map<Cell, real>, k: Cell): Cell {
    if k.Some? && k in g then Some(Num(g[k])) else None
  }

  /** The whole step: each row gains column `out` with the total of `val`
      over the rows sharing its `key`. */
  function WithGroupTotal(t: Table, key: string, val: string, out: string): (u: Table)
    ensures |u| == |t|
    ensures forall i :: 0 <= i < |t| && Get(t[i], key).None? ==> Get(u[i], out).None?
    ensures forall i :: 0 <= i < |t| && Get(t[i], key).Some? ==>
              Get(u[i], out) == Some(Num(SumWhere(t, key, val, Get(t[i], key))))
    ensures forall i, j :: 0 <= i < |t| && 0 <= j < |t| && Get(t[i], key) == Get(t[j], key) ==>
              Get(u[i], out) == Get(u[j], out)
    ensures forall i, d :: 0 <= i < |t| && d != out ==> Get(u[i], d) == Get(t[i], d)
  {
    var g := GroupSums(t, key, val);
    WithColumn(t, out, row => JoinedTotal(g, Get(row, key)))
  }
}
