/** Duplicate detection and removal. Two cells are equal here when both are
    missing or both hold the same value: `is_duplicated` and `unique`
    treat missing values as equal to each other. */
module Duplicates {
  import opened Wrappers
  import opened Frame

  /** The two rows hold equal cells in every listed column. */
  predicate AgreeOn(a: Row, b: Row, cols: seq<string>) {
    forall k :: 0 <= k < |cols| ==> Get(a, cols[k]) == Get(b, cols[k])
  }

  /** `pl.struct(cols).is_duplicated()` at row `i`: some other row agrees
      with it on every listed column. */
  predicate DuplicatedOn(t: Table, i: int, cols: seq<string>)
    requires 0 <= i < |t|
  {
    exists j :: 0 <= j < |t| && j != i && AgreeOn(t[i], t[j], cols)
  }

  /** The two rows read alike in every column either of them carries. A
      column neither carries reads as missing in both, so this is equality
      of every cell under `Get`: a column one row lacks and the other holds
      as missing does not tell them apart. */
  predicate SameCells(a: Row, b: Row) {
    forall c :: c in a.Keys + b.Keys ==> Get(a, c) == Get(b, c)
  }

  /** Every column name reads the same cell in both rows. */
  ghost predicate ReadAlike(a: Row, b: Row) {
    forall c :: Get(a, c) == Get(b, c)
  }

  /** Comparing the columns the rows carry is comparing every column. */
  lemma SameCellsIff(a: Row, b: Row)
    ensures SameCells(a, b) <==> ReadAlike(a, b)
  {
    if SameCells(a, b) {
      forall c
        ensures Get(a, c) == Get(b, c)
      {
        if c !in a.Keys + b.Keys {
          assert c !in a && c !in b;
        }
      }
    }
  }

  /** `pl.struct(pl.all()).is_duplicated()` at row `i`: some other row holds
      the same cell as it in every column. */
  predicate DuplicatedRow(t: Table, i: int)
    requires 0 <= i < |t|
  {
    exists j :: 0 <= j < |t| && j != i && SameCells(t[i], t[j])
  }

  /** A full duplicate is a row with another row that reads alike in every
      column. */
  lemma DuplicatedRowIff(t: Table, i: int)
    requires 0 <= i < |t|
    ensures DuplicatedRow(t, i) <==> exists j :: 0 <= j < |t| && j != i && ReadAlike(t[i], t[j])
  {
    if DuplicatedRow(t, i) {
      var j :| 0 <= j < |t| && j != i && SameCells(t[i], t[j]);
      SameCellsIff(t[i], t[j]);
    }
    if j :| 0 <= j < |t| && j != i && ReadAlike(t[i], t[j]) {
      SameCellsIff(t[i], t[j]);
    }
  }

  /** A row that lacks a column and a row that holds it as missing read
      alike, so each is a full duplicate of the other. */
  lemma AbsentIsMissing()
    ensures var t: Table := [map["a" := None], map[]];
      DuplicatedRow(t, 0) && DuplicatedRow(t, 1)
  {
    var t: Table := [map["a" := None], map[]];
    assert SameCells(t[0], t[1]);
    assert SameCells(t[1], t[0]);
  }

  /** A row that is duplicated in full is duplicated on any column list. */
  lemma FullImpliesPartial(t: Table, i: int, cols: seq<string>)
    requires 0 <= i < |t|
    ensures DuplicatedRow(t, i) ==> DuplicatedOn(t, i, cols)
  {
    if DuplicatedRow(t, i) {
      var j :| 0 <= j < |t| && j != i && SameCells(t[i], t[j]);
      SameCellsIff(t[i], t[j]);
      assert AgreeOn(t[i], t[j], cols);
    }
  }

  /** `df.with_columns(pl.struct(cols).is_duplicated().alias(out))`. */
  function FlagDuplicatedOn(t: Table, cols: seq<string>, out: string): (u: Table)
    ensures |u| == |t|
    ensures forall i :: 0 <= i < |t| ==> Get(u[i], out) == Some(Flag(DuplicatedOn(t, i, cols)))
    ensures forall i, d :: 0 <= i < |t| && d != out ==> Get(u[i], d) == Get(t[i], d)
  {
    seq(|t|, i requires 0 <= i < |t| => t[i][out := Some(Flag(DuplicatedOn(t, i, cols)))])
  }

  /** `df.with_columns(pl.struct(pl.all()).is_duplicated().alias(out))`. */
  function FlagDuplicatedRows(t: Table, out: string): (u: Table)
    ensures |u| == |t|
    ensures forall i :: 0 <= i < |t| ==> Get(u[i], out) == Some(Flag(DuplicatedRow(t, i)))
    ensures forall i, d :: 0 <= i < |t| && d != out ==> Get(u[i], d) == Get(t[i], d)
  {
    seq(|t|, i requires 0 <= i < |t| => t[i][out := Some(Flag(DuplicatedRow(t, i)))])
  }

  /** No two rows of the table agree on the listed columns. */
  predicate DistinctOn(t: Table, cols: seq<string>) {
    forall i, j :: 0 <= i < j < |t| ==> !AgreeOn(t[i], t[j], cols)
  }

  /** Some row of `u` agrees with `r` on `cols`. */
  predicate Represented(r: Row, u: Table, cols: seq<string>) {
    exists j :: 0 <= j < |u| && AgreeOn(r, u[j], cols)
  }

  /** Every row of `t` has a row of `u` that agrees with it on `cols`. */
  predicate Covers(u: Table, t: Table, cols: seq<string>) {
    forall i :: 0 <= i < |t| ==> Represented(t[i], u, cols)
  }

  lemma AgreeSymmetric(a: Row, b: Row, cols: seq<string>)
    ensures AgreeOn(a, b, cols) <==> AgreeOn(b, a, cols)
  {
  }

  /** Appending a row that agrees with no row of a distinct table keeps it
      distinct. */
  lemma AppendDistinct(u: Table, last: Row, cols: seq<string>)
    requires DistinctOn(u, cols)
    requires forall j :: 0 <= j < |u| ==> !AgreeOn(last, u[j], cols)
    ensures DistinctOn(u + [last], cols)
  {
    var u' := u + [last];
    forall i, j | 0 <= i < j < |u'|
      ensures !AgreeOn(u'[i], u'[j], cols)
    {
      if j == |u| {
        AgreeSymmetric(last, u[i], cols);
      }
    }
  }

  /** Covering the prefix, plus a row of `u` agreeing with the last row,
      covers the whole table. */
  lemma ExtendCover(u: Table, t: Table, cols: seq<string>)
    requires |t| > 0
    requires Covers(u, t[..|t| - 1], cols)
    requires Represented(t[|t| - 1], u, cols)
    ensures Covers(u, t, cols)
  {
    forall i | 0 <= i < |t|
      ensures Represented(t[i], u, cols)
    {
      if i < |t| - 1 {
        assert t[i] == t[..|t| - 1][i];
      }
    }
  }

  /** A cover stays a cover when rows are appended to it. */
  lemma CoverGrows(u: Table, t: Table, cols: seq<string>, extra: Row)
    requires Covers(u, t, cols)
    ensures Covers(u + [extra], t, cols)
  {
    var v := u + [extra];
    forall i | 0 <= i < |t|
      ensures Represented(t[i], v, cols)
    {
      var j :| 0 <= j < |u| && AgreeOn(t[i], u[j], cols);
      assert v[j] == u[j];
    }
  }

  /** Keeps `last` only when no row kept so far agrees with it on `cols`. */
  function Keep(u: Table, last: Row, cols: seq<string>): Table {
    if Represented(last, u, cols) then u else u + [last]
  }

  /** `df.unique(subset=cols)`: one row of each group of rows that agree on
      `cols`. polars may keep any row of a group and any order; this keeps
      the first row of each group, in input order. */
  function Unique(t: Table, cols: seq<string>): (u: Table)
    ensures |u| <= |t|
    ensures forall j :: 0 <= j < |u| ==> u[j] in t
    ensures Covers(u, t, cols)
    ensures DistinctOn(u, cols)
    decreases |t|
  {
    if |t| == 0 then []
    else
      var init, last := t[..|t| - 1], t[|t| - 1];
      var u := Unique(init, cols);
      KeepSound(u, init, t, cols);
      Keep(u, last, cols)
  }

  /** Rows taken from a prefix of `t` are rows of `t`. */
  lemma MembersOfPrefix(u: Table, t: Table)
    requires |t| > 0
    requires forall j :: 0 <= j < |u| ==> u[j] in t[..|t| - 1]
    ensures forall j :: 0 <= j < |u| ==> u[j] in t
  {
    forall j | 0 <= j < |u|
      ensures u[j] in t
    {
      var i :| 0 <= i < |t| - 1 && t[..|t| - 1][i] == u[j];
      assert t[i] == u[j];
    }
  }

  /** One step of `Unique` keeps its four promises. */
  lemma {:induction false} KeepSound(u: Table, init: Table, t: Table, cols: seq<string>)
    requires |t| > 0 && init == t[..|t| - 1]
    requires |u| <= |init|
    requires forall j :: 0 <= j < |u| ==> u[j] in init
    requires Covers(u, init, cols) && DistinctOn(u, cols)
    ensures var k := Keep(u, t[|t| - 1], cols);
      && |k| <= |t|
      && (forall j :: 0 <= j < |k| ==> k[j] in t)
      && Covers(k, t, cols)
      && DistinctOn(k, cols)
  {
    MembersOfPrefix(u, t);
    if Represented(t[|t| - 1], u, cols) {
      ExtendCover(u, t, cols);
    } else {
      KeepAppended(u, init, t, cols, u + [t[|t| - 1]]);
    }
  }

  /** A row no kept row agrees with is appended, and the result still
      covers and stays distinct. */
  lemma {:induction false} KeepAppended(u: Table, init: Table, t: Table, cols: seq<string>, u': Table)
    requires |t| > 0 && init == t[..|t| - 1]
    requires forall j :: 0 <= j < |u| ==> u[j] in t
    requires Covers(u, init, cols) && DistinctOn(u, cols)
    requires !Represented(t[|t| - 1], u, cols)
    requires u' == u + [t[|t| - 1]]
    ensures forall j :: 0 <= j < |u'| ==> u'[j] in t
    ensures Covers(u', t, cols)
    ensures DistinctOn(u', cols)
  {
    var last := t[|t| - 1];
    AppendDistinct(u, last, cols);
    CoverGrows(u, init, cols, last);
    assert AgreeOn(last, u'[|u|], cols);
    ExtendCover(u', t, cols);
  }

  lemma SplitLast(t: Table)
    requires |t| > 0
    ensures t[..|t| - 1] + [t[|t| - 1]] == t
  {
  }

  /** A prefix of a distinct table is distinct. */
  lemma DistinctPrefix(t: Table, cols: seq<string>)
    requires |t| > 0 && DistinctOn(t, cols)
    ensures DistinctOn(t[..|t| - 1], cols)
    ensures !Represented(t[|t| - 1], t[..|t| - 1], cols)
  {
    var init := t[..|t| - 1];
    forall i, j | 0 <= i < j < |init|
      ensures !AgreeOn(init[i], init[j], cols)
    {
      assert init[i] == t[i] && init[j] == t[j];
    }
    forall w | 0 <= w < |init|
      ensures !AgreeOn(t[|t| - 1], init[w], cols)
    {
      assert init[w] == t[w];
      AgreeSymmetric(t[|t| - 1], t[w], cols);
    }
  }

  /** A table whose rows already differ on `cols` is left exactly as it is. */
  lemma {:induction false} UniqueOfDistinct(t: Table, cols: seq<string>)
    requires DistinctOn(t, cols)
    ensures Unique(t, cols) == t
    decreases |t|
  {
    if |t| > 0 {
      var init, last := t[..|t| - 1], t[|t| - 1];
      DistinctPrefix(t, cols);
      UniqueOfDistinct(init, cols);
      SplitLast(t);
      calc {
        Unique(t, cols);
        Keep(Unique(init, cols), last, cols);
        Keep(init, last, cols);
        init + [last];
      }
    }
  }

  /** De-duplicating a de-duplicated table removes nothing. */
  lemma UniqueTwice(t: Table, cols: seq<string>)
    ensures Unique(Unique(t, cols), cols) == Unique(t, cols)
  {
    UniqueOfDistinct(Unique(t, cols), cols);
  }

  /** Changing columns outside `cols` keeps rows distinct on `cols`. */
  lemma DistinctKept(u: Table, f: Table, cols: seq<string>)
    requires |f| == |u| && DistinctOn(u, cols)
    requires forall j, k :: 0 <= j < |u| && 0 <= k < |cols| ==> Get(f[j], cols[k]) == Get(u[j], cols[k])
    ensures DistinctOn(f, cols)
  {
    forall i, j | 0 <= i < j < |f|
      ensures !AgreeOn(f[i], f[j], cols)
    {
      if AgreeOn(f[i], f[j], cols) {
        assert AgreeOn(u[i], u[j], cols);
      }
    }
  }

  /** Two tables that hold the same cells in the listed columns flag the
      same rows as duplicated on those columns. */
  lemma SameDuplicatesOn(t: Table, u: Table, cols: seq<string>)
    requires |u| == |t|
    requires forall j, k :: 0 <= j < |t| && 0 <= k < |cols| ==> Get(u[j], cols[k]) == Get(t[j], cols[k])
    ensures forall i :: 0 <= i < |t| ==> (DuplicatedOn(u, i, cols) <==> DuplicatedOn(t, i, cols))
  {
    forall i, j | 0 <= i < |t| && 0 <= j < |t|
      ensures AgreeOn(u[i], u[j], cols) <==> AgreeOn(t[i], t[j], cols)
    {
    }
  }
}
