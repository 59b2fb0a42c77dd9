/** The trusted step for the parts sales history: the sale date parsed
    from `%Y-%m-%d`, rows that agree on eighteen listed columns reduced to
    one, the part category standardised through a fixed table, the
    mistyped branch code "1-1-3" fixed, and four amounts zeroed, each into
    a new `_Ajustado` column, when no unit was sold. */
module HistoricoVendaPecas {
  import opened Wrappers
  import opened Frame
  import opened Lookup
  import opened Rules
  import opened Duplicates
  import opened Strptime
  import opened Naming

  /** The columns the script reads and writes; `valores` are the amounts
      zeroed when the quantity is 0, and `subset` the columns
      de-duplication compares. */
  datatype Columns = Columns(
    data: string, categoria: string, padronizada: string, filial: string, filialAjustado: string,
    quantidade: string, valores: seq<string>, subset: seq<string>)

  const Names := Columns(
    "Data_da_Venda", "Categoria_da_Peca", "Categoria_da_Peca_Padronizada", "Cod_Filial",
    "Cod_Filial_Ajustado", "Quantidade_Vendida", ZerarValores, ColunasSubset)

  /** `zerar_valores` */
  const ZerarValores: seq<string> := ["Valor_da_Venda", "Custo_da_Peca", "Lucro_da_Venda", "Margem_da_Venda"]

  /** `colunas_subset` */
  const ColunasSubset: seq<string> := [
    "Cod_Concessionaria", "Cod_Filial", "Nome_da_Concessionaria", "Nome_da_Filial",
    "Marca_da_Filial", "Data_da_Venda", "Quantidade_Vendida", "Valor_da_Venda",
    "Custo_da_Peca", "Lucro_da_Venda", "Margem_da_Venda", "Descricao_da_Peca",
    "Categoria_da_Peca", "Departamento_da_Venda", "Tipo_de_Venda_da_Peca", "Cidade_da_Venda",
    "Estado_Brasileiro_da_Venda", "Macroregiao_Geografica_da_Venda"
  ]

  /** `c` is one of the columns the script adds. */
  predicate Written(n: Columns, c: string) {
    c == n.padronizada || c == n.filialAjustado || c in AdjustedNames(n.valores)
  }

  /** No column the script reads is one it writes, the written columns
      are distinct, and the date parse touches no other column read. */
  predicate Separate(n: Columns) {
    InputsUnwritten(n) && OutputsDistinct(n) && ParseApart(n)
  }

  predicate InputsUnwritten(n: Columns) {
    && !Written(n, n.data) && !Written(n, n.categoria) && !Written(n, n.filial) && !Written(n, n.quantidade)
    && (forall k :: 0 <= k < |n.valores| ==> !Written(n, n.valores[k]))
    && (forall k :: 0 <= k < |n.subset| ==> !Written(n, n.subset[k]))
  }

  predicate OutputsDistinct(n: Columns) {
    && n.padronizada != n.filialAjustado
    && n.padronizada !in AdjustedNames(n.valores) && n.filialAjustado !in AdjustedNames(n.valores)
    && Distinct(n.valores)
  }

  /** De-duplication compares the sale date, and the date is none of the
      other columns read. */
  predicate ParseApart(n: Columns) {
    && n.data in n.subset
    && n.data != n.categoria && n.data != n.filial && n.data != n.quantidade && n.data !in n.valores
  }

  lemma AjustadoValor()
    ensures Ajustado("Valor_da_Venda") == "Valor_da_Venda_Ajustado"
  {
  }

  lemma AjustadoCusto()
    ensures Ajustado("Custo_da_Peca") == "Custo_da_Peca_Ajustado"
  {
  }

  lemma AjustadoLucro()
    ensures Ajustado("Lucro_da_Venda") == "Lucro_da_Venda_Ajustado"
  {
  }

  lemma AjustadoMargem()
    ensures Ajustado("Margem_da_Venda") == "Margem_da_Venda_Ajustado"
  {
  }

  /** The four adjusted column names. */
  const AdjustedAmounts: seq<string> :=
    ["Valor_da_Venda_Ajustado", "Custo_da_Peca_Ajustado", "Lucro_da_Venda_Ajustado", "Margem_da_Venda_Ajustado"]

  lemma AdjustedNamesOfAmounts()
    ensures AdjustedNames(ZerarValores) == AdjustedAmounts
  {
    AjustadoValor();
    AjustadoCusto();
    AjustadoLucro();
    AjustadoMargem();
  }

  /** `c` is none of the names the script writes. */
  predicate Unwritten(c: string) {
    c != "Categoria_da_Peca_Padronizada" && c != "Cod_Filial_Ajustado" && c !in AdjustedAmounts
  }

  lemma SubsetUnwrittenFirst()
    ensures forall k :: 0 <= k < 6 ==> Unwritten(ColunasSubset[k])
  {
  }

  lemma SubsetUnwrittenSecond()
    ensures forall k :: 6 <= k < 12 ==> Unwritten(ColunasSubset[k])
  {
  }

  lemma SubsetUnwrittenThird()
    ensures forall k :: 12 <= k < 18 ==> Unwritten(ColunasSubset[k])
  {
  }

  lemma NamesInputsUnwritten()
    ensures InputsUnwritten(Names)
  {
    AdjustedNamesOfAmounts();
    SubsetUnwrittenFirst();
    SubsetUnwrittenSecond();
    SubsetUnwrittenThird();
    assert forall k :: 0 <= k < |ColunasSubset| ==> !Written(Names, ColunasSubset[k]);
    assert forall k :: 0 <= k < |ZerarValores| ==> ZerarValores[k] == ColunasSubset[k + 7];
  }

  lemma NamesOutputsDistinct()
    ensures OutputsDistinct(Names)
  {
    AdjustedNamesOfAmounts();
  }

  lemma NamesParseApart()
    ensures ParseApart(Names)
  {
    assert Names.data == ColunasSubset[5];
  }

  /** The names of the script satisfy `Separate`. */
  lemma NamesSeparate()
    ensures Separate(Names)
  {
    NamesInputsUnwritten();
    NamesOutputsDistinct();
    NamesParseApart();
  }

  /** `categorias_padrao` */
  const CategoriasPadrao: map<string, string> := map[
    "ACESS.NAO ORIGINAIS" := "ACESSORIOS NÃO ORIGINAIS",
    "ACESSORIOS NAO ORIGI" := "ACESSORIOS NÃO ORIGINAIS",
    "ACESSORIOS NAO ORIG" := "ACESSORIOS NÃO ORIGINAIS",
    "ACESSORIOS ORIGINAIS" := "ACESSORIOS ORIGINAIS",
    "NISSAN-ACES. ORIG." := "ACESSORIOS ORIGINAIS",
    "NISSAN-ACES.NAO ORIG" := "ACESSORIOS NÃO ORIGINAIS",
    "NISSAN-COM LUBRIF." := "LUBRIFICANTES/COMBUSTÍVEL",
    "COMB./LUB." := "LUBRIFICANTES/COMBUSTÍVEL",
    "LUBRIFICANTES" := "LUBRIFICANTES/COMBUSTÍVEL",
    "LUBRIFICANTES/COMB." := "LUBRIFICANTES/COMBUSTÍVEL",
    "NISSAN-COM. LUBRIF." := "LUBRIFICANTES/COMBUSTÍVEL",
    "VOLKS-COM. LUBRIF." := "LUBRIFICANTES/COMBUSTÍVEL",
    "PECAS NAO ORIGINAIS" := "PEÇAS NÃO ORIGINAIS",
    "VOLKS-PEC. NAO ORIG." := "PEÇAS NÃO ORIGINAIS",
    "PEÇAS N.ORIGINAIS" := "PEÇAS NÃO ORIGINAIS",
    "FORD-PECAS NAO ORIG." := "PEÇAS NÃO ORIGINAIS",
    "NISSAN-PEC NAO ORIG." := "PEÇAS NÃO ORIGINAIS",
    "GM-PECAS ORIG. " := "PEÇAS ORIGINAIS",
    "NISSAN-PECAS ORIG." := "PEÇAS ORIGINAIS",
    "PECAS ORIGINAIS VW" := "PEÇAS ORIGINAIS",
    "PECAS ORIGINAIS" := "PEÇAS ORIGINAIS",
    "PEÇAS ORIGINAIS" := "PEÇAS ORIGINAIS",
    "VOLKS-PECAS ORIG." := "PEÇAS ORIGINAIS",
    "PNEUS" := "PNEUS",
    "VOLKS-PNEUS" := "PNEUS",
    "NISSAN-PNEUS" := "PNEUS",
    "OUTRAS MERCADORIAS" := "OUTRAS MERCADORIAS",
    "VOLKS-OUTRAS MERCAD." := "OUTRAS MERCADORIAS"
  ]

  /** The canonical names that are also keys of the table. */
  const FixedNames: set<string> := {"ACESSORIOS ORIGINAIS", "PEÇAS ORIGINAIS", "PNEUS", "OUTRAS MERCADORIAS"}

  /** The canonical names that are not keys of the table. */
  const FreshNames: set<string> := {"ACESSORIOS NÃO ORIGINAIS", "LUBRIFICANTES/COMBUSTÍVEL", "PEÇAS NÃO ORIGINAIS"}

  /** Every key maps to a canonical name. */
  lemma CategoriasPadraoCanonical()
    ensures forall k :: k in CategoriasPadrao ==> CategoriasPadrao[k] in FixedNames + FreshNames
  {
  }

  lemma FixedNamesFixed()
    ensures forall c :: c in FixedNames ==> c in CategoriasPadrao && CategoriasPadrao[c] == c
  {
  }

  lemma FreshNamesNotKeys()
    ensures forall c :: c in FreshNames ==> c !in CategoriasPadrao
  {
  }

  /** Standardising a standardised category changes nothing. */
  lemma CategoriasPadraoIdempotent()
    ensures Idempotent(CategoriasPadrao)
  {
    CategoriasPadraoCanonical();
    FixedNamesFixed();
    FreshNamesNotKeys();
  }

  lemma StandardiseTwice(c: Cell)
    ensures Replace(CategoriasPadrao, Replace(CategoriasPadrao, c)) == Replace(CategoriasPadrao, c)
  {
    CategoriasPadraoIdempotent();
    ReplaceTwiceIff(CategoriasPadrao);
  }

  /** The lookup is on the exact text: the key carries a trailing space,
      so the same code without it is left as it is. */
  lemma TrailingSpaceMatters()
    ensures Replace(CategoriasPadrao, Some(Text("GM-PECAS ORIG. "))) == Some(Text("PEÇAS ORIGINAIS"))
    ensures Replace(CategoriasPadrao, Some(Text("GM-PECAS ORIG."))) == Some(Text("GM-PECAS ORIG."))
  {
    assert "GM-PECAS ORIG." !in CategoriasPadrao;
  }

  /** The branch codes this script fixes. */
  const BadBranches: set<string> := {"1-1-3"}

  /** One row of `with_columns([when(q == 0).then(0).otherwise(col)
      .alias(col + "_Ajustado") for col in cols])`: every expression reads
      the row as it was, `orig`, and each writes its own column into
      `row`. */
  function ZeroUpdates(orig: Row, q: string, cols: seq<string>, k: nat, row: Row): (r: Row)
    requires Distinct(cols) && k <= |cols|
    ensures forall j :: k <= j < |cols| ==>
      Get(r, Ajustado(cols[j])) == ZeroWhenNoQuantity(Get(orig, q), Get(orig, cols[j]))
    ensures forall d :: OutsideAdjusted(d, cols, k) ==> Get(r, d) == Get(row, d)
    decreases |cols| - k
  {
    if k == |cols| then row
    else
      var r := ZeroUpdates(orig, q, cols, k + 1, row[Ajustado(cols[k]) := ZeroWhenNoQuantity(Get(orig, q), Get(orig, cols[k]))]);
      assert forall j :: k < j < |cols| ==> Ajustado(cols[j]) != Ajustado(cols[k]) by {
        forall j | k < j < |cols|
          ensures Ajustado(cols[j]) != Ajustado(cols[k])
        {
          AjustadoInjective(cols[j], cols[k]);
        }
      }
      r
  }

  /** The four zeroing expressions over the whole table. */
  function ZeroColumns(t: Table, q: string, cols: seq<string>): (u: Table)
    requires Distinct(cols)
    ensures |u| == |t|
    ensures forall i, k :: 0 <= i < |t| && 0 <= k < |cols| ==>
      Get(u[i], Ajustado(cols[k])) == ZeroWhenNoQuantity(Get(t[i], q), Get(t[i], cols[k]))
    ensures forall i, d :: 0 <= i < |t| && d !in AdjustedNames(cols) ==> Get(u[i], d) == Get(t[i], d)
  {
    var u := seq(|t|, i requires 0 <= i < |t| => ZeroUpdates(t[i], q, cols, 0, t[i]));
    assert forall d :: d !in AdjustedNames(cols) ==> OutsideAdjusted(d, cols, 0) by {
      forall d | d !in AdjustedNames(cols)
        ensures OutsideAdjusted(d, cols, 0)
      {
        OutsideAdjustedIff(d, cols);
      }
    }
    u
  }

  /** What lines 111 to 143 compute for a row, from that row's values. */
  predicate Computed(n: Columns, row: Row, out: Row) {
    && Get(out, n.padronizada) == Replace(CategoriasPadrao, Get(row, n.categoria))
    && Get(out, n.filialAjustado) == RemapBranch(BadBranches, Get(row, n.filial))
    && (forall k :: 0 <= k < |n.valores| ==>
          Get(out, Ajustado(n.valores[k])) == ZeroWhenNoQuantity(Get(row, n.quantidade), Get(row, n.valores[k])))
    && (forall k :: 0 <= k < |n.valores| ==> Get(out, n.valores[k]) == Get(row, n.valores[k]))
  }

  /** Lines 111 to 143: the standardised category, the fixed branch code
      and the four adjusted amounts. */
  function Finish(n: Columns, u: Table): (f: Table)
    requires Separate(n)
    ensures |f| == |u|
    ensures forall j :: 0 <= j < |u| ==> Computed(n, u[j], f[j])
    ensures forall j, d :: 0 <= j < |u| && !Written(n, d) ==> Get(f[j], d) == Get(u[j], d)
  {
    var u1 := ReplaceColumn(u, n.categoria, n.padronizada, CategoriasPadrao);
    var u2 := WithColumn(u1, n.filialAjustado, row => RemapBranch(BadBranches, Get(row, n.filial)));
    var f := ZeroColumns(u2, n.quantidade, n.valores);
    assert forall j :: 0 <= j < |u| ==> Computed(n, u[j], f[j]) by {
      forall j | 0 <= j < |u|
        ensures Computed(n, u[j], f[j])
      {
        FinishRow(n, u[j], u1[j], u2[j], f[j]);
      }
    }
    f
  }

  lemma FinishRow(n: Columns, row: Row, r1: Row, r2: Row, out: Row)
    requires Separate(n)
    requires Get(r1, n.padronizada) == Replace(CategoriasPadrao, Get(row, n.categoria))
    requires forall d :: d != n.padronizada ==> Get(r1, d) == Get(row, d)
    requires Get(r2, n.filialAjustado) == RemapBranch(BadBranches, Get(r1, n.filial))
    requires forall d :: d != n.filialAjustado ==> Get(r2, d) == Get(r1, d)
    requires forall k :: 0 <= k < |n.valores| ==>
      Get(out, Ajustado(n.valores[k])) == ZeroWhenNoQuantity(Get(r2, n.quantidade), Get(r2, n.valores[k]))
    requires forall d :: d !in AdjustedNames(n.valores) ==> Get(out, d) == Get(r2, d)
    ensures Computed(n, row, out)
  {
    forall k | 0 <= k < |n.valores|
      ensures Get(out, n.valores[k]) == Get(row, n.valores[k])
    {
      assert !Written(n, n.valores[k]);
    }
  }

  /** The output row `out` carries the sale date parsed from `row` and
      every other compared column of `row` unchanged. */
  predicate Matches(n: Columns, row: Row, out: Row) {
    && IsoParsed(Get(row, n.data), Get(out, n.data))
    && forall k :: 0 <= k < |n.subset| && n.subset[k] != n.data ==> Get(out, n.subset[k]) == Get(row, n.subset[k])
  }

  /** `out` is what the script makes of the input row `row`: the date
      parsed, the written columns computed, and every column the script
      does not write, compared or not, carried over from `row`. */
  ghost predicate Derived(n: Columns, row: Row, out: Row) {
    && Matches(n, row, out)
    && Computed(n, row, out)
    && forall d :: d != n.data && !Written(n, d) ==> Get(out, d) == Get(row, d)
  }

  /** `out` comes from some input row. */
  ghost predicate FromInput(n: Columns, t: Table, out: Row) {
    exists i :: 0 <= i < |t| && Derived(n, t[i], out)
  }

  /** Some output row matches the input row `row`. */
  predicate KeptIn(n: Columns, row: Row, f: Table) {
    exists j :: 0 <= j < |f| && Matches(n, row, f[j])
  }

  predicate DateFails(n: Columns, row: Row) {
    ConvertCell(Get(row, n.data), IsoDay).None?
  }

  /** The parse changed the date of `row` into `p` and nothing else. */
  ghost predicate ParsedRow(n: Columns, row: Row, p: Row) {
    IsoParsed(Get(row, n.data), Get(p, n.data)) && forall d :: d != n.data ==> Get(p, d) == Get(row, d)
  }

  /** An output row made from the parsed `p` is derived from the raw row. */
  lemma DerivedRow(n: Columns, row: Row, p: Row, out: Row)
    requires Separate(n)
    requires ParsedRow(n, row, p)
    requires Computed(n, p, out)
    requires forall d :: !Written(n, d) ==> Get(out, d) == Get(p, d)
    ensures Derived(n, row, out)
  {
    forall k | 0 <= k < |n.subset|
      ensures Get(out, n.subset[k]) == Get(p, n.subset[k])
    {
      assert !Written(n, n.subset[k]);
    }
  }

  /** An output row made from a parsed row agreeing with `p` on the
      compared columns matches the raw row of `p`. */
  lemma MatchesRow(n: Columns, row: Row, p: Row, v: Row, out: Row)
    requires Separate(n)
    requires ParsedRow(n, row, p)
    requires AgreeOn(p, v, n.subset)
    requires forall d :: !Written(n, d) ==> Get(out, d) == Get(v, d)
    ensures Matches(n, row, out)
  {
    forall k | 0 <= k < |n.subset|
      ensures Get(out, n.subset[k]) == Get(p, n.subset[k])
    {
      assert !Written(n, n.subset[k]);
    }
    var k :| 0 <= k < |n.subset| && n.subset[k] == n.data;
  }

  /** The whole script, with the columns named in `n`; the script itself is
      `Trusted(Names, t)`. The output has no more rows than the input, no
      two output rows agree on the compared columns, every output row is
      made from an input row, and every input row is matched by an output
      row. */
  function Trusted(n: Columns, t: Table): (r: Result<Table, Error>)
    requires Separate(n)
    ensures r.Failure? <==> exists i :: 0 <= i < |t| && DateFails(n, t[i])
    ensures r.Success? ==> |r.value| <= |t|
    ensures r.Success? ==> DistinctOn(r.value, n.subset)
    ensures r.Success? ==> forall j :: 0 <= j < |r.value| ==> FromInput(n, t, r.value[j])
    ensures r.Success? ==> forall i :: 0 <= i < |t| ==> KeptIn(n, t[i], r.value)
  {
    match ParseIsoColumn(t, n.data)
    case Failure(e) => Failure(e)
    case Success(p) =>
      assert forall i :: 0 <= i < |t| ==> ParsedRow(n, t[i], p[i]);
      var u := Unique(p, n.subset);
      var f := Finish(n, u);
      TrustedFacts(n, t, p, u, f);
      Success(f)
  }

  lemma TrustedFacts(n: Columns, t: Table, p: Table, u: Table, f: Table)
    requires Separate(n)
    requires |p| == |t| && forall i :: 0 <= i < |t| ==> ParsedRow(n, t[i], p[i])
    requires |u| <= |p| && (forall j :: 0 <= j < |u| ==> u[j] in p)
    requires Covers(u, p, n.subset) && DistinctOn(u, n.subset)
    requires |f| == |u| && forall j :: 0 <= j < |u| ==> Computed(n, u[j], f[j])
    requires forall j, d :: 0 <= j < |u| && !Written(n, d) ==> Get(f[j], d) == Get(u[j], d)
    ensures DistinctOn(f, n.subset)
    ensures forall j :: 0 <= j < |f| ==> FromInput(n, t, f[j])
    ensures forall i :: 0 <= i < |t| ==> KeptIn(n, t[i], f)
  {
    OutputDistinct(n, u, f);
    OutputFromInput(n, t, p, u, f);
    InputKept(n, t, p, u, f);
  }

  lemma OutputDistinct(n: Columns, u: Table, f: Table)
    requires Separate(n)
    requires DistinctOn(u, n.subset) && |f| == |u|
    requires forall j, d :: 0 <= j < |u| && !Written(n, d) ==> Get(f[j], d) == Get(u[j], d)
    ensures DistinctOn(f, n.subset)
  {
    forall j, k | 0 <= j < |u| && 0 <= k < |n.subset|
      ensures Get(f[j], n.subset[k]) == Get(u[j], n.subset[k])
    {
      assert !Written(n, n.subset[k]);
    }
    DistinctKept(u, f, n.subset);
  }

  lemma OutputFromInput(n: Columns, t: Table, p: Table, u: Table, f: Table)
    requires Separate(n)
    requires |p| == |t| && forall i :: 0 <= i < |t| ==> ParsedRow(n, t[i], p[i])
    requires forall j :: 0 <= j < |u| ==> u[j] in p
    requires |f| == |u| && forall j :: 0 <= j < |u| ==> Computed(n, u[j], f[j])
    requires forall j, d :: 0 <= j < |u| && !Written(n, d) ==> Get(f[j], d) == Get(u[j], d)
    ensures forall j :: 0 <= j < |f| ==> FromInput(n, t, f[j])
  {
    forall j | 0 <= j < |f|
      ensures FromInput(n, t, f[j])
    {
      var i :| 0 <= i < |p| && p[i] == u[j];
      DerivedRow(n, t[i], p[i], f[j]);
    }
  }

  lemma InputKept(n: Columns, t: Table, p: Table, u: Table, f: Table)
    requires Separate(n)
    requires |p| == |t| && forall i :: 0 <= i < |t| ==> ParsedRow(n, t[i], p[i])
    requires Covers(u, p, n.subset) && |f| == |u|
    requires forall j, d :: 0 <= j < |u| && !Written(n, d) ==> Get(f[j], d) == Get(u[j], d)
    ensures forall i :: 0 <= i < |t| ==> KeptIn(n, t[i], f)
  {
    forall i | 0 <= i < |t|
      ensures KeptIn(n, t[i], f)
    {
      assert Represented(p[i], u, n.subset);
      var j :| 0 <= j < |u| && AgreeOn(p[i], u[j], n.subset);
      MatchesRow(n, t[i], p[i], u[j], f[j]);
    }
  }
}
