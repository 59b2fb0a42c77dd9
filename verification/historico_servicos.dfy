/** The trusted step for the service history: the service date parsed from
    `%Y-%m-%d`, the service category standardised through a fixed table,
    the total of each service order joined onto its rows, the mistyped
    branch code "1-1-3" fixed, positive amounts of free revisions zeroed,
    and negative service hours made positive. Every step adds a column, so
    no row is added or lost. */
module HistoricoServicos {
  import opened Wrappers
  import opened Frame
  import opened Lookup
  import opened Rules
  import opened Grouping
  import opened Strptime

  /** The columns the script reads and writes. */
  datatype Columns = Columns(
    data: string, categoria: string, padronizada: string, ordem: string, valor: string,
    total: string, filial: string, filialAjustado: string, valorAjustado: string,
    horas: string, horasAjustado: string)

  const Names := Columns(
    "Data_De_Realizacao_Do_Servico", "Categoria_Do_Servico", "Categoria_Do_Servico_Padronizada",
    "Numero_Da_OS_De_Servico", "Valor_Total_Do_Servico_Realizado", "Total_OS",
    "Cod_Filial", "Cod_Filial_Ajustado", "Valor_Do_Servico_Ajustado_Com_Revisao_Gratuita",
    "Tempo_Que_O_Servico_Levou_Para_Ser_Realizado_em_Horas", "Tempo_Do_Servico_Horas_Ajustado")

  /** The written columns are distinct from each other and from every
      column the script reads, so no step overwrites an input of a later
      one. */
  predicate Separate(n: Columns) {
    && n.padronizada != n.total && n.padronizada != n.filialAjustado && n.padronizada != n.valorAjustado
    && n.padronizada != n.horasAjustado && n.total != n.filialAjustado && n.total != n.valorAjustado
    && n.total != n.horasAjustado && n.filialAjustado != n.valorAjustado && n.filialAjustado != n.horasAjustado
    && n.valorAjustado != n.horasAjustado
    && !ReadsFrom(n, n.padronizada) && !ReadsFrom(n, n.total) && !ReadsFrom(n, n.filialAjustado)
    && !ReadsFrom(n, n.valorAjustado) && !ReadsFrom(n, n.horasAjustado)
    && n.data != n.categoria && n.data != n.ordem && n.data != n.valor && n.data != n.filial && n.data != n.horas
  }

  /** `c` is one of the columns the script reads from the raw table. */
  predicate ReadsFrom(n: Columns, c: string) {
    c == n.data || c == n.categoria || c == n.ordem || c == n.valor || c == n.filial || c == n.horas
  }

  /** `c` is one of the columns the script adds. */
  predicate WritesTo(n: Columns, c: string) {
    c == n.padronizada || c == n.total || c == n.filialAjustado || c == n.valorAjustado || c == n.horasAjustado
  }

  lemma NamesSeparate()
    ensures Separate(Names)
  {
  }

  /** `padronizar_categoria_serviço` */
  const CategoriaServico: map<string, string> := map[
    "ACESSORIOS" := "ACESSORIOS",
    "ALINHAMENTO/BALANCEAMENTO" := "ALINHAMENTO E BALANCEAMENTO",
    "ALINHAMENTO E BALANCEAMEN" := "ALINHAMENTO E BALANCEAMENTO",
    "LUBRIFICACAO" := "LUBRIFICAÇÃO",
    "LUBRIFICAÇÃO" := "LUBRIFICAÇÃO",
    "MECANICA GERAL" := "MECANICA",
    "MECANICA E ELETRICA" := "MECANICA",
    "MECANICA" := "MECANICA",
    "PDI-REVISÃO DE ENTREGA" := "REVISÃO",
    "REVISAO PROGRAMADA" := "REVISÃO",
    "REVISAO GRATUITA" := "REVISÃO GRATUITA",
    "REVISAO" := "REVISÃO",
    "SERV TERCEIROS" := "SERVIÇOS DE TERCEIRO",
    "SERVICO TERCEIRO" := "SERVIÇOS DE TERCEIRO",
    "SERVIÇOS DE TERCEIROS" := "SERVIÇOS DE TERCEIRO",
    "ELETRIC" := "ELETRICA",
    "FUNILARI" := "FUNILARIA",
    "MONTAGEM" := "MONTAGEM",
    "LAVAGE" := "LAVAGEM",
    "PINTURA" := "PINTURA",
    "DEMAIS CATEGORIA" := "OUTROS"
  ]

  /** The canonical names that are also keys of the table. */
  const FixedNames: set<string> := {"ACESSORIOS", "LUBRIFICAÇÃO", "MECANICA", "MONTAGEM", "PINTURA"}

  /** The canonical names that are not keys of the table. */
  const FreshNames: set<string> := {
    "ALINHAMENTO E BALANCEAMENTO", "REVISÃO", "REVISÃO GRATUITA", "SERVIÇOS DE TERCEIRO",
    "ELETRICA", "FUNILARIA", "LAVAGEM", "OUTROS"
  }

  const RevisaoGratuita := "REVISÃO GRATUITA"

  /** Every key maps to a canonical name. */
  lemma CategoriaServicoCanonical()
    ensures forall k :: k in CategoriaServico ==> CategoriaServico[k] in FixedNames + FreshNames
  {
  }

  /** The canonical names that are keys map to themselves. */
  lemma FixedNamesFixed()
    ensures forall c :: c in FixedNames ==> c in CategoriaServico && CategoriaServico[c] == c
  {
  }

  /** The canonical names that are not keys are indeed not keys. */
  lemma FreshNamesNotKeys()
    ensures forall c :: c in FreshNames ==> c !in CategoriaServico
  {
    FreshNamesNotKeysFirst();
    FreshNamesNotKeysSecond();
  }

  lemma FreshNamesNotKeysFirst()
    ensures "ALINHAMENTO E BALANCEAMENTO" !in CategoriaServico && "REVISÃO" !in CategoriaServico
    ensures "REVISÃO GRATUITA" !in CategoriaServico && "SERVIÇOS DE TERCEIRO" !in CategoriaServico
  {
  }

  lemma FreshNamesNotKeysSecond()
    ensures "ELETRICA" !in CategoriaServico && "FUNILARIA" !in CategoriaServico
    ensures "LAVAGEM" !in CategoriaServico && "OUTROS" !in CategoriaServico
  {
  }

  /** Standardising a standardised category changes nothing. */
  lemma CategoriaServicoIdempotent()
    ensures Idempotent(CategoriaServico)
  {
    CategoriaServicoCanonical();
    FixedNamesFixed();
    FreshNamesNotKeys();
  }

  lemma StandardiseTwice(c: Cell)
    ensures Replace(CategoriaServico, Replace(CategoriaServico, c)) == Replace(CategoriaServico, c)
  {
    CategoriaServicoIdempotent();
    ReplaceTwiceIff(CategoriaServico);
  }

  /** Only the raw "REVISAO GRATUITA" is mapped to "REVISÃO GRATUITA". */
  lemma OnlyOneKeyIsFreeRevision()
    ensures "REVISAO GRATUITA" in CategoriaServico && CategoriaServico["REVISAO GRATUITA"] == RevisaoGratuita
    ensures forall k :: k in CategoriaServico && CategoriaServico[k] == RevisaoGratuita ==> k == "REVISAO GRATUITA"
  {
  }

  /** A standardised category is "REVISÃO GRATUITA" exactly when the raw
      category is "REVISAO GRATUITA" or already "REVISÃO GRATUITA". */
  lemma FreeRevisionCategories(c: Cell)
    ensures IsText(Replace(CategoriaServico, c), RevisaoGratuita) <==>
      IsText(c, "REVISAO GRATUITA") || IsText(c, RevisaoGratuita)
  {
    OnlyOneKeyIsFreeRevision();
    FreshNamesNotKeys();
    assert RevisaoGratuita in FreshNames;
  }

  predicate Positive(v: Cell) {
    v.Some? && v.value.Num? && v.value.x > 0.0
  }

  /** `when((category == "REVISÃO GRATUITA") & (value > 0)).then(0)
      .otherwise(value)`: a missing category or value takes `otherwise`. */
  function FreeRevision(category: Cell, v: Cell): (r: Cell)
    ensures IsText(category, RevisaoGratuita) && Positive(v) ==> IsZero(r)
    ensures !(IsText(category, RevisaoGratuita) && Positive(v)) ==> r == v
    ensures IsText(category, RevisaoGratuita) ==> !Positive(r)
  {
    if IsText(category, RevisaoGratuita) && Positive(v) then Some(Num(0.0)) else v
  }

  /** The rule tests the standardised category, so a raw "REVISAO GRATUITA"
      with a positive amount is zeroed too. */
  lemma RawFreeRevisionZeroed(v: Cell)
    requires Positive(v)
    ensures IsZero(FreeRevision(Replace(CategoriaServico, Some(Text("REVISAO GRATUITA"))), v))
  {
    OnlyOneKeyIsFreeRevision();
  }

  /** The branch codes this script fixes. */
  const BadBranches: set<string> := {"1-1-3"}

  /** What the script makes of one row, column by column, stated on the
      table `t` it started from. */
  predicate Adjusted(n: Columns, t: Table, i: int, out: Row)
    requires 0 <= i < |t|
  {
    Standardised(n, t, i, out) && Fixed(n, t[i], out)
  }

  /** The standardised category and the total of the row's service order. */
  predicate Standardised(n: Columns, t: Table, i: int, out: Row)
    requires 0 <= i < |t|
  {
    var row := t[i];
    && Get(out, n.padronizada) == Replace(CategoriaServico, Get(row, n.categoria))
    && (Get(row, n.ordem).None? ==> Get(out, n.total).None?)
    && (Get(row, n.ordem).Some? ==>
          Get(out, n.total) == Some(Num(SumWhere(t, n.ordem, n.valor, Get(row, n.ordem)))))
  }

  /** The fixed branch code, the free-revision amount and the hours. */
  predicate Fixed(n: Columns, row: Row, out: Row) {
    && Get(out, n.filialAjustado) == RemapBranch(BadBranches, Get(row, n.filial))
    && Get(out, n.valorAjustado) == FreeRevision(Replace(CategoriaServico, Get(row, n.categoria)), Get(row, n.valor))
    && Get(out, n.horasAjustado) == Absolute(Get(row, n.horas))
  }

  /** Lines 102 to 113: the standardised category and the order totals. */
  function Standardise(n: Columns, t: Table): (u: Table)
    requires Separate(n)
    ensures |u| == |t|
    ensures forall i :: 0 <= i < |t| ==> Get(u[i], n.padronizada) == Replace(CategoriaServico, Get(t[i], n.categoria))
    ensures forall i :: 0 <= i < |t| && Get(t[i], n.ordem).None? ==> Get(u[i], n.total).None?
    ensures forall i :: 0 <= i < |t| && Get(t[i], n.ordem).Some? ==>
      Get(u[i], n.total) == Some(Num(SumWhere(t, n.ordem, n.valor, Get(t[i], n.ordem))))
    ensures forall i, d :: 0 <= i < |t| && d != n.padronizada && d != n.total ==> Get(u[i], d) == Get(t[i], d)
  {
    var t1 := ReplaceColumn(t, n.categoria, n.padronizada, CategoriaServico);
    forall k ensures SumWhere(t1, n.ordem, n.valor, k) == SumWhere(t, n.ordem, n.valor, k) {
      SumWhereReadsTwoColumns(t1, t, n.ordem, n.valor, k);
    }
    WithGroupTotal(t1, n.ordem, n.valor, n.total)
  }

  /** Lines 117 to 143: the branch fix, the free-revision rule and the
      sign fix of the hours. */
  function Fix(n: Columns, t: Table): (u: Table)
    requires Separate(n)
    ensures |u| == |t|
    ensures forall i :: 0 <= i < |t| ==> Get(u[i], n.filialAjustado) == RemapBranch(BadBranches, Get(t[i], n.filial))
    ensures forall i :: 0 <= i < |t| ==> Get(u[i], n.valorAjustado) == FreeRevision(Get(t[i], n.padronizada), Get(t[i], n.valor))
    ensures forall i :: 0 <= i < |t| ==> Get(u[i], n.horasAjustado) == Absolute(Get(t[i], n.horas))
    ensures forall i, d :: 0 <= i < |t| && d != n.filialAjustado && d != n.valorAjustado && d != n.horasAjustado ==>
      Get(u[i], d) == Get(t[i], d)
  {
    var t1 := WithColumn(t, n.filialAjustado, row => RemapBranch(BadBranches, Get(row, n.filial)));
    var t2 := WithColumn(t1, n.valorAjustado, row => FreeRevision(Get(row, n.padronizada), Get(row, n.valor)));
    WithColumn(t2, n.horasAjustado, row => Absolute(Get(row, n.horas)))
  }

  /** Everything after the date parse. */
  function Adjust(n: Columns, t: Table): (u: Table)
    requires Separate(n)
    ensures |u| == |t|
    ensures forall i :: 0 <= i < |t| ==> Adjusted(n, t, i, u[i])
    ensures forall i, d :: 0 <= i < |t| && !WritesTo(n, d) ==> Get(u[i], d) == Get(t[i], d)
  {
    var t1 := Standardise(n, t);
    var u := Fix(n, t1);
    assert forall i :: 0 <= i < |t| ==> Adjusted(n, t, i, u[i]) by {
      forall i | 0 <= i < |t|
        ensures Adjusted(n, t, i, u[i])
      {
        AdjustedRow(n, t, t1, u, i);
      }
    }
    u
  }

  lemma AdjustedRow(n: Columns, t: Table, t1: Table, u: Table, i: int)
    requires Separate(n)
    requires 0 <= i < |t| == |t1| == |u|
    requires Standardised(n, t, i, t1[i])
    requires forall d :: d != n.padronizada && d != n.total ==> Get(t1[i], d) == Get(t[i], d)
    requires Get(u[i], n.filialAjustado) == RemapBranch(BadBranches, Get(t1[i], n.filial))
    requires Get(u[i], n.valorAjustado) == FreeRevision(Get(t1[i], n.padronizada), Get(t1[i], n.valor))
    requires Get(u[i], n.horasAjustado) == Absolute(Get(t1[i], n.horas))
    requires forall d :: d != n.filialAjustado && d != n.valorAjustado && d != n.horasAjustado ==> Get(u[i], d) == Get(t1[i], d)
    ensures Adjusted(n, t, i, u[i])
  {
    assert Standardised(n, t, i, u[i]);
    assert Fixed(n, t[i], u[i]);
  }

  /** The date parse leaves every column the later steps read, so the
      steps compute the same on the parsed table as on the raw one. */
  lemma AdjustedAfterParse(n: Columns, t: Table, t1: Table, i: int, out: Row)
    requires Separate(n)
    requires 0 <= i < |t| == |t1|
    requires forall j, d :: 0 <= j < |t| && d != n.data ==> Get(t1[j], d) == Get(t[j], d)
    requires Adjusted(n, t1, i, out)
    ensures Adjusted(n, t, i, out)
  {
    SumWhereReadsTwoColumns(t1, t, n.ordem, n.valor, Get(t[i], n.ordem));
    assert Standardised(n, t, i, out);
  }

  predicate DateFails(n: Columns, row: Row) {
    ConvertCell(Get(row, n.data), IsoDay).None?
  }

  /** The whole script, from the raw table to the trusted one, with the
      columns named in `n`; the script itself is `Trusted(Names, t)`.
      Every column it does not parse or write keeps its raw cells. */
  function Trusted(n: Columns, t: Table): (r: Result<Table, Error>)
    requires Separate(n)
    ensures r.Failure? <==> exists i :: 0 <= i < |t| && DateFails(n, t[i])
    ensures r.Success? ==> |r.value| == |t|
    ensures r.Success? ==> forall i :: 0 <= i < |t| ==>
      IsoParsed(Get(t[i], n.data), Get(r.value[i], n.data)) && Adjusted(n, t, i, r.value[i])
    ensures r.Success? ==> forall i, d :: 0 <= i < |t| && d != n.data && !WritesTo(n, d) ==>
      Get(r.value[i], d) == Get(t[i], d)
  {
    match ParseIsoColumn(t, n.data)
    case Failure(e) => Failure(e)
    case Success(t1) =>
      TrustedRows(n, t, t1);
      TrustedKeeps(n, t, t1);
      Success(Adjust(n, t1))
  }

  /** The date parse and the adjustments together leave every other
      column as the raw table has it. */
  lemma TrustedKeeps(n: Columns, t: Table, t1: Table)
    requires Separate(n)
    requires ParseIsoColumn(t, n.data) == Success(t1)
    ensures var u := Adjust(n, t1);
      forall i, d :: 0 <= i < |t| && d != n.data && !WritesTo(n, d) ==> Get(u[i], d) == Get(t[i], d)
  {
  }

  /** Adjusting the parsed table keeps the parsed dates and adjusts every
      row as the raw table asks. */
  lemma TrustedRows(n: Columns, t: Table, t1: Table)
    requires Separate(n)
    requires ParseIsoColumn(t, n.data) == Success(t1)
    ensures var u := Adjust(n, t1);
      && |u| == |t|
      && forall i :: 0 <= i < |t| ==> IsoParsed(Get(t[i], n.data), Get(u[i], n.data)) && Adjusted(n, t, i, u[i])
  {
    var u := Adjust(n, t1);
    assert !WritesTo(n, n.data);
    forall i | 0 <= i < |t|
      ensures IsoParsed(Get(t[i], n.data), Get(u[i], n.data)) && Adjusted(n, t, i, u[i])
    {
      assert Get(u[i], n.data) == Get(t1[i], n.data);
      AdjustedAfterParse(n, t, t1, i, u[i]);
    }
  }
}
