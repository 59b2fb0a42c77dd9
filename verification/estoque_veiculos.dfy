/** The trusted step for the vehicle inventory: model and fabrication
    years, where "0" means unknown, parsed as years; three copies of the
    stock entry date parsed from `%d/%m/%Y`; the time in stock classified
    through a numbered table whose labels sort in duration order; and the
    earliest of the three entry dates. */
module EstoqueVeiculos {
  import opened Wrappers
  import opened Text
  import opened Dates
  import opened Frame
  import opened Lookup
  import opened TempoNoEstoque
  import opened Strptime

  const AnoModelo := "Ano_Modelo_do_Veiculo"
  const AnoFabricacao := "Ano_Fabricacao_do_Veiculo"
  const Entrada := "Data_de_Entrada_do_Veiculo_no_Estoque"
  const Entrada0 := "Data_de_Entrada_do_Veiculo_no_Estoque_duplicated_0"
  const Entrada1 := "Data_de_Entrada_do_Veiculo_no_Estoque_duplicated_1"
  const TempoTotal := "Tempo_Total_no_Estoque"
  const Classificacao := "Classificacao_Tempo_no_Estoque"
  const EntradaAtualizada := "Data_de_Entrada_do_Veiculo_no_Estoque_Atualizada"

  /** `replace({"0": None})`: the year "0" means unknown. */
  function UnknownYear(c: Cell): (r: Cell)
    ensures c == Some(Text("0")) ==> r.None?
    ensures c != Some(Text("0")) ==> r == c
  {
    if c == Some(Text("0")) then None else c
  }

  /** A year cell the strict parse rejects: present, not "0", and not four
      digits. */
  predicate YearFails(c: Cell) {
    ConvertCell(UnknownYear(c), YearDay).None?
  }

  predicate EntryFails(c: Cell) {
    ConvertCell(c, DayFirstDay).None?
  }

  /** `after` is the parsed year of `before`: missing or "0" gives missing,
      other text gives the first of January of the year it spells. */
  predicate YearParsed(before: Cell, after: Cell) {
    if before.None? || before == Some(Text("0")) then after.None?
    else
      && before.value.Text?
      && after.Some? && after.value.Day?
      && Printable(after.value.d)
      && after.value.d.month == 1 && after.value.d.day == 1
      && FormatYear(after.value.d) == before.value.s
  }

  lemma YearDayParsed(before: Cell, after: Cell)
    requires ConvertCell(UnknownYear(before), YearDay) == Some(after)
    ensures YearParsed(before, after)
  {
  }

  /** One year column: "0" to missing, then the strict `%Y` parse. */
  function ParseYearColumn(t: Table, col: string): (r: Result<Table, Error>)
    ensures r.Failure? <==> exists i :: 0 <= i < |t| && YearFails(Get(t[i], col))
    ensures r.Success? ==> |r.value| == |t|
    ensures r.Success? ==> forall i :: 0 <= i < |t| ==> YearParsed(Get(t[i], col), Get(r.value[i], col))
    ensures r.Success? ==> forall i, d :: 0 <= i < |t| && d != col ==> Get(r.value[i], d) == Get(t[i], d)
  {
    var t1 := WithColumn(t, col, row => UnknownYear(Get(row, col)));
    var r := ParseColumn(t1, col, YearDay);
    if r.Success? then
      assert forall i :: 0 <= i < |t| ==> YearParsed(Get(t[i], col), Get(r.value[i], col)) by {
        forall i | 0 <= i < |t|
          ensures YearParsed(Get(t[i], col), Get(r.value[i], col))
        {
          YearDayParsed(Get(t[i], col), Get(r.value[i], col));
        }
      }
      r
    else r
  }

  function DayOf(c: Cell): Option<Date> {
    if c.Some? && c.value.Day? then Some(c.value.d) else None
  }

  function AsCell(d: Option<Date>): Cell {
    match d
    case Some(x) => Some(Day(x))
    case None => None
  }

  /** `pl.min_horizontal` over the three entry dates. */
  function EarliestEntry(row: Row): (r: Cell)
    ensures r.None? <==> DayOf(Get(row, Entrada)).None? && DayOf(Get(row, Entrada0)).None? && DayOf(Get(row, Entrada1)).None?
    ensures r.Some? ==> r.value.Day?
    ensures r.Some? ==> Some(r.value.d) in {DayOf(Get(row, Entrada)), DayOf(Get(row, Entrada0)), DayOf(Get(row, Entrada1))}
    ensures r.Some? ==> forall c :: c in [Entrada, Entrada0, Entrada1] && DayOf(Get(row, c)).Some? ==>
      NotAfter(r.value.d, DayOf(Get(row, c)).value)
  {
    AsCell(Earliest(DayOf(Get(row, Entrada)), DayOf(Get(row, Entrada0)), DayOf(Get(row, Entrada1))))
  }

  /** A row that makes one of the five strict parses raise. */
  predicate RowFails(row: Row) {
    || YearFails(Get(row, AnoModelo)) || YearFails(Get(row, AnoFabricacao))
    || EntryFails(Get(row, Entrada)) || EntryFails(Get(row, Entrada0)) || EntryFails(Get(row, Entrada1))
  }

  /** The five strict parses, lines 72 to 106 of the script. */
  function ParseAll(t: Table): (r: Result<Table, Error>)
    ensures r.Failure? <==> exists i :: 0 <= i < |t| && RowFails(t[i])
    ensures r.Success? ==> |r.value| == |t|
    ensures r.Success? ==> forall i :: 0 <= i < |t| ==> Parsed(t[i], r.value[i])
    ensures r.Success? ==> forall i :: 0 <= i < |t| ==> Get(r.value[i], TempoTotal) == Get(t[i], TempoTotal)
    ensures r.Success? ==> forall i, d :: 0 <= i < |t| && d !in Years + Entries ==> Get(r.value[i], d) == Get(t[i], d)
  {
    match ParseYears(t)
    case Failure(e) => Failure(e)
    case Success(t2) =>
      YearsStep(t, t2);
      match ParseEntries(t2)
      case Failure(e) => Failure(e)
      case Success(t5) =>
        EntriesStep(t, t2, t5);
        Success(t5)
  }

  /** After the year parse the entry dates, and so their failures, and the
      time in stock are those of the input. */
  lemma YearsStep(t: Table, t2: Table)
    requires ParseYears(t) == Success(t2)
    ensures |t2| == |t|
    ensures forall i :: 0 <= i < |t| ==> (EntriesFail(t2[i]) <==> EntriesFail(t[i]))
    ensures forall i :: 0 <= i < |t| ==> Get(t2[i], TempoTotal) == Get(t[i], TempoTotal)
  {
    forall i | 0 <= i < |t|
      ensures (EntriesFail(t2[i]) <==> EntriesFail(t[i])) && Get(t2[i], TempoTotal) == Get(t[i], TempoTotal)
    {
      EntriesUntouched(t[i], t2[i]);
    }
  }

  /** The year parse followed by the entry parse parses all five columns
      and keeps the time in stock. */
  lemma EntriesStep(t: Table, t2: Table, t5: Table)
    requires ParseYears(t) == Success(t2)
    requires ParseEntries(t2) == Success(t5)
    ensures |t5| == |t|
    ensures forall i :: 0 <= i < |t| ==> Parsed(t[i], t5[i])
    ensures forall i :: 0 <= i < |t| ==> Get(t5[i], TempoTotal) == Get(t[i], TempoTotal)
    ensures forall i, d :: 0 <= i < |t| && d !in Years + Entries ==> Get(t5[i], d) == Get(t[i], d)
  {
    forall i | 0 <= i < |t|
      ensures Parsed(t[i], t5[i]) && Get(t5[i], TempoTotal) == Get(t[i], TempoTotal)
    {
      ParsedInTwoSteps(t[i], t2[i], t5[i]);
    }
  }

  /** Every parsed column of `out` holds what the parse made of `row`. */
  predicate Parsed(row: Row, out: Row) {
    YearsParsed(row, out) && EntriesParsed(row, out)
  }

  predicate YearsParsed(row: Row, out: Row) {
    && YearParsed(Get(row, AnoModelo), Get(out, AnoModelo))
    && YearParsed(Get(row, AnoFabricacao), Get(out, AnoFabricacao))
  }

  predicate EntriesParsed(row: Row, out: Row) {
    && DayFirstParsed(Get(row, Entrada), Get(out, Entrada))
    && DayFirstParsed(Get(row, Entrada0), Get(out, Entrada0))
    && DayFirstParsed(Get(row, Entrada1), Get(out, Entrada1))
  }

  /** Parsing the entry dates keeps the parsed years and the time in
      stock. */
  lemma YearsKept(row: Row, out: Row, out': Row)
    requires YearsParsed(row, out)
    requires forall d :: d !in Entries ==> Get(out', d) == Get(out, d)
    ensures YearsParsed(row, out')
    ensures Get(out', TempoTotal) == Get(out, TempoTotal)
  {
    assert AnoModelo !in Entries && AnoFabricacao !in Entries && TempoTotal !in Entries;
  }

  /** Parsing the years and then the entry dates parses all five. */
  lemma ParsedInTwoSteps(row: Row, mid: Row, out: Row)
    requires YearsParsed(row, mid)
    requires forall d :: d !in Years ==> Get(mid, d) == Get(row, d)
    requires EntriesParsed(mid, out)
    requires forall d :: d !in Entries ==> Get(out, d) == Get(mid, d)
    ensures Parsed(row, out)
    ensures Get(out, TempoTotal) == Get(row, TempoTotal)
  {
    EntriesUntouched(row, mid);
    YearsKept(row, mid, out);
  }

  /** Parsing the years leaves the entry dates as they were. */
  lemma EntriesUntouched(row: Row, out: Row)
    requires forall d :: d !in Years ==> Get(out, d) == Get(row, d)
    ensures Get(out, Entrada) == Get(row, Entrada)
    ensures Get(out, Entrada0) == Get(row, Entrada0)
    ensures Get(out, Entrada1) == Get(row, Entrada1)
    ensures Get(out, TempoTotal) == Get(row, TempoTotal)
  {
    assert Entrada !in Years && Entrada0 !in Years && Entrada1 !in Years && TempoTotal !in Years;
  }

  /** Columns other than the parsed ones may change without undoing the
      parse. */
  lemma ParsedKept(row: Row, out: Row, out': Row)
    requires Parsed(row, out)
    requires forall d :: d in Years + Entries ==> Get(out', d) == Get(out, d)
    ensures Parsed(row, out')
  {
    assert AnoModelo in Years + Entries;
    assert AnoFabricacao in Years + Entries;
    assert Entrada in Years + Entries;
    assert Entrada0 in Years + Entries;
    assert Entrada1 in Years + Entries;
  }

  predicate YearsFail(row: Row) {
    YearFails(Get(row, AnoModelo)) || YearFails(Get(row, AnoFabricacao))
  }

  predicate EntriesFail(row: Row) {
    EntryFails(Get(row, Entrada)) || EntryFails(Get(row, Entrada0)) || EntryFails(Get(row, Entrada1))
  }

  const Years: set<string> := {AnoModelo, AnoFabricacao}
  const Entries: set<string> := {Entrada, Entrada0, Entrada1}

  function ParseYears(t: Table): (r: Result<Table, Error>)
    ensures r.Failure? <==> exists i :: 0 <= i < |t| && YearsFail(t[i])
    ensures r.Success? ==> |r.value| == |t|
    ensures r.Success? ==> forall i :: 0 <= i < |t| ==> YearsParsed(t[i], r.value[i])
    ensures r.Success? ==> forall i, d :: 0 <= i < |t| && d !in Years ==> Get(r.value[i], d) == Get(t[i], d)
  {
    match ParseYearColumn(t, AnoModelo)
    case Failure(e) => Failure(e)
    case Success(t1) => ParseYearColumn(t1, AnoFabricacao)
  }

  function ParseEntries(t: Table): (r: Result<Table, Error>)
    ensures r.Failure? <==> exists i :: 0 <= i < |t| && EntriesFail(t[i])
    ensures r.Success? ==> |r.value| == |t|
    ensures r.Success? ==> forall i :: 0 <= i < |t| ==> EntriesParsed(t[i], r.value[i])
    ensures r.Success? ==> forall i, d :: 0 <= i < |t| && d !in Entries ==> Get(r.value[i], d) == Get(t[i], d)
  {
    match ParseDayFirstColumn(t, Entrada)
    case Failure(e) => Failure(e)
    case Success(t1) =>
      match ParseDayFirstColumn(t1, Entrada0)
      case Failure(e) => Failure(e)
      case Success(t2) => ParseDayFirstColumn(t2, Entrada1)
  }

  /** The two derived columns, lines 111 to 127 of the script: the
      classification of the time in stock and the earliest entry date.
      Every other column is left as it was. */
  function Derive(t: Table): (r: Table)
    ensures |r| == |t|
    ensures forall i :: 0 <= i < |t| ==> Get(r[i], Classificacao) == Replace(ClassTempo, Get(t[i], TempoTotal))
    ensures forall i :: 0 <= i < |t| ==> Get(r[i], EntradaAtualizada) == EarliestEntry(r[i])
    ensures forall i, d :: 0 <= i < |t| && d != Classificacao && d != EntradaAtualizada ==> Get(r[i], d) == Get(t[i], d)
  {
    var t6 := ReplaceColumn(t, TempoTotal, Classificacao, ClassTempo);
    var t7 := WithColumn(t6, EntradaAtualizada, EarliestEntry);
    assert forall i :: 0 <= i < |t| ==> EarliestEntry(t7[i]) == EarliestEntry(t6[i]) by {
      forall i | 0 <= i < |t|
        ensures EarliestEntry(t7[i]) == EarliestEntry(t6[i])
      {
        assert Get(t7[i], Entrada) == Get(t6[i], Entrada);
        assert Get(t7[i], Entrada0) == Get(t6[i], Entrada0);
        assert Get(t7[i], Entrada1) == Get(t6[i], Entrada1);
      }
    }
    t7
  }

  lemma DerivedNamesDiffer()
    ensures forall d :: d in Years + Entries ==> d != Classificacao && d != EntradaAtualizada
  {
  }

  /** `c` is one of the columns the script parses or computes. */
  predicate Written(c: string) {
    c in Years + Entries || c == Classificacao || c == EntradaAtualizada
  }

  /** The whole script up to the lower-casing of column names. Every
      column it does not parse or compute keeps its raw cells. */
  function Trusted(t: Table): (r: Result<Table, Error>)
    ensures r.Failure? <==> exists i :: 0 <= i < |t| && RowFails(t[i])
    ensures r.Success? ==> |r.value| == |t|
    ensures r.Success? ==> forall i :: 0 <= i < |t| ==>
      && Parsed(t[i], r.value[i])
      && Get(r.value[i], Classificacao) == Replace(ClassTempo, Get(t[i], TempoTotal))
      && Get(r.value[i], EntradaAtualizada) == EarliestEntry(r.value[i])
    ensures r.Success? ==> forall i, d :: 0 <= i < |t| && !Written(d) ==> Get(r.value[i], d) == Get(t[i], d)
  {
    match ParseAll(t)
    case Failure(e) => Failure(e)
    case Success(t5) =>
      var t7 := Derive(t5);
      assert forall i :: 0 <= i < |t| ==> Parsed(t[i], t7[i]) by {
        DerivedNamesDiffer();
        forall i | 0 <= i < |t|
          ensures Parsed(t[i], t7[i])
        {
          ParsedKept(t[i], t5[i], t7[i]);
        }
      }
      Success(t7)
  }

  /** `ESTOQUE_VEICULOS_SCHEMA`: the columns of the trusted file. */
  const Schema: set<string> := {
    "nome_da_concessionaria", "nome_da_filial", "custo_do_veiculo", "marca_da_filial",
    "marca_do_veiculo", "modelo_do_veiculo", "cor_do_veiculo", "veiculo_novo_ou_semi_novo",
    "tipo_do_combustivel", "ano_modelo_do_veiculo", "ano_fabricacao_do_veiculo",
    "tempo_total_no_estoque", "kilometragem_atual_do_veiculo",
    "data_de_entrada_do_veiculo_no_estoque", "data_de_entrada_do_veiculo_no_estoque_duplicated_0",
    "data_de_entrada_do_veiculo_no_estoque_duplicated_1", "classificacao_tempo_no_estoque",
    "data_de_entrada_do_veiculo_no_estoque_atualizada"
  }

  lemma LowerEntrada()
    ensures Lower(Entrada) == "data_de_entrada_do_veiculo_no_estoque"
  {
  }

  /** The lower-cased name of a column named after the entry date. */
  lemma LowerEntradaWith(suffix: string, lower: string)
    requires Lower(suffix) == lower
    ensures Lower(Entrada + suffix) == "data_de_entrada_do_veiculo_no_estoque" + lower
  {
    LowerAppend(Entrada, suffix);
    LowerEntrada();
  }

  lemma NameAtualizada()
    ensures Entrada + "_Atualizada" == EntradaAtualizada
    ensures "data_de_entrada_do_veiculo_no_estoque" + "_atualizada" == "data_de_entrada_do_veiculo_no_estoque_atualizada"
  {
  }

  lemma LowerSuffixAtualizada()
    ensures Lower("_Atualizada") == "_atualizada"
  {
  }

  lemma LowerAtualizada()
    ensures Lower(EntradaAtualizada) == "data_de_entrada_do_veiculo_no_estoque_atualizada"
  {
    LowerSuffixAtualizada();
    LowerEntradaWith("_Atualizada", "_atualizada");
    NameAtualizada();
  }

  lemma NameDuplicated0()
    ensures Entrada + "_duplicated_0" == Entrada0
    ensures "data_de_entrada_do_veiculo_no_estoque" + "_duplicated_0" == "data_de_entrada_do_veiculo_no_estoque_duplicated_0"
  {
  }

  lemma NameDuplicated1()
    ensures Entrada + "_duplicated_1" == Entrada1
    ensures "data_de_entrada_do_veiculo_no_estoque" + "_duplicated_1" == "data_de_entrada_do_veiculo_no_estoque_duplicated_1"
  {
  }

  lemma LowerDuplicated0()
    ensures Lower(Entrada0) == "data_de_entrada_do_veiculo_no_estoque_duplicated_0"
  {
    LowerEntradaWith("_duplicated_0", "_duplicated_0");
    NameDuplicated0();
  }

  lemma LowerDuplicated1()
    ensures Lower(Entrada1) == "data_de_entrada_do_veiculo_no_estoque_duplicated_1"
  {
    LowerEntradaWith("_duplicated_1", "_duplicated_1");
    NameDuplicated1();
  }

  lemma LowerClassificacao()
    ensures Lower(Classificacao) == "classificacao_tempo_no_estoque"
  {
  }

  lemma LowerAnoModelo()
    ensures Lower(AnoModelo) == "ano_modelo_do_veiculo"
  {
  }

  lemma LowerAnoFabricacao()
    ensures Lower(AnoFabricacao) == "ano_fabricacao_do_veiculo"
  {
  }

  lemma LowerTempoTotal()
    ensures Lower(TempoTotal) == "tempo_total_no_estoque"
  {
  }

  /** Once names are lower-cased, every column this script reads or writes
      is a column of the trusted schema, the two derived ones included. */
  lemma ColumnsInSchema()
    ensures Lower(Classificacao) in Schema
    ensures Lower(EntradaAtualizada) in Schema
    ensures forall c :: c in [AnoModelo, AnoFabricacao, Entrada, Entrada0, Entrada1, TempoTotal] ==> Lower(c) in Schema
  {
    LowerEntrada();
    LowerAtualizada();
    LowerDuplicated0();
    LowerDuplicated1();
    LowerClassificacao();
    LowerAnoModelo();
    LowerAnoFabricacao();
    LowerTempoTotal();
  }
}
