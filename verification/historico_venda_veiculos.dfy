/** The trusted step for the vehicle sales history: the two date-like
    branch codes fixed, rows flagged as full or partial duplicates, rows
    whose columns slid one place to the right flagged and realigned into
    `_Ajustado` columns, the stock days zeroed on those rows and made
    non-negative, the sale date parsed from `%d/%m/%Y`, the profit
    recalculated, and every row labelled reliable or not. */
module HistoricoVendaVeiculos {
  import opened Wrappers
  import opened Text
  import opened Frame
  import opened Rules
  import opened Duplicates
  import opened Strptime
  import opened Naming

  /** The columns the script reads and writes. `semNome` is the column
      without a header that the shifted rows spill into, renamed `extra`;
      `colunas` are the columns realigned (the last is `extra`); `subset`
      the columns the partial duplicate test compares. */
  datatype Columns = Columns(
    filial: string, filialAjustado: string, duplicada: string, parcial: string, status: string,
    subset: seq<string>, dias: string, deslocadas: string, semNome: string, extra: string,
    colunas: seq<string>, diasAjustado: string, data: string, valor: string, custo: string,
    lucro: string, confiabilidade: string)

  const Names := Columns(
    "Cod_Filial", "Cod_Filial_Ajustado", "Linha_Duplicada", "Linha_Duplicada_Parcial",
    "Status_Duplicidade", ColunasSubset, "Dias_que_o_Carro_Ficou_no_Estoque",
    "Colunas_Deslocadas_e_Repetidas", "", "coluna_extra", ColunasDeslocadas,
    "Dias_que_o_Carro_Ficou_no_Estoque_Ajustado", "Data_da_Venda", "Valor_da_Venda",
    "Custo_do_Veiculo", "Lucro_da_Venda_Recalculado", "Confiabilidade_do_Registro")

  /** `colunas_subset` */
  const ColunasSubset: seq<string> := [
    "Cod_Concessionaria", "Cod_Filial", "Nome_da_Concessionaria", "Nome_da_Filial",
    "Marca_da_Filial", "Data_da_Venda", "Quantidade_Vendida", "Valor_da_Venda",
    "Custo_do_Veiculo", "Lucro_da_Venda", "Margem_da_Venda", "Marca_do_Veiculo",
    "Modelo_do_Veiculo", "Familia_do_Veiculo", "Categoria_do_Veiculo", "Cor_do_Veiculo",
    "Veiculo_Novo_ou_Semi_Novo", "Tipo_do_Combustivel", "Ano_Modelo_do_Veiculo",
    "Ano_Fabricacao_do_Veiculo", "Dias_que_o_Carro_Ficou_no_Estoque", "Tipo_de_Venda_do_Veiculo",
    "Cidade_da_Venda", "Estado_Brasileiro_da_Venda", "Macroregiao_Geografica_da_Venda", "",
    "Cod_Filial_Ajustado"
  ]

  /** `colunas_deslocadas` */
  const ColunasDeslocadas: seq<string> := [
    "Tipo_de_Venda_do_Veiculo", "Nome_do_Vendedor_que_Realizou_a_Venda", "Nome_do_Comprador_do_Veiculo",
    "Cidade_da_Venda", "Estado_Brasileiro_da_Venda", "Macroregiao_Geografica_da_Venda", "coluna_extra"
  ]

  /** `c` is none of the single-valued columns the script reads or
      writes. */
  predicate Clear(n: Columns, c: string) {
    && c != n.filialAjustado && c != n.duplicada && c != n.parcial && c != n.status && c != n.deslocadas
    && c != n.semNome && c != n.extra && c != n.diasAjustado && c != n.data && c != n.lucro
    && c != n.confiabilidade && c != n.dias && c != n.valor && c != n.custo
  }

  /** The names fit together: the single-valued columns are pairwise
      different, the realigned columns end with `extra` and neither they
      nor their adjusted names clash with those columns, and the full
      duplicate flag is not among the compared columns. */
  predicate Separate(n: Columns) {
    ScalarsDistinct(n) && ShiftShape(n) && ShiftApart(n) && n.duplicada !in n.subset
  }

  predicate ScalarsDistinct(n: Columns) {
    && n.filialAjustado != n.duplicada && n.filialAjustado != n.parcial && n.filialAjustado != n.status
    && n.filialAjustado != n.deslocadas && n.filialAjustado != n.semNome && n.filialAjustado != n.extra
    && n.filialAjustado != n.diasAjustado && n.filialAjustado != n.data && n.filialAjustado != n.lucro
    && n.filialAjustado != n.confiabilidade && n.filialAjustado != n.dias && n.filialAjustado != n.valor
    && n.filialAjustado != n.custo
    && n.duplicada != n.parcial && n.duplicada != n.status && n.duplicada != n.deslocadas
    && n.duplicada != n.semNome && n.duplicada != n.extra && n.duplicada != n.diasAjustado
    && n.duplicada != n.data && n.duplicada != n.lucro && n.duplicada != n.confiabilidade
    && n.duplicada != n.dias && n.duplicada != n.valor && n.duplicada != n.custo
    && n.parcial != n.status && n.parcial != n.deslocadas && n.parcial != n.semNome
    && n.parcial != n.extra && n.parcial != n.diasAjustado && n.parcial != n.data
    && n.parcial != n.lucro && n.parcial != n.confiabilidade && n.parcial != n.dias
    && n.parcial != n.valor && n.parcial != n.custo
    && n.status != n.deslocadas && n.status != n.semNome && n.status != n.extra
    && n.status != n.diasAjustado && n.status != n.data && n.status != n.lucro
    && n.status != n.confiabilidade && n.status != n.dias && n.status != n.valor && n.status != n.custo
    && n.deslocadas != n.semNome && n.deslocadas != n.extra && n.deslocadas != n.diasAjustado
    && n.deslocadas != n.data && n.deslocadas != n.lucro && n.deslocadas != n.confiabilidade
    && n.deslocadas != n.dias && n.deslocadas != n.valor && n.deslocadas != n.custo
    && n.semNome != n.extra && n.semNome != n.diasAjustado && n.semNome != n.data
    && n.semNome != n.lucro && n.semNome != n.confiabilidade && n.semNome != n.dias
    && n.semNome != n.valor && n.semNome != n.custo
    && n.extra != n.diasAjustado && n.extra != n.data && n.extra != n.lucro
    && n.extra != n.confiabilidade && n.extra != n.dias && n.extra != n.valor && n.extra != n.custo
    && n.diasAjustado != n.data && n.diasAjustado != n.lucro && n.diasAjustado != n.confiabilidade
    && n.diasAjustado != n.dias && n.diasAjustado != n.valor && n.diasAjustado != n.custo
    && n.data != n.lucro && n.data != n.confiabilidade && n.data != n.dias && n.data != n.valor
    && n.data != n.custo
    && n.lucro != n.confiabilidade && n.lucro != n.dias && n.lucro != n.valor && n.lucro != n.custo
    && n.confiabilidade != n.dias && n.confiabilidade != n.valor && n.confiabilidade != n.custo
    && n.dias != n.valor && n.dias != n.custo
    && n.valor != n.custo
  }

  predicate ShiftShape(n: Columns) {
    |n.colunas| >= 1 && n.colunas[|n.colunas| - 1] == n.extra && Distinct(n.colunas)
  }

  predicate ShiftApart(n: Columns) {
    && (forall k :: 0 <= k < |n.colunas| ==> Clear(n, Ajustado(n.colunas[k])))
    && (forall k :: 0 <= k < |n.colunas| - 1 ==> Clear(n, n.colunas[k]) && OutsideAdjusted(n.colunas[k], n.colunas, 0))
  }

  lemma NamesScalarsDistinct()
    ensures ScalarsDistinct(Names)
  {
  }

  /** The adjusted names of the realigned columns. */
  const AdjustedShifted: seq<string> := [
    "Tipo_de_Venda_do_Veiculo_Ajustado", "Nome_do_Vendedor_que_Realizou_a_Venda_Ajustado",
    "Nome_do_Comprador_do_Veiculo_Ajustado", "Cidade_da_Venda_Ajustado",
    "Estado_Brasileiro_da_Venda_Ajustado", "Macroregiao_Geografica_da_Venda_Ajustado",
    "coluna_extra_Ajustado"
  ]

  lemma AdjustedNamesOfShifted()
    ensures AdjustedNames(ColunasDeslocadas) == AdjustedShifted
  {
    assert Ajustado("Tipo_de_Venda_do_Veiculo") == AdjustedShifted[0];
    assert Ajustado("Nome_do_Vendedor_que_Realizou_a_Venda") == AdjustedShifted[1];
    assert Ajustado("Nome_do_Comprador_do_Veiculo") == AdjustedShifted[2];
    assert Ajustado("Cidade_da_Venda") == AdjustedShifted[3];
    assert Ajustado("Estado_Brasileiro_da_Venda") == AdjustedShifted[4];
    assert Ajustado("Macroregiao_Geografica_da_Venda") == AdjustedShifted[5];
    assert Ajustado("coluna_extra") == AdjustedShifted[6];
  }

  /** The single-valued column names of the script. */
  const ScalarNames: seq<string> := [
    "Cod_Filial_Ajustado", "Linha_Duplicada", "Linha_Duplicada_Parcial", "Status_Duplicidade",
    "Colunas_Deslocadas_e_Repetidas", "", "coluna_extra", "Dias_que_o_Carro_Ficou_no_Estoque_Ajustado",
    "Data_da_Venda", "Lucro_da_Venda_Recalculado", "Confiabilidade_do_Registro",
    "Dias_que_o_Carro_Ficou_no_Estoque", "Valor_da_Venda", "Custo_do_Veiculo"
  ]

  lemma AdjustedClearFirst()
    ensures forall k :: 0 <= k < 4 ==> AdjustedShifted[k] !in ScalarNames
  {
  }

  lemma AdjustedClearSecond()
    ensures forall k :: 4 <= k < 7 ==> AdjustedShifted[k] !in ScalarNames
  {
  }

  lemma ShiftedClearFirst()
    ensures forall k :: 0 <= k < 3 ==> ColunasDeslocadas[k] !in ScalarNames
  {
  }

  lemma ShiftedClearSecond()
    ensures forall k :: 3 <= k < 6 ==> ColunasDeslocadas[k] !in ScalarNames
  {
  }

  lemma ShiftedNotAdjusted()
    ensures forall k :: 0 <= k < 6 ==> ColunasDeslocadas[k] !in AdjustedShifted
  {
  }

  lemma ShiftedDistinct()
    ensures Distinct(ColunasDeslocadas)
  {
  }

  lemma ClearOfNames(c: string)
    requires c !in ScalarNames
    ensures Clear(Names, c)
  {
  }

  lemma NamesShiftApart()
    ensures ShiftShape(Names) && ShiftApart(Names)
  {
    AdjustedNamesOfShifted();
    AdjustedClearFirst();
    AdjustedClearSecond();
    ShiftedClearFirst();
    ShiftedClearSecond();
    ShiftedNotAdjusted();
    ShiftedDistinct();
    forall k | 0 <= k < |ColunasDeslocadas|
      ensures Clear(Names, Ajustado(ColunasDeslocadas[k]))
    {
      ClearOfNames(AdjustedShifted[k]);
    }
    forall k | 0 <= k < |ColunasDeslocadas| - 1
      ensures Clear(Names, ColunasDeslocadas[k]) && OutsideAdjusted(ColunasDeslocadas[k], ColunasDeslocadas, 0)
    {
      ClearOfNames(ColunasDeslocadas[k]);
      OutsideAdjustedIff(ColunasDeslocadas[k], ColunasDeslocadas);
    }
  }

  /** The names of the script satisfy `Separate`. */
  lemma NamesSeparate()
    ensures Separate(Names)
  {
    NamesScalarsDistinct();
    NamesShiftApart();
    assert "Linha_Duplicada" !in ColunasSubset;
  }

  // ---- Row rules ----

  /** The branch codes this script fixes: two dates that landed in the
      branch column. */
  const DateLikeBranches: set<string> := {"01/01/2002", "01/01/2003"}

  /** Exactly the two date-like codes become "0-1-1" (besides "0-1-1"
      itself); the code "1-1-3", which the other sales scripts fix, is kept
      here. */
  lemma DateLikeBranchesOnly(c: Cell)
    ensures RemapBranch(DateLikeBranches, c) == Some(Text(FixedBranch)) <==>
      IsText(c, "01/01/2002") || IsText(c, "01/01/2003") || IsText(c, FixedBranch)
    ensures !IsText(c, "01/01/2002") && !IsText(c, "01/01/2003") ==> RemapBranch(DateLikeBranches, c) == c
    ensures RemapBranch(DateLikeBranches, Some(Text("1-1-3"))) == Some(Text("1-1-3"))
  {
    assert "1-1-3" !in DateLikeBranches;
  }

  const Duplicado := "DUPLICADO"
  const DuplicadoParcialmente := "DUPLICADO PARCIALMENTE"
  const Ok := "OK"

  /** The `Status_Duplicidade` label: a full duplicate first, then a
      partial one, else OK. Exactly one label applies. */
  function StatusOf(full: bool, partial: bool): (s: string)
    ensures s == Duplicado <==> full
    ensures s == DuplicadoParcialmente <==> !full && partial
    ensures s == Ok <==> !full && !partial
  {
    if full then Duplicado else if partial then DuplicadoParcialmente else Ok
  }

  /** A boolean cell that `when` takes as true. */
  predicate IsTrue(c: Cell) {
    c == Some(Flag(true))
  }

  /** `when(Linha_Duplicada).then("DUPLICADO").when(Linha_Duplicada_Parcial)
      .then("DUPLICADO PARCIALMENTE").otherwise("OK")` */
  function StatusCell(full: Cell, partial: Cell): Cell {
    Some(Text(StatusOf(IsTrue(full), IsTrue(partial))))
  }

  /** On the table the flags are computed from, a row is OK exactly when no
      other row agrees with it on the compared columns, and it is a partial
      duplicate exactly when it agrees with another row there but equals
      none in full. */
  lemma StatusOfTable(t: Table, i: int, cols: seq<string>)
    requires 0 <= i < |t|
    ensures StatusOf(DuplicatedRow(t, i), DuplicatedOn(t, i, cols)) == Ok <==> !DuplicatedOn(t, i, cols)
    ensures StatusOf(DuplicatedRow(t, i), DuplicatedOn(t, i, cols)) == DuplicadoParcialmente <==>
      DuplicatedOn(t, i, cols) && !DuplicatedRow(t, i)
  {
    FullImpliesPartial(t, i, cols);
  }

  /** The chassis number found in the stock-days column of the rows whose
      columns slid to the right. */
  const Chassi := "9BWAG45U4PT01905"

  const Deslocadas := "CONTÉM COLUNAS DESLOCADAS E REPETIDAS"

  /** `col.str.contains("9BWAG45U4PT01905")` taken as true; the pattern has
      no regular-expression metacharacters, so it is a substring test, and
      a missing cell is not true. */
  predicate HasChassi(c: Cell) {
    c.Some? && c.value.Text? && Occurs(Chassi, c.value.s)
  }

  /** `when(dias.str.contains(chassi)).then("CONTÉM COLUNAS DESLOCADAS E
      REPETIDAS").otherwise("OK")` */
  function ShiftFlag(days: Cell): (r: Cell)
    ensures IsText(r, Deslocadas) || IsText(r, Ok)
  {
    if HasChassi(days) then Some(Text(Deslocadas)) else Some(Text(Ok))
  }

  /** A row is flagged exactly when the chassis number appears at some
      position of its stock-days text. */
  lemma ShiftFlagIff(days: Cell)
    ensures IsText(ShiftFlag(days), Deslocadas) <==>
      days.Some? && days.value.Text? && exists p :: OccursAt(Chassi, days.value.s, p)
    ensures IsText(ShiftFlag(days), Ok) <==> !IsText(ShiftFlag(days), Deslocadas)
  {
    if days.Some? && days.value.Text? {
      OccursIff(Chassi, days.value.s);
    }
  }

  /** `when(dias.str.contains(chassi)).then(0).otherwise(dias)`: the literal
      0 joins a text column, so it becomes the text "0". */
  function DaysText(days: Cell): (r: Cell)
    ensures HasChassi(days) ==> IsText(r, "0")
    ensures !HasChassi(days) ==> r == days
  {
    if HasChassi(days) then Some(Text("0")) else days
  }

  function IntValue(s: string): Option<Value> {
    match ParseInt(s)
    case Some(x) => Some(Num(x as real))
    case None => None
  }

  /** The stock days a row ends with: the zeroed text, cast to an integer,
      then made non-negative. */
  function AdjustedDays(days: Cell): Cell {
    Absolute(Converted(DaysText(days), IntValue))
  }

  predicate DaysFail(days: Cell) {
    ConvertCell(DaysText(days), IntValue).None?
  }

  /** When the cast succeeds, a flagged row has 0 days, a present count
      becomes its absolute value, a missing one stays missing, and no count
      is negative. */
  lemma AdjustedDaysValue(days: Cell)
    requires !DaysFail(days)
    ensures HasChassi(days) ==> AdjustedDays(days) == Some(Num(0.0))
    ensures forall s :: !HasChassi(days) && days == Some(Text(s)) && ParseInt(s).Some? ==>
      AdjustedDays(days) == Some(Num(if ParseInt(s).value < 0 then -ParseInt(s).value as real else ParseInt(s).value as real))
    ensures days.None? ==> AdjustedDays(days).None?
    ensures NonNegative(AdjustedDays(days))
  {
    assert ParseInt("0") == Some(0);
  }

  /** `Valor_da_Venda - Custo_do_Veiculo`: missing when either is. */
  function Difference(value: Cell, cost: Cell): (r: Cell)
    ensures r.Some? <==> value.Some? && value.value.Num? && cost.Some? && cost.value.Num?
    ensures r.Some? ==> r.value.Num? && r.value.x + cost.value.x == value.value.x
  {
    if value.Some? && value.value.Num? && cost.Some? && cost.value.Num? then Some(Num(value.value.x - cost.value.x))
    else None
  }

  const Confiavel := "CONFIÁVEL"
  const NaoConfiavel := "NÃO CONFIÁVEL"

  /** `when((Status_Duplicidade == "OK") & (Colunas_Deslocadas_e_Repetidas
      == "OK")).then("CONFIÁVEL").otherwise("NÃO CONFIÁVEL")` */
  function Reliability(status: Cell, shifted: Cell): (r: Cell)
    ensures IsText(r, Confiavel) || IsText(r, NaoConfiavel)
    ensures IsText(r, Confiavel) <==> IsText(status, Ok) && IsText(shifted, Ok)
  {
    if IsText(status, Ok) && IsText(shifted, Ok) then Some(Text(Confiavel)) else Some(Text(NaoConfiavel))
  }

  /** A row is reliable exactly when no other row agrees with it on the
      compared columns and its stock days do not hold the chassis number;
      in particular every full or partial duplicate is unreliable. */
  lemma ReliableIff(t: Table, i: int, cols: seq<string>, days: Cell)
    requires 0 <= i < |t|
    ensures IsText(Reliability(Some(Text(StatusOf(DuplicatedRow(t, i), DuplicatedOn(t, i, cols)))), ShiftFlag(days)), Confiavel)
      <==> !DuplicatedOn(t, i, cols) && !HasChassi(days)
  {
    StatusOfTable(t, i, cols);
  }

  // ---- Realigning the shifted columns ----

  /** What `colunas[k] + "_Ajustado"` takes from the row `orig`: when
      `extra` holds a value the row slid right, so every column but the
      last takes the next column's value and the last becomes missing;
      otherwise each keeps its own value. */
  function ShiftedValue(orig: Row, cols: seq<string>, extra: string, k: int): Cell
    requires 0 <= k < |cols|
  {
    if k + 1 < |cols| then
      (if Get(orig, extra).Some? then Get(orig, cols[k + 1]) else Get(orig, cols[k]))
    else if Get(orig, extra).Some? then None
    else Get(orig, extra)
  }

  /** One row of the `with_columns` of lines 121 to 138: every expression
      reads the row as it was, `orig`, and writes its own column. */
  function ShiftUpdates(orig: Row, cols: seq<string>, extra: string, k: nat, row: Row): (r: Row)
    requires Distinct(cols) && k <= |cols|
    ensures forall j :: k <= j < |cols| ==> Get(r, Ajustado(cols[j])) == ShiftedValue(orig, cols, extra, j)
    ensures forall d :: OutsideAdjusted(d, cols, k) ==> Get(r, d) == Get(row, d)
    decreases |cols| - k
  {
    if k == |cols| then row
    else
      var r := ShiftUpdates(orig, cols, extra, k + 1, row[Ajustado(cols[k]) := ShiftedValue(orig, cols, extra, k)]);
      assert forall j :: k < j < |cols| ==> Ajustado(cols[j]) != Ajustado(cols[k]) by {
        forall j | k < j < |cols|
          ensures Ajustado(cols[j]) != Ajustado(cols[k])
        {
          AjustadoInjective(cols[j], cols[k]);
        }
      }
      r
  }

  /** The realignment over the whole table. */
  function ShiftColumns(t: Table, cols: seq<string>, extra: string): (u: Table)
    requires Distinct(cols)
    ensures |u| == |t|
    ensures forall i, k :: 0 <= i < |t| && 0 <= k < |cols| ==>
      Get(u[i], Ajustado(cols[k])) == ShiftedValue(t[i], cols, extra, k)
    ensures forall i, d :: 0 <= i < |t| && OutsideAdjusted(d, cols, 0) ==> Get(u[i], d) == Get(t[i], d)
  {
    seq(|t|, i requires 0 <= i < |t| => ShiftUpdates(t[i], cols, extra, 0, t[i]))
  }

  /** In `row`, every adjusted column but the last holds the value of the
      next column when `extra` is present, and its own column's otherwise. */
  predicate ShiftRepaired(cols: seq<string>, extra: string, row: Row) {
    forall k :: 0 <= k < |cols| - 1 ==> Get(row, Ajustado(cols[k])) == ShiftedValue(row, cols, extra, k)
  }

  /** Read on the realigned table itself: the adjusted columns hold the
      shifted values of the columns they sit beside, which the realignment
      leaves as they were, and the last adjusted column is always missing. */
  lemma ShiftColumnsRepair(t: Table, cols: seq<string>, extra: string)
    requires Distinct(cols) && |cols| >= 1 && cols[|cols| - 1] == extra
    requires forall k :: 0 <= k < |cols| ==> OutsideAdjusted(cols[k], cols, 0)
    ensures forall i :: 0 <= i < |t| ==>
      ShiftRepaired(cols, extra, ShiftColumns(t, cols, extra)[i])
      && Get(ShiftColumns(t, cols, extra)[i], Ajustado(extra)).None?
  {
    var u := ShiftColumns(t, cols, extra);
    forall i | 0 <= i < |t|
      ensures ShiftRepaired(cols, extra, u[i]) && Get(u[i], Ajustado(extra)).None?
    {
      assert Get(u[i], extra) == Get(t[i], extra);
      assert Get(u[i], Ajustado(cols[|cols| - 1])) == ShiftedValue(t[i], cols, extra, |cols| - 1);
    }
  }

  // ---- The stages of the script, one row at a time ----

  /** What lines 34 to 102 make of one row, given whether the branch-fixed
      table holds another row equal to it (`full`) and another row that
      agrees with it on the compared columns (`partial`). */
  function MarkRow(n: Columns, row: Row, full: bool, partial: bool): Row {
    var r1 := row[n.filialAjustado := RemapBranch(DateLikeBranches, Get(row, n.filial))];
    var r2 := r1[n.duplicada := Some(Flag(full))];
    var r3 := r2[n.parcial := Some(Flag(partial))];
    var r4 := r3[n.status := StatusCell(Get(r3, n.duplicada), Get(r3, n.parcial))];
    r4[n.deslocadas := ShiftFlag(Get(r4, n.dias))]
  }

  /** The five columns lines 34 to 102 write into a row. */
  predicate FlagsOf(n: Columns, row: Row, full: bool, partial: bool, out: Row) {
    && Get(out, n.filialAjustado) == RemapBranch(DateLikeBranches, Get(row, n.filial))
    && Get(out, n.duplicada) == Some(Flag(full))
    && Get(out, n.parcial) == Some(Flag(partial))
    && Get(out, n.status) == Some(Text(StatusOf(full, partial)))
    && Get(out, n.deslocadas) == ShiftFlag(Get(row, n.dias))
  }

  predicate MarkWritten(n: Columns, d: string) {
    d == n.filialAjustado || d == n.duplicada || d == n.parcial || d == n.status || d == n.deslocadas
  }

  /** `out` keeps every column of `row` the first stage does not write. */
  ghost predicate MarkKeeps(n: Columns, row: Row, out: Row) {
    forall d :: !MarkWritten(n, d) ==> Get(out, d) == Get(row, d)
  }

  /** The five columns of the first stage, and the stock days they read,
      are pairwise different. */
  predicate MarkApart(n: Columns) {
    && n.filialAjustado != n.duplicada && n.filialAjustado != n.parcial && n.filialAjustado != n.status
    && n.filialAjustado != n.deslocadas && n.duplicada != n.parcial && n.duplicada != n.status
    && n.duplicada != n.deslocadas && n.parcial != n.status && n.parcial != n.deslocadas
    && n.status != n.deslocadas
    && n.dias != n.filialAjustado && n.dias != n.duplicada && n.dias != n.parcial && n.dias != n.status
  }

  /** The first stage writes its five columns and keeps every other. */
  lemma MarkRowSpec(n: Columns, row: Row, full: bool, partial: bool)
    requires MarkApart(n)
    ensures FlagsOf(n, row, full, partial, MarkRow(n, row, full, partial))
    ensures MarkKeeps(n, row, MarkRow(n, row, full, partial))
  {
  }

  /** What lines 106 to 147 make of one row: the unnamed column renamed
      `extra`, the shifted columns realigned, and the zeroed stock days. */
  function RealignRow(n: Columns, row: Row): Row
    requires n.semNome != n.extra && Distinct(n.colunas)
  {
    var r1 := (row - {n.semNome})[n.extra := Get(row, n.semNome)];
    var r2 := ShiftUpdates(r1, n.colunas, n.extra, 0, r1);
    r2[n.diasAjustado := DaysText(Get(r2, n.dias))]
  }

  /** What the second stage makes of a row: `extra` holds what the unnamed
      column held, which is gone, the realigned columns keep their values,
      the adjusted columns are repaired, and the adjusted stock days hold
      the zeroed text. */
  predicate Realigned(n: Columns, row: Row, out: Row) {
    && Get(out, n.extra) == Get(row, n.semNome)
    && Get(out, n.semNome).None?
    && (forall k :: 0 <= k < |n.colunas| - 1 ==> Get(out, n.colunas[k]) == Get(row, n.colunas[k]))
    && ShiftRepaired(n.colunas, n.extra, out)
    && Get(out, Ajustado(n.extra)).None?
    && Get(out, n.diasAjustado) == DaysText(Get(row, n.dias))
  }

  predicate RealignWritten(n: Columns, d: string) {
    d == n.semNome || d == n.extra || d == n.diasAjustado || !OutsideAdjusted(d, n.colunas, 0)
  }

  /** `out` keeps every column of `row` the second stage does not write. */
  ghost predicate RealignKeeps(n: Columns, row: Row, out: Row) {
    forall d :: !RealignWritten(n, d) ==> Get(out, d) == Get(row, d)
  }

  /** The second stage repairs the row and keeps every column it does not
      write. */
  lemma RealignRowSpec(n: Columns, row: Row)
    requires Separate(n)
    ensures Realigned(n, row, RealignRow(n, row))
    ensures RealignKeeps(n, row, RealignRow(n, row))
  {
    var r1 := (row - {n.semNome})[n.extra := Get(row, n.semNome)];
    var r2 := ShiftUpdates(r1, n.colunas, n.extra, 0, r1);
    var out := r2[n.diasAjustado := DaysText(Get(r2, n.dias))];
    assert out == RealignRow(n, row);
    RealignSteps(n, row, r1, r2, out);
  }

  /** The three steps of the second stage, each read off its own
      contract. */
  lemma RealignSteps(n: Columns, row: Row, r1: Row, r2: Row, out: Row)
    requires Separate(n)
    requires Get(r1, n.extra) == Get(row, n.semNome) && n.semNome !in r1
    requires forall d :: d != n.semNome && d != n.extra ==> Get(r1, d) == Get(row, d)
    requires forall k :: 0 <= k < |n.colunas| ==> Get(r2, Ajustado(n.colunas[k])) == ShiftedValue(r1, n.colunas, n.extra, k)
    requires forall d :: OutsideAdjusted(d, n.colunas, 0) ==> Get(r2, d) == Get(r1, d)
    requires Get(out, n.diasAjustado) == DaysText(Get(r2, n.dias))
    requires forall d :: d != n.diasAjustado ==> Get(out, d) == Get(r2, d)
    ensures Realigned(n, row, out)
    ensures RealignKeeps(n, row, out)
  {
    var cols, last := n.colunas, |n.colunas| - 1;
    assert OutsideAdjusted(n.extra, cols, 0) && OutsideAdjusted(n.semNome, cols, 0) && OutsideAdjusted(n.dias, cols, 0);
    ShiftedKept(n, r1, r2, out);
    forall k | 0 <= k < last
      ensures Get(r1, cols[k]) == Get(row, cols[k])
    {
      assert Clear(n, cols[k]);
    }
    RepairedFromShift(cols, n.extra, r1, out);
  }

  /** The last step of the second stage leaves the realigned columns and
      their adjusted columns as the realignment made them. */
  lemma ShiftedKept(n: Columns, r1: Row, r2: Row, out: Row)
    requires Separate(n)
    requires forall k :: 0 <= k < |n.colunas| ==> Get(r2, Ajustado(n.colunas[k])) == ShiftedValue(r1, n.colunas, n.extra, k)
    requires forall d :: OutsideAdjusted(d, n.colunas, 0) ==> Get(r2, d) == Get(r1, d)
    requires forall d :: d != n.diasAjustado ==> Get(out, d) == Get(r2, d)
    ensures forall k :: 0 <= k < |n.colunas| ==> Get(out, n.colunas[k]) == Get(r1, n.colunas[k])
    ensures forall k :: 0 <= k < |n.colunas| ==> Get(out, Ajustado(n.colunas[k])) == ShiftedValue(r1, n.colunas, n.extra, k)
  {
    var cols, last := n.colunas, |n.colunas| - 1;
    assert OutsideAdjusted(n.extra, cols, 0);
    forall k | 0 <= k < |cols|
      ensures Get(out, cols[k]) == Get(r1, cols[k])
    {
      if k < last {
        assert OutsideAdjusted(cols[k], cols, 0) && cols[k] != n.diasAjustado;
      }
    }
    forall k | 0 <= k < |cols|
      ensures Get(out, Ajustado(cols[k])) == ShiftedValue(r1, cols, n.extra, k)
    {
      assert Ajustado(cols[k]) != n.diasAjustado;
    }
  }

  /** A row whose realigned columns are those of `r1` and whose adjusted
      columns hold the shifted values of `r1` is repaired, and its last
      adjusted column is missing. */
  lemma RepairedFromShift(cols: seq<string>, extra: string, r1: Row, out: Row)
    requires |cols| >= 1 && cols[|cols| - 1] == extra
    requires forall k :: 0 <= k < |cols| ==> Get(out, cols[k]) == Get(r1, cols[k])
    requires forall k :: 0 <= k < |cols| ==> Get(out, Ajustado(cols[k])) == ShiftedValue(r1, cols, extra, k)
    ensures ShiftRepaired(cols, extra, out)
    ensures Get(out, Ajustado(extra)).None?
  {
    assert Get(out, extra) == Get(r1, extra);
    assert Get(out, Ajustado(cols[|cols| - 1])) == ShiftedValue(r1, cols, extra, |cols| - 1);
    forall k | 0 <= k < |cols| - 1
      ensures Get(out, Ajustado(cols[k])) == ShiftedValue(out, cols, extra, k)
    {
      assert Get(out, cols[k + 1]) == Get(r1, cols[k + 1]) && Get(out, cols[k]) == Get(r1, cols[k]);
    }
  }

  /** Lines 151 and 176 to 178 on one row that converts: the sale date
      parsed and the zeroed stock days cast. */
  function ConvertRow(n: Columns, v: Row): Row {
    var p := v[n.data := Converted(Get(v, n.data), DayFirstDay)];
    p[n.diasAjustado := Converted(Get(p, n.diasAjustado), IntValue)]
  }

  /** `out` keeps every column of `row` but the two converted ones. */
  ghost predicate ConvertKeeps(n: Columns, row: Row, out: Row) {
    forall d :: d != n.data && d != n.diasAjustado ==> Get(out, d) == Get(row, d)
  }

  lemma ConvertRowSpec(n: Columns, v: Row)
    requires n.data != n.diasAjustado
    ensures Get(ConvertRow(n, v), n.data) == Converted(Get(v, n.data), DayFirstDay)
    ensures Get(ConvertRow(n, v), n.diasAjustado) == Converted(Get(v, n.diasAjustado), IntValue)
    ensures ConvertKeeps(n, v, ConvertRow(n, v))
  {
  }

  /** What lines 182 to 217 make of one converted row. */
  function FinishRow(n: Columns, w: Row): Row {
    var w1 := w - {Ajustado(n.extra)};
    var w2 := w1[n.diasAjustado := Absolute(Get(w1, n.diasAjustado))];
    var w3 := w2[n.lucro := Difference(Get(w2, n.valor), Get(w2, n.custo))];
    w3[n.confiabilidade := Reliability(Get(w3, n.status), Get(w3, n.deslocadas))]
  }

  /** The last stage: the always-missing last adjusted column gone, the
      stock days made non-negative, the profit recalculated and the
      reliability label. */
  predicate Finished(n: Columns, row: Row, out: Row) {
    && Get(out, Ajustado(n.extra)).None?
    && Get(out, n.diasAjustado) == Absolute(Get(row, n.diasAjustado))
    && Get(out, n.lucro) == Difference(Get(row, n.valor), Get(row, n.custo))
    && Get(out, n.confiabilidade) == Reliability(Get(row, n.status), Get(row, n.deslocadas))
  }

  predicate FinishWritten(n: Columns, d: string) {
    d == Ajustado(n.extra) || d == n.diasAjustado || d == n.lucro || d == n.confiabilidade
  }

  /** `out` keeps every column of `row` the last stage does not write. */
  ghost predicate FinishKeeps(n: Columns, row: Row, out: Row) {
    forall d :: !FinishWritten(n, d) ==> Get(out, d) == Get(row, d)
  }

  /** The four columns of the last stage, and the four it reads, are
      different where they must be. */
  predicate FinishApart(n: Columns) {
    && Ajustado(n.extra) != n.diasAjustado && Ajustado(n.extra) != n.lucro && Ajustado(n.extra) != n.confiabilidade
    && n.diasAjustado != n.lucro && n.diasAjustado != n.confiabilidade && n.lucro != n.confiabilidade
    && n.valor != Ajustado(n.extra) && n.valor != n.diasAjustado && n.custo != Ajustado(n.extra) && n.custo != n.diasAjustado
    && n.status != Ajustado(n.extra) && n.status != n.diasAjustado && n.status != n.lucro
    && n.deslocadas != Ajustado(n.extra) && n.deslocadas != n.diasAjustado && n.deslocadas != n.lucro
  }

  lemma FinishRowSpec(n: Columns, w: Row)
    requires FinishApart(n)
    ensures Finished(n, w, FinishRow(n, w))
    ensures FinishKeeps(n, w, FinishRow(n, w))
  {
  }

  // ---- The stages of the script over the table ----

  /** Lines 34 to 42. */
  function Branch(n: Columns, t: Table): (b: Table)
    ensures |b| == |t|
    ensures forall i :: 0 <= i < |t| ==> Get(b[i], n.filialAjustado) == RemapBranch(DateLikeBranches, Get(t[i], n.filial))
    ensures forall i, d :: 0 <= i < |t| && d != n.filialAjustado ==> Get(b[i], d) == Get(t[i], d)
  {
    WithColumn(t, n.filialAjustado, row => RemapBranch(DateLikeBranches, Get(row, n.filial)))
  }

  /** Lines 34 to 102: the fixed branch code, the two duplicate flags read
      off the branch-fixed table, the duplicate status and the
      shifted-columns flag. */
  function Mark(n: Columns, t: Table): (u: Table)
    requires n.duplicada !in n.subset
    ensures |u| == |t|
    ensures forall i :: 0 <= i < |t| ==>
      u[i] == MarkRow(n, t[i], DuplicatedRow(Branch(n, t), i), DuplicatedOn(Branch(n, t), i, n.subset))
  {
    var b := Branch(n, t);
    var t2 := FlagDuplicatedRows(b, n.duplicada);
    assert forall k :: 0 <= k < |n.subset| ==> n.subset[k] != n.duplicada;
    SameDuplicatesOn(b, t2, n.subset);
    var t3 := FlagDuplicatedOn(t2, n.subset, n.parcial);
    var t4 := WithColumn(t3, n.status, row => StatusCell(Get(row, n.duplicada), Get(row, n.parcial)));
    WithColumn(t4, n.deslocadas, row => ShiftFlag(Get(row, n.dias)))
  }

  /** Lines 106 to 147. */
  function Realign(n: Columns, u: Table): (v: Table)
    requires n.semNome != n.extra && Distinct(n.colunas)
    ensures |v| == |u|
    ensures forall i :: 0 <= i < |u| ==> v[i] == RealignRow(n, u[i])
  {
    var u1 := RenameColumn(u, n.semNome, n.extra);
    var u2 := ShiftColumns(u1, n.colunas, n.extra);
    WithColumn(u2, n.diasAjustado, row => DaysText(Get(row, n.dias)))
  }

  /** Lines 151 and 176 to 178: the sale date parsed from `%d/%m/%Y` and
      the zeroed stock days cast to an integer, both strictly. */
  function Convert(n: Columns, v: Table): (r: Result<Table, Error>)
    requires n.data != n.diasAjustado
    ensures r.Failure? <==> exists i :: 0 <= i < |v| &&
                                     (ConvertCell(Get(v[i], n.data), DayFirstDay).None?
                                      || ConvertCell(Get(v[i], n.diasAjustado), IntValue).None?)
    ensures r.Success? ==> |r.value| == |v|
    ensures r.Success? ==> forall i :: 0 <= i < |v| ==> r.value[i] == ConvertRow(n, v[i])
  {
    match ParseDayFirstColumn(v, n.data)
    case Failure(e) => Failure(e)
    case Success(p) => ParseColumn(p, n.diasAjustado, IntValue)
  }

  /** Lines 182 to 217. */
  function Finish(n: Columns, w: Table): (f: Table)
    ensures |f| == |w|
    ensures forall i :: 0 <= i < |w| ==> f[i] == FinishRow(n, w[i])
  {
    var w1 := DropColumn(w, Ajustado(n.extra));
    var w2 := WithColumn(w1, n.diasAjustado, row => Absolute(Get(row, n.diasAjustado)));
    var w3 := WithColumn(w2, n.lucro, row => Difference(Get(row, n.valor), Get(row, n.custo)));
    WithColumn(w3, n.confiabilidade, row => Reliability(Get(row, n.status), Get(row, n.deslocadas)))
  }

  // ---- The whole script ----

  /** What the stages make of one raw row with the given duplicate flags. */
  function CleanRow(n: Columns, row: Row, full: bool, partial: bool): Row
    requires Separate(n)
  {
    FinishRow(n, ConvertRow(n, RealignRow(n, MarkRow(n, row, full, partial))))
  }

  /** The stages in the order the script runs them. */
  function Pipeline(n: Columns, t: Table): Result<Table, Error>
    requires Separate(n)
  {
    match Convert(n, Realign(n, Mark(n, t)))
    case Failure(e) => Failure(e)
    case Success(w) => Success(Finish(n, w))
  }

  /** The realigned columns of `out` are those of the raw `row`, with the
      unnamed column moved to `extra`, and the adjusted ones repaired. */
  predicate Repaired(n: Columns, row: Row, out: Row) {
    && Get(out, n.extra) == Get(row, n.semNome)
    && Get(out, n.semNome).None?
    && (forall k :: 0 <= k < |n.colunas| - 1 ==> Get(out, n.colunas[k]) == Get(row, n.colunas[k]))
    && ShiftRepaired(n.colunas, n.extra, out)
    && Get(out, Ajustado(n.extra)).None?
  }

  /** The sale date parsed, the stock days adjusted, the profit
      recalculated from the raw row, and the reliability label read off the
      two flags of `out`. */
  predicate Computed(n: Columns, row: Row, out: Row) {
    && DayFirstParsed(Get(row, n.data), Get(out, n.data))
    && Get(out, n.diasAjustado) == AdjustedDays(Get(row, n.dias))
    && Get(out, n.lucro) == Difference(Get(row, n.valor), Get(row, n.custo))
    && Get(out, n.confiabilidade) == Reliability(Get(out, n.status), Get(out, n.deslocadas))
  }

  /** What lines 34 to 102 write into row `i`, whose raw form is `row`;
      `b` is the table after the branch fix, the table both duplicate
      tests look at. */
  predicate Flagged(n: Columns, b: Table, i: int, row: Row, out: Row)
    requires 0 <= i < |b|
  {
    FlagsOf(n, row, DuplicatedRow(b, i), DuplicatedOn(b, i, n.subset), out)
  }

  /** `out` is what the script makes of row `i` of the raw table `t`. */
  predicate Cleaned(n: Columns, t: Table, i: int, out: Row)
    requires 0 <= i < |t|
  {
    Flagged(n, Branch(n, t), i, t[i], out) && Repaired(n, t[i], out) && Computed(n, t[i], out)
  }

  predicate DateFails(n: Columns, row: Row) {
    ConvertCell(Get(row, n.data), DayFirstDay).None?
  }

  /** `d` is a column some stage of the script writes, renames, converts
      or drops. */
  predicate Touched(n: Columns, d: string) {
    MarkWritten(n, d) || RealignWritten(n, d) || d == n.data || FinishWritten(n, d)
  }

  /** The whole script, with the columns named in `n`; the script itself is
      `Trusted(Names, t)`. It fails exactly when some sale date is not a
      `%d/%m/%Y` date or some zeroed stock-days text is not an integer, and
      otherwise keeps every row, in order, cleaned, with every column no
      stage touches holding its raw cell. */
  function Trusted(n: Columns, t: Table): (r: Result<Table, Error>)
    requires Separate(n)
    ensures r.Failure? <==> exists i :: 0 <= i < |t| && (DateFails(n, t[i]) || DaysFail(Get(t[i], n.dias)))
    ensures r.Success? ==> |r.value| == |t|
    ensures r.Success? ==> forall i :: 0 <= i < |t| ==> Cleaned(n, t, i, r.value[i])
    ensures r.Success? ==> forall i, d :: 0 <= i < |t| && !Touched(n, d) ==> Get(r.value[i], d) == Get(t[i], d)
  {
    PipelineFails(n, t);
    PipelineCleans(n, t);
    PipelineKeeps(n, t);
    Pipeline(n, t)
  }

  /** On success every column no stage touches keeps its raw cells. */
  lemma PipelineKeeps(n: Columns, t: Table)
    requires Separate(n)
    ensures Pipeline(n, t).Success? ==>
      forall i, d :: 0 <= i < |t| && !Touched(n, d) ==> Get(Pipeline(n, t).value[i], d) == Get(t[i], d)
  {
    if Pipeline(n, t).Success? {
      var b := Branch(n, t);
      var f := Pipeline(n, t).value;
      PipelineRows(n, t);
      forall i, d | 0 <= i < |t| && !Touched(n, d)
        ensures Get(f[i], d) == Get(t[i], d)
      {
        CleanRowKeeps(n, t[i], DuplicatedRow(b, i), DuplicatedOn(b, i, n.subset));
      }
    }
  }

  /** The four row stages leave every column none of them touches. */
  lemma CleanRowKeeps(n: Columns, row: Row, full: bool, partial: bool)
    requires Separate(n)
    ensures forall d :: !Touched(n, d) ==> Get(CleanRow(n, row, full, partial), d) == Get(row, d)
  {
    var m := MarkRow(n, row, full, partial);
    var v := RealignRow(n, m);
    var w := ConvertRow(n, v);
    SeparateApart(n);
    MarkRowSpec(n, row, full, partial);
    RealignRowSpec(n, m);
    ConvertRowSpec(n, v);
    FinishRowSpec(n, w);
    KeepsCompose(n, row, m, v, w, FinishRow(n, w));
  }

  /** Four rows each keeping what its stage does not write keep, end to
      end, what no stage touches. */
  lemma KeepsCompose(n: Columns, row: Row, m: Row, v: Row, w: Row, f: Row)
    requires MarkKeeps(n, row, m) && RealignKeeps(n, m, v) && ConvertKeeps(n, v, w) && FinishKeeps(n, w, f)
    ensures forall d :: !Touched(n, d) ==> Get(f, d) == Get(row, d)
  {
    forall d | !Touched(n, d)
      ensures Get(f, d) == Get(row, d)
    {
      assert !RealignWritten(n, d) && d != n.diasAjustado;
    }
  }

  /** The names fit the row stages. */
  lemma SeparateApart(n: Columns)
    requires Separate(n)
    ensures MarkApart(n) && FinishApart(n) && n.data != n.diasAjustado
  {
    assert Clear(n, Ajustado(n.colunas[|n.colunas| - 1]));
  }

  /** The two columns the conversions read, after the first two stages,
      still hold the raw date and the zeroed raw stock days. */
  lemma ConvertInputs(n: Columns, row: Row, full: bool, partial: bool)
    requires Separate(n)
    ensures Get(RealignRow(n, MarkRow(n, row, full, partial)), n.data) == Get(row, n.data)
    ensures Get(RealignRow(n, MarkRow(n, row, full, partial)), n.diasAjustado) == DaysText(Get(row, n.dias))
  {
    var m := MarkRow(n, row, full, partial);
    SeparateApart(n);
    MarkRowSpec(n, row, full, partial);
    RealignRowSpec(n, m);
    ReadInputs(n, row, m, RealignRow(n, m));
  }

  lemma ReadInputs(n: Columns, row: Row, m: Row, v: Row)
    requires Separate(n)
    requires MarkKeeps(n, row, m) && Realigned(n, m, v) && RealignKeeps(n, m, v)
    ensures Get(v, n.data) == Get(row, n.data) && Get(v, n.diasAjustado) == DaysText(Get(row, n.dias))
  {
    assert !RealignWritten(n, n.data) && !MarkWritten(n, n.data) && !MarkWritten(n, n.dias);
  }

  lemma PipelineFails(n: Columns, t: Table)
    requires Separate(n)
    ensures Pipeline(n, t).Failure? <==> exists i :: 0 <= i < |t| && (DateFails(n, t[i]) || DaysFail(Get(t[i], n.dias)))
  {
    var b := Branch(n, t);
    var m := Mark(n, t);
    var v := Realign(n, m);
    assert Pipeline(n, t).Failure? <==> Convert(n, v).Failure?;
    forall i | 0 <= i < |t|
      ensures Get(v[i], n.data) == Get(t[i], n.data) && Get(v[i], n.diasAjustado) == DaysText(Get(t[i], n.dias))
    {
      ConvertInputs(n, t[i], DuplicatedRow(b, i), DuplicatedOn(b, i, n.subset));
    }
  }

  lemma PipelineCleans(n: Columns, t: Table)
    requires Separate(n)
    ensures Pipeline(n, t).Success? ==> |Pipeline(n, t).value| == |t|
    ensures Pipeline(n, t).Success? ==> forall i :: 0 <= i < |t| ==> Cleaned(n, t, i, Pipeline(n, t).value[i])
  {
    if Pipeline(n, t).Success? {
      PipelineFails(n, t);
      var b := Branch(n, t);
      var f := Pipeline(n, t).value;
      PipelineRows(n, t);
      forall i | 0 <= i < |t|
        ensures Cleaned(n, t, i, f[i])
      {
        CleanRowSpec(n, t[i], DuplicatedRow(b, i), DuplicatedOn(b, i, n.subset));
      }
    }
  }

  /** On success every row of the result is the clean form of the raw row
      with its duplicate flags. */
  lemma PipelineRows(n: Columns, t: Table)
    requires Separate(n)
    ensures Pipeline(n, t).Success? ==> |Pipeline(n, t).value| == |t|
    ensures Pipeline(n, t).Success? ==> forall i :: 0 <= i < |t| ==>
      Pipeline(n, t).value[i] == CleanRow(n, t[i], DuplicatedRow(Branch(n, t), i), DuplicatedOn(Branch(n, t), i, n.subset))
  {
  }

  /** One raw row that converts, through the four stages. */
  lemma CleanRowSpec(n: Columns, row: Row, full: bool, partial: bool)
    requires Separate(n)
    requires !DateFails(n, row) && !DaysFail(Get(row, n.dias))
    ensures FlagsOf(n, row, full, partial, CleanRow(n, row, full, partial))
    ensures Repaired(n, row, CleanRow(n, row, full, partial))
    ensures Computed(n, row, CleanRow(n, row, full, partial))
  {
    var m := MarkRow(n, row, full, partial);
    var v := RealignRow(n, m);
    var w := ConvertRow(n, v);
    var f := FinishRow(n, w);
    SeparateApart(n);
    MarkRowSpec(n, row, full, partial);
    RealignRowSpec(n, m);
    ConvertRowSpec(n, v);
    FinishRowSpec(n, w);
    StagesKeep(n, row, m, v, w, f);
    StagesCompose(n, row, full, partial, m, v, w, f);
  }

  /** Four rows related as the four stages relate them, through the
      columns each stage writes and the columns the later ones keep: the
      last one is the cleaned row. */
  lemma StagesCompose(n: Columns, row: Row, full: bool, partial: bool, m: Row, v: Row, w: Row, f: Row)
    requires |n.colunas| >= 1 && n.colunas[|n.colunas| - 1] == n.extra
    requires !DateFails(n, row) && !DaysFail(Get(row, n.dias))
    requires FlagsOf(n, row, full, partial, m) && Realigned(n, m, v)
    requires Get(w, n.data) == Converted(Get(v, n.data), DayFirstDay)
    requires Get(w, n.diasAjustado) == Converted(Get(v, n.diasAjustado), IntValue)
    requires Finished(n, w, f)
    requires forall d :: MarkWritten(n, d) ==> Get(f, d) == Get(m, d) && Get(w, d) == Get(m, d)
    requires Get(f, n.data) == Get(w, n.data)
    requires Get(f, n.extra) == Get(v, n.extra) && Get(f, n.semNome) == Get(v, n.semNome)
    requires forall k :: 0 <= k < |n.colunas| ==> Get(f, n.colunas[k]) == Get(v, n.colunas[k])
    requires forall k :: 0 <= k < |n.colunas| - 1 ==> Get(f, Ajustado(n.colunas[k])) == Get(v, Ajustado(n.colunas[k]))
    requires Get(v, n.data) == Get(row, n.data) && Get(m, n.dias) == Get(row, n.dias)
    requires Get(w, n.valor) == Get(row, n.valor) && Get(w, n.custo) == Get(row, n.custo)
    requires Get(m, n.semNome) == Get(row, n.semNome)
    requires forall k :: 0 <= k < |n.colunas| - 1 ==> Get(m, n.colunas[k]) == Get(row, n.colunas[k])
    ensures FlagsOf(n, row, full, partial, f) && Repaired(n, row, f) && Computed(n, row, f)
  {
    FlagsOfKept(n, row, full, partial, m, w, f);
    RepairedOfKept(n, row, m, v, f);
    ComputedOfKept(n, row, m, v, w, f);
  }

  lemma FlagsOfKept(n: Columns, row: Row, full: bool, partial: bool, m: Row, w: Row, f: Row)
    requires FlagsOf(n, row, full, partial, m)
    requires forall d :: MarkWritten(n, d) ==> Get(f, d) == Get(m, d) && Get(w, d) == Get(m, d)
    ensures FlagsOf(n, row, full, partial, f)
    ensures Get(f, n.status) == Get(w, n.status) && Get(f, n.deslocadas) == Get(w, n.deslocadas)
  {
    assert MarkWritten(n, n.filialAjustado) && MarkWritten(n, n.duplicada) && MarkWritten(n, n.parcial);
    assert MarkWritten(n, n.status) && MarkWritten(n, n.deslocadas);
  }

  /** What the four stages keep: the first stage's five columns, the raw
      date, stock days, value and cost, the unnamed column and the
      realigned columns, and all adjusted columns but the last. */
  lemma StagesKeep(n: Columns, row: Row, m: Row, v: Row, w: Row, f: Row)
    requires Separate(n)
    requires MarkKeeps(n, row, m) && RealignKeeps(n, m, v) && ConvertKeeps(n, v, w) && FinishKeeps(n, w, f)
    ensures forall d :: MarkWritten(n, d) ==> Get(f, d) == Get(m, d) && Get(w, d) == Get(m, d)
    ensures Get(f, n.data) == Get(w, n.data)
    ensures Get(f, n.extra) == Get(v, n.extra) && Get(f, n.semNome) == Get(v, n.semNome)
    ensures forall k :: 0 <= k < |n.colunas| ==> Get(f, n.colunas[k]) == Get(v, n.colunas[k])
    ensures forall k :: 0 <= k < |n.colunas| - 1 ==> Get(f, Ajustado(n.colunas[k])) == Get(v, Ajustado(n.colunas[k]))
    ensures Get(v, n.data) == Get(row, n.data) && Get(m, n.dias) == Get(row, n.dias)
    ensures Get(w, n.valor) == Get(row, n.valor) && Get(w, n.custo) == Get(row, n.custo)
    ensures Get(m, n.semNome) == Get(row, n.semNome)
    ensures forall k :: 0 <= k < |n.colunas| - 1 ==> Get(m, n.colunas[k]) == Get(row, n.colunas[k])
  {
    FlagsKept(n, m, v, w, f);
    ShiftKept(n, v, w, f);
    RawKept(n, row, m, v, w);
    MarkKeepsShifted(n, row, m);
  }

  /** The first stage keeps the unnamed column and the realigned columns
      but the last. */
  lemma MarkKeepsShifted(n: Columns, row: Row, m: Row)
    requires Separate(n) && MarkKeeps(n, row, m)
    ensures Get(m, n.semNome) == Get(row, n.semNome)
    ensures forall k :: 0 <= k < |n.colunas| - 1 ==> Get(m, n.colunas[k]) == Get(row, n.colunas[k])
  {
    forall k | 0 <= k < |n.colunas| - 1
      ensures Get(m, n.colunas[k]) == Get(row, n.colunas[k])
    {
      assert Clear(n, n.colunas[k]);
    }
  }

  lemma RepairedOfKept(n: Columns, row: Row, m: Row, v: Row, f: Row)
    requires |n.colunas| >= 1 && n.colunas[|n.colunas| - 1] == n.extra
    requires Get(m, n.semNome) == Get(row, n.semNome)
    requires forall k :: 0 <= k < |n.colunas| - 1 ==> Get(m, n.colunas[k]) == Get(row, n.colunas[k])
    requires Realigned(n, m, v)
    requires Get(f, n.extra) == Get(v, n.extra) && Get(f, n.semNome) == Get(v, n.semNome)
    requires forall k :: 0 <= k < |n.colunas| ==> Get(f, n.colunas[k]) == Get(v, n.colunas[k])
    requires forall k :: 0 <= k < |n.colunas| - 1 ==> Get(f, Ajustado(n.colunas[k])) == Get(v, Ajustado(n.colunas[k]))
    requires Get(f, Ajustado(n.extra)).None?
    ensures Repaired(n, row, f)
  {
    ShiftRepairedKept(n.colunas, n.extra, v, f);
  }

  lemma ComputedOfKept(n: Columns, row: Row, m: Row, v: Row, w: Row, f: Row)
    requires !DateFails(n, row)
    requires Get(v, n.data) == Get(row, n.data) && Get(m, n.dias) == Get(row, n.dias)
    requires Get(w, n.valor) == Get(row, n.valor) && Get(w, n.custo) == Get(row, n.custo)
    requires Get(v, n.diasAjustado) == DaysText(Get(m, n.dias))
    requires Get(w, n.data) == Converted(Get(v, n.data), DayFirstDay)
    requires Get(w, n.diasAjustado) == Converted(Get(v, n.diasAjustado), IntValue)
    requires Finished(n, w, f)
    requires Get(f, n.data) == Get(w, n.data)
    requires Get(f, n.status) == Get(w, n.status) && Get(f, n.deslocadas) == Get(w, n.deslocadas)
    ensures Computed(n, row, f)
  {
    DayFirstDayParsed(Get(row, n.data), Get(w, n.data));
  }

  /** The five columns the first stage writes survive the later ones. */
  lemma FlagsKept(n: Columns, m: Row, v: Row, w: Row, f: Row)
    requires Separate(n)
    requires RealignKeeps(n, m, v) && ConvertKeeps(n, v, w) && FinishKeeps(n, w, f)
    ensures forall d :: MarkWritten(n, d) ==> Get(f, d) == Get(m, d) && Get(w, d) == Get(m, d)
    ensures Get(f, n.data) == Get(w, n.data)
  {
    forall d | MarkWritten(n, d)
      ensures Get(f, d) == Get(m, d) && Get(w, d) == Get(m, d)
    {
      assert !Clear(n, d);
      assert !RealignWritten(n, d) && !FinishWritten(n, d);
    }
  }

  /** The realigned columns and all adjusted ones but the last survive the
      conversions and the last stage. */
  lemma ShiftKept(n: Columns, v: Row, w: Row, f: Row)
    requires Separate(n)
    requires ConvertKeeps(n, v, w) && FinishKeeps(n, w, f)
    ensures Get(f, n.extra) == Get(v, n.extra) && Get(f, n.semNome) == Get(v, n.semNome)
    ensures forall k :: 0 <= k < |n.colunas| ==> Get(f, n.colunas[k]) == Get(v, n.colunas[k])
    ensures forall k :: 0 <= k < |n.colunas| - 1 ==> Get(f, Ajustado(n.colunas[k])) == Get(v, Ajustado(n.colunas[k]))
  {
    var cols, last := n.colunas, |n.colunas| - 1;
    assert Clear(n, Ajustado(cols[last]));
    forall k | 0 <= k < last
      ensures Get(f, cols[k]) == Get(v, cols[k])
    {
      assert Clear(n, cols[k]);
    }
    forall k | 0 <= k < last
      ensures Get(f, Ajustado(cols[k])) == Get(v, Ajustado(cols[k]))
    {
      AjustadoInjective(cols[k], cols[last]);
      assert Clear(n, Ajustado(cols[k]));
    }
  }

  /** The raw date, stock days, value and cost reach the conversions as
      they were. */
  lemma RawKept(n: Columns, row: Row, m: Row, v: Row, w: Row)
    requires Separate(n)
    requires MarkKeeps(n, row, m) && RealignKeeps(n, m, v) && ConvertKeeps(n, v, w)
    ensures Get(v, n.data) == Get(row, n.data) && Get(m, n.dias) == Get(row, n.dias)
    ensures Get(w, n.valor) == Get(row, n.valor) && Get(w, n.custo) == Get(row, n.custo)
  {
    assert !RealignWritten(n, n.data) && !RealignWritten(n, n.valor) && !RealignWritten(n, n.custo);
  }

  /** Keeping the realigned columns and the adjusted ones but the last
      keeps a row repaired. */
  lemma ShiftRepairedKept(cols: seq<string>, extra: string, v: Row, f: Row)
    requires |cols| >= 1 && cols[|cols| - 1] == extra && ShiftRepaired(cols, extra, v)
    requires forall k :: 0 <= k < |cols| ==> Get(f, cols[k]) == Get(v, cols[k])
    requires forall k :: 0 <= k < |cols| - 1 ==> Get(f, Ajustado(cols[k])) == Get(v, Ajustado(cols[k]))
    ensures ShiftRepaired(cols, extra, f)
  {
    assert Get(f, extra) == Get(v, extra) by {
      assert cols[|cols| - 1] == extra;
    }
    forall k | 0 <= k < |cols| - 1
      ensures Get(f, Ajustado(cols[k])) == ShiftedValue(f, cols, extra, k)
    {
      ShiftRepairedAt(cols, extra, v, f, k);
    }
  }

  /** One adjusted column of the kept row. */
  lemma ShiftRepairedAt(cols: seq<string>, extra: string, v: Row, f: Row, k: int)
    requires 0 <= k < |cols| - 1 && ShiftRepaired(cols, extra, v)
    requires Get(f, extra) == Get(v, extra)
    requires Get(f, cols[k]) == Get(v, cols[k]) && Get(f, cols[k + 1]) == Get(v, cols[k + 1])
    requires Get(f, Ajustado(cols[k])) == Get(v, Ajustado(cols[k]))
    ensures Get(f, Ajustado(cols[k])) == ShiftedValue(f, cols, extra, k)
  {
  }

  // ---- What each stage means over the table ----

  /** Every row of `u` is row `i` of `t` with the five columns of lines 34
      to 102 written and nothing else changed. */
  ghost predicate Marked(n: Columns, t: Table, u: Table) {
    && |u| == |t|
    && (forall i :: 0 <= i < |t| ==> Flagged(n, Branch(n, t), i, t[i], u[i]))
    && (forall i, d :: 0 <= i < |t| && !MarkWritten(n, d) ==> Get(u[i], d) == Get(t[i], d))
  }

  lemma MarkSpec(n: Columns, t: Table)
    requires MarkApart(n) && n.duplicada !in n.subset
    ensures Marked(n, t, Mark(n, t))
  {
    var b := Branch(n, t);
    forall i | 0 <= i < |t|
      ensures Flagged(n, b, i, t[i], Mark(n, t)[i])
      ensures forall d :: !MarkWritten(n, d) ==> Get(Mark(n, t)[i], d) == Get(t[i], d)
    {
      MarkRowSpec(n, t[i], DuplicatedRow(b, i), DuplicatedOn(b, i, n.subset));
    }
  }

  ghost predicate RealignedTable(n: Columns, u: Table, v: Table) {
    && |v| == |u|
    && (forall i :: 0 <= i < |u| ==> Realigned(n, u[i], v[i]))
    && (forall i, d :: 0 <= i < |u| && !RealignWritten(n, d) ==> Get(v[i], d) == Get(u[i], d))
  }

  lemma RealignSpec(n: Columns, u: Table)
    requires Separate(n)
    ensures RealignedTable(n, u, Realign(n, u))
  {
    forall i | 0 <= i < |u|
      ensures Realigned(n, u[i], Realign(n, u)[i])
      ensures forall d :: !RealignWritten(n, d) ==> Get(Realign(n, u)[i], d) == Get(u[i], d)
    {
      RealignRowSpec(n, u[i]);
    }
  }

  /** Every row of `w` is that of `v` with the date parsed and the stock
      days cast. */
  ghost predicate ConvertedTable(n: Columns, v: Table, w: Table) {
    && |w| == |v|
    && (forall i :: 0 <= i < |v| ==>
          DayFirstParsed(Get(v[i], n.data), Get(w[i], n.data))
          && Some(Get(w[i], n.diasAjustado)) == ConvertCell(Get(v[i], n.diasAjustado), IntValue))
    && (forall i, d :: 0 <= i < |v| && d != n.data && d != n.diasAjustado ==> Get(w[i], d) == Get(v[i], d))
  }

  lemma ConvertSpec(n: Columns, v: Table)
    requires n.data != n.diasAjustado
    ensures Convert(n, v).Success? ==> ConvertedTable(n, v, Convert(n, v).value)
  {
    if Convert(n, v).Success? {
      var w := Convert(n, v).value;
      forall i | 0 <= i < |v|
        ensures DayFirstParsed(Get(v[i], n.data), Get(w[i], n.data))
        ensures Some(Get(w[i], n.diasAjustado)) == ConvertCell(Get(v[i], n.diasAjustado), IntValue)
      {
        assert ConvertCell(Get(v[i], n.data), DayFirstDay).Some?;
        DayFirstDayParsed(Get(v[i], n.data), Get(w[i], n.data));
      }
    }
  }

  ghost predicate FinishedTable(n: Columns, w: Table, f: Table) {
    && |f| == |w|
    && (forall i :: 0 <= i < |w| ==> Finished(n, w[i], f[i]))
    && (forall i, d :: 0 <= i < |w| && !FinishWritten(n, d) ==> Get(f[i], d) == Get(w[i], d))
  }

  lemma FinishSpec(n: Columns, w: Table)
    requires FinishApart(n)
    ensures FinishedTable(n, w, Finish(n, w))
  {
    forall i | 0 <= i < |w|
      ensures Finished(n, w[i], Finish(n, w)[i])
      ensures forall d :: !FinishWritten(n, d) ==> Get(Finish(n, w)[i], d) == Get(w[i], d)
    {
      FinishRowSpec(n, w[i]);
    }
  }
}
