/** The trusted step for the parts inventory: two date columns parsed from
    `%Y-%m-%d`, the obsolete flag read from its text, and a revised stock
    value that is zero when nothing is in stock. Every step adds or
    replaces a column, so no row is added or lost. */
module EstoquePecas {
  import opened Wrappers
  import opened Dates
  import opened Frame
  import opened Lookup
  import opened Rules
  import opened Strptime

  const Quantidade := "Quantidade_da_Peca_em_Estoque"
  const Valor := "Valor_da_Peca_em_Estoque"
  const ValorRevisado := "Valor_da_Peca_em_Estoque_Revisado"
  const UltimaVenda := "Data_de_Ultima_Venda_da_Peca"
  const UltimaEntrada := "Data_da_Ultima_Entrada_no_Estoque_da_Peca"
  const Obsoleta := "Peca_Esta_Obsoleta"

  /** `padronizar_categorias`: this script's category table is empty. */
  const CategoriasPadrao: map<string, string> := map[]

  /** Standardising with the empty table changes no category. */
  lemma PadronizarCategoriasIsIdentity(t: Table, src: string, dst: string)
    ensures var u := ReplaceColumn(t, src, dst, CategoriasPadrao);
      forall i :: 0 <= i < |t| ==> Get(u[i], dst) == Get(t[i], src)
  {
    forall i | 0 <= i < |t|
      ensures Get(ReplaceColumn(t, src, dst, CategoriasPadrao)[i], dst) == Get(t[i], src)
    {
      ReplaceEmpty(Get(t[i], src));
    }
  }

  /** `map_elements(lambda x: True if x == "True" else False)`: exactly the
      text "True" is true. `map_elements` skips missing cells, so a missing
      flag stays missing. */
  function ObsoleteFlag(c: Cell): (r: Cell)
    ensures r.None? <==> c.None?
    ensures r.Some? ==> r.value.Flag?
    ensures r == Some(Flag(true)) <==> c == Some(Text("True"))
  {
    match c
    case None => None
    case Some(v) => Some(Flag(v == Text("True")))
  }

  /** `when(quantity == 0).then(0.0).otherwise(value)` */
  function RevisedValue(row: Row): (r: Cell)
    ensures IsZero(Get(row, Quantidade)) ==> IsZero(r)
    ensures !IsZero(Get(row, Quantidade)) ==> r == Get(row, Valor)
  {
    ZeroWhenNoQuantity(Get(row, Quantidade), Get(row, Valor))
  }

  predicate DateFails(c: Cell) {
    ConvertCell(c, IsoDay).None?
  }

  predicate DatesFail(row: Row) {
    DateFails(Get(row, UltimaVenda)) || DateFails(Get(row, UltimaEntrada))
  }

  /** The two strict `%Y-%m-%d` parses, lines 43 to 56 of the script. */
  function ParseDates(t: Table): (r: Result<Table, Error>)
    ensures r.Failure? <==> exists i :: 0 <= i < |t| && DatesFail(t[i])
    ensures r.Success? ==> |r.value| == |t|
    ensures r.Success? ==> forall i :: 0 <= i < |t| ==>
      && IsoParsed(Get(t[i], UltimaVenda), Get(r.value[i], UltimaVenda))
      && IsoParsed(Get(t[i], UltimaEntrada), Get(r.value[i], UltimaEntrada))
    ensures r.Success? ==> forall i, d :: 0 <= i < |t| && d != UltimaVenda && d != UltimaEntrada ==>
      Get(r.value[i], d) == Get(t[i], d)
  {
    match ParseIsoColumn(t, UltimaVenda)
    case Failure(e) => Failure(e)
    case Success(t1) =>
      assert UltimaVenda != UltimaEntrada;
      ParseIsoColumn(t1, UltimaEntrada)
  }

  /** The column names this script writes differ from the ones it reads. */
  lemma NamesDiffer()
    ensures Obsoleta != UltimaVenda && Obsoleta != UltimaEntrada && Obsoleta != ValorRevisado
    ensures Valor != UltimaVenda && Valor != UltimaEntrada && Valor != ValorRevisado && Valor != Obsoleta
    ensures Quantidade != UltimaVenda && Quantidade != UltimaEntrada && Quantidade != ValorRevisado && Quantidade != Obsoleta
    ensures UltimaVenda != ValorRevisado && UltimaVenda != Obsoleta
    ensures UltimaEntrada != ValorRevisado && UltimaEntrada != Obsoleta
  {
  }

  /** `c` is one of the columns the script parses or computes. */
  predicate Written(c: string) {
    c == UltimaVenda || c == UltimaEntrada || c == Obsoleta || c == ValorRevisado
  }

  /** The whole script, from the raw table to the trusted one. Every column
      it does not parse or compute keeps its raw cells. */
  function Trusted(t: Table): (r: Result<Table, Error>)
    ensures r.Failure? <==> exists i :: 0 <= i < |t| && DatesFail(t[i])
    ensures r.Success? ==> |r.value| == |t|
    ensures r.Success? ==> forall i :: 0 <= i < |t| ==>
      var row, out := t[i], r.value[i];
      && IsoParsed(Get(row, UltimaVenda), Get(out, UltimaVenda))
      && IsoParsed(Get(row, UltimaEntrada), Get(out, UltimaEntrada))
      && Get(out, Obsoleta) == ObsoleteFlag(Get(row, Obsoleta))
      && Get(out, Valor) == Get(row, Valor)
      && Get(out, Quantidade) == Get(row, Quantidade)
      && (IsZero(Get(row, Quantidade)) ==> IsZero(Get(out, ValorRevisado)))
      && (!IsZero(Get(row, Quantidade)) ==> Get(out, ValorRevisado) == Get(row, Valor))
    ensures r.Success? ==> forall i, d :: 0 <= i < |t| && !Written(d) ==> Get(r.value[i], d) == Get(t[i], d)
  {
    match ParseDates(t)
    case Failure(e) => Failure(e)
    case Success(t2) =>
      NamesDiffer();
      var t3 := WithColumn(t2, Obsoleta, row => ObsoleteFlag(Get(row, Obsoleta)));
      var t4 := WithColumn(t3, ValorRevisado, RevisedValue);
      Success(t4)
  }
}
