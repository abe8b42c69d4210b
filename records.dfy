/** Row types of the price database and the values the ranking engine produces.
    Calendar dates are day ordinals (1 January of year 1 is day 1, as Python's
    `date.toordinal()`); timestamps are integers; prices are reals. A nullable
    column is an `Option`. */
module Records {

  datatype Option<+T> = None | Some(value: T)

  /** A ranking score as the source keeps it: a float that starts at minus or
      plus infinity and is replaced by a finite value once a candidate wins. */
  datatype Valor = NegInf | PosInf | Finite(x: real)

  /** Table `ativos`: one tradable instrument. */
  datatype Ativo = Ativo(id: nat, ticker: string, nome: Option<string>)

  /** Table `historicos`: one daily price bar of one instrument. */
  datatype Historico = Historico(
    id: nat,
    ativoId: nat,
    data: int,
    precoAbertura: Option<real>,
    precoFechamento: Option<real>,
    maximo: Option<real>,
    minimo: Option<real>,
    volume: Option<real>)

  /** Table `preco_atual`: the last quote fetched for an instrument. */
  datatype PrecoAtual = PrecoAtual(
    ativoId: nat,
    preco: Option<real>,
    variacao: Option<real>,
    variacaoPercentual: Option<real>,
    atualizadoEm: int)

  /** Table `analytics_cache`: one computed highlight, keyed by `tipo`. */
  datatype AnalyticsCache = AnalyticsCache(
    tipo: string,
    ticker: Option<string>,
    valor: Valor,
    atualizadoEm: int)

  /** What the engine reads per instrument: its ticker (in listing order) and
      the rows `listar_historicos` returns for it. */
  datatype Listagem = Listagem(ticker: string, historicos: seq<Historico>)
}
