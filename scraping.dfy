/** The history collector's bookkeeping: the table of named periods, the
    normalisation of the `periodos` argument, the order in which (ticker,
    period) downloads are attempted, and the fix-up that makes a scraped table
    hold a row for today. Browser automation and page parsing are not part of
    this model. */
module Scraping {
  import opened Records
  import opened Calendar

  /** A date range `(data_inicial, data_final)`, as day ordinals. */
  datatype Intervalo = Intervalo(inicio: int, fim: int)

  /** The keys of `Scraper.PERIODOS`. */
  const Codigos: seq<string> := ["1D", "5D", "3M", "6M", "YTD", "1Y", "5Y"]

  /** The length in days of each fixed-length period. */
  function DiasDoPeriodo(codigo: string): Option<int> {
    if codigo == "1D" then Some(1)
    else if codigo == "5D" then Some(5)
    else if codigo == "3M" then Some(90)
    else if codigo == "6M" then Some(180)
    else if codigo == "1Y" then Some(365)
    else if codigo == "5Y" then Some(5 * 365)
    else None
  }

  /** `Scraper.PERIODOS[codigo](hoje)`, or None for an unknown code. */
  function Periodo(codigo: string, hoje: int): (r: Option<Intervalo>)
    requires hoje >= 1
    ensures r.Some? <==> codigo in Codigos
    ensures r.Some? ==> r.value.fim == hoje && r.value.inicio <= hoje
    ensures DiasDoPeriodo(codigo).Some? ==> r == Some(Intervalo(hoje - DiasDoPeriodo(codigo).value, hoje))
  {
    if codigo == "YTD" then Some(Intervalo(PrimeiroDeJaneiro(Ano(hoje)), hoje))
    else match DiasDoPeriodo(codigo)
      case None => None
      case Some(n) => Some(Intervalo(hoje - n, hoje))
  }

  /** The fixed periods reach back 1, 5, 90, 180, 365 and 1825 days. */
  lemma PeriodosFixos(hoje: int)
    requires hoje >= 1
    ensures Periodo("1D", hoje) == Some(Intervalo(hoje - 1, hoje))
    ensures Periodo("5D", hoje) == Some(Intervalo(hoje - 5, hoje))
    ensures Periodo("3M", hoje) == Some(Intervalo(hoje - 90, hoje))
    ensures Periodo("6M", hoje) == Some(Intervalo(hoje - 180, hoje))
    ensures Periodo("1Y", hoje) == Some(Intervalo(hoje - 365, hoje))
    ensures Periodo("5Y", hoje) == Some(Intervalo(hoje - 1825, hoje))
  {
  }

  /** The year-to-date period starts on 1 January of `hoje`'s own year and
      spans less than a year. */
  lemma AnoCorrente(hoje: int)
    requires hoje >= 1
    ensures Periodo("YTD", hoje).Some?
    ensures var j := Periodo("YTD", hoje).value;
      && j.inicio >= 1 && Ano(j.inicio) == Ano(hoje)
      && j.inicio <= j.fim == hoje
      && j.inicio == PrimeiroDeJaneiro(Ano(hoje))
      && hoje - j.inicio < 366
  {
    AnoDoPrimeiroDeJaneiro(Ano(hoje));
    AnoTem365ou366Dias(Ano(hoje));
  }

  // ---------------------------------------------------------------------------
  // The `periodos` argument
  // ---------------------------------------------------------------------------

  /** What a caller may pass as `periodos`: nothing, one code, or a list. */
  datatype ArgPeriodos = Nenhum | Texto(codigo: string) | Lista(codigos: seq<string>)

  /** `None` becomes `['6M', '1Y']`, a bare string a one-element list. */
  function Normalizar(a: ArgPeriodos): (ps: seq<string>)
    ensures a.Nenhum? ==> ps == ["6M", "1Y"]
    ensures a.Texto? ==> ps == [a.codigo]
    ensures a.Lista? ==> ps == a.codigos
  {
    match a
    case Nenhum => ["6M", "1Y"]
    case Texto(c) => [c]
    case Lista(cs) => cs
  }

  /** Normalising twice changes nothing. */
  lemma NormalizarIdempotente(a: ArgPeriodos)
    ensures Normalizar(Lista(Normalizar(a))) == Normalizar(a)
  {
  }

  // ---------------------------------------------------------------------------
  // Download attempts
  // ---------------------------------------------------------------------------

  /** One call to `scrape_historical_data` for a ticker and a named period. */
  datatype Tentativa = Tentativa(ticker: string, periodo: string, janela: Intervalo)

  /** The recognised codes of `ps`, in order. */
  function Reconhecidos(ps: seq<string>): (r: seq<string>)
    ensures |r| <= |ps|
    ensures forall c :: c in r <==> c in ps && c in Codigos
    decreases |ps|
  {
    if |ps| == 0 then []
    else
      var n := |ps| - 1;
      assert forall c :: c in ps <==> c in ps[..n] || c == ps[n];
      Reconhecidos(ps[..n]) + (if ps[n] in Codigos then [ps[n]] else [])
  }

  /** Each recognised code is kept as many times as `ps` lists it, and every
      other code is dropped. */
  lemma {:induction false} ReconhecidosMultiplicidade(ps: seq<string>)
    ensures forall c :: multiset(Reconhecidos(ps))[c] == if c in Codigos then multiset(ps)[c] else 0
    decreases |ps|
  {
    if |ps| > 0 {
      var n := |ps| - 1;
      ReconhecidosMultiplicidade(ps[..n]);
      assert ps == ps[..n] + [ps[n]];
    }
  }

  /** The recognised codes of a concatenation are those of each part, in
      order, so the codes keep the order in which they were given. */
  lemma {:induction false} ReconhecidosConcatena(a: seq<string>, b: seq<string>)
    ensures Reconhecidos(a + b) == Reconhecidos(a) + Reconhecidos(b)
    decreases |b|
  {
    if |b| > 0 {
      var n := |b| - 1;
      var ab, cauda := a + b, if b[n] in Codigos then [b[n]] else [];
      assert ab[..|ab| - 1] == a + b[..n];
      calc {
        Reconhecidos(ab);
        Reconhecidos(a + b[..n]) + cauda;
        { ReconhecidosConcatena(a, b[..n]); }
        (Reconhecidos(a) + Reconhecidos(b[..n])) + cauda;
        Reconhecidos(a) + (Reconhecidos(b[..n]) + cauda);
      }
    } else {
      assert a + b == a;
    }
  }

  /** The attempts of the inner loop for one ticker: unknown codes skipped. */
  function DoTicker(t: string, ps: seq<string>, hoje: int): seq<Tentativa>
    requires hoje >= 1
    decreases |ps|
  {
    if |ps| == 0 then []
    else
      var n := |ps| - 1;
      var p := Periodo(ps[n], hoje);
      DoTicker(t, ps[..n], hoje) + (if p.Some? then [Tentativa(t, ps[n], p.value)] else [])
  }

  /** The attempts of the outer loop over `ativos`. */
  function Tentativas(ativos: seq<string>, ps: seq<string>, hoje: int): seq<Tentativa>
    requires hoje >= 1
    decreases |ativos|
  {
    if |ativos| == 0 then []
    else
      var m := |ativos| - 1;
      Tentativas(ativos[..m], ps, hoje) + DoTicker(ativos[m], ps, hoje)
  }

  /** One more period in the inner loop. */
  lemma DoTickerPasso(t: string, ps: seq<string>, j: int, hoje: int)
    requires hoje >= 1 && 0 <= j < |ps|
    ensures DoTicker(t, ps[..j + 1], hoje) == DoTicker(t, ps[..j], hoje)
      + (if Periodo(ps[j], hoje).Some? then [Tentativa(t, ps[j], Periodo(ps[j], hoje).value)] else [])
  {
    assert ps[..j + 1][..j] == ps[..j];
  }

  /** One more ticker in the outer loop. */
  lemma TentativasPasso(ativos: seq<string>, ps: seq<string>, i: int, hoje: int)
    requires hoje >= 1 && 0 <= i < |ativos|
    ensures Tentativas(ativos[..i + 1], ps, hoje) == Tentativas(ativos[..i], ps, hoje) + DoTicker(ativos[i], ps, hoje)
  {
    assert ativos[..i + 1][..i] == ativos[..i];
  }

  /** The loops of `coletar_historico_ativos`: for each ticker, for each
      period, skip an unknown code, otherwise attempt that ticker over that
      period's window. */
  method ColetarHistoricoAtivos(ativos: seq<string>, periodos: ArgPeriodos, hoje: int)
    returns (tentativas: seq<Tentativa>)
    requires hoje >= 1
    ensures tentativas == Tentativas(ativos, Normalizar(periodos), hoje)
  {
    var ps := Normalizar(periodos);
    tentativas := [];
    for i := 0 to |ativos|
      invariant tentativas == Tentativas(ativos[..i], ps, hoje)
    {
      for j := 0 to |ps|
        invariant tentativas == Tentativas(ativos[..i], ps, hoje) + DoTicker(ativos[i], ps[..j], hoje)
      {
        DoTickerPasso(ativos[i], ps, j, hoje);
        var janela := Periodo(ps[j], hoje);
        if janela.None? {
          continue;
        }
        tentativas := tentativas + [Tentativa(ativos[i], ps[j], janela.value)];
      }
      assert ps[..|ps|] == ps;
      TentativasPasso(ativos, ps, i, hoje);
    }
    assert ativos[..|ativos|] == ativos;
  }

  /** For one ticker, the attempts are its recognised periods in the order given. */
  lemma {:induction false} DoTickerReconhecidos(t: string, ps: seq<string>, hoje: int)
    requires hoje >= 1
    ensures |DoTicker(t, ps, hoje)| == |Reconhecidos(ps)|
    ensures forall j :: 0 <= j < |Reconhecidos(ps)| ==>
              DoTicker(t, ps, hoje)[j] == Tentativa(t, Reconhecidos(ps)[j], Periodo(Reconhecidos(ps)[j], hoje).value)
    decreases |ps|
  {
    if |ps| > 0 {
      DoTickerReconhecidos(t, ps[..|ps| - 1], hoje);
    }
  }

  /** `i * n + j`, counted out so that the order proof stays linear. */
  function Posicao(i: nat, j: nat, n: nat): nat {
    if i == 0 then j else n + Posicao(i - 1, j, n)
  }

  lemma {:induction false} PosicaoProduto(i: nat, j: nat, n: nat)
    ensures Posicao(i, j, n) == i * n + j
  {
    if i > 0 {
      PosicaoProduto(i - 1, j, n);
    }
  }

  /** Positions of earlier tickers come before the first position of ticker `m`. */
  lemma {:induction false} PosicaoAntes(i: nat, j: nat, m: nat, n: nat)
    requires i < m && j < n
    ensures Posicao(i, j, n) < Posicao(m, 0, n)
  {
    PosicaoProduto(i, j, n);
    PosicaoProduto(m, 0, n);
    assert i * n + n <= m * n by {
      MultiplicacaoCresce(i + 1, m, n);
    }
  }

  lemma MultiplicacaoCresce(a: nat, b: nat, n: nat)
    requires a <= b
    ensures a * n <= b * n
  {
  }

  /** Attempt `Posicao(i, j, n)` is ticker `i` over the `j`-th of the `n`
      recognised periods `rs`, and there are no others. */
  predicate EmOrdem(ts: seq<Tentativa>, ativos: seq<string>, rs: seq<string>, hoje: int)
    requires hoje >= 1
  {
    && (forall j :: 0 <= j < |rs| ==> rs[j] in Codigos)
    && |ts| == Posicao(|ativos|, 0, |rs|)
    && forall i, j :: 0 <= i < |ativos| && 0 <= j < |rs| ==>
         && Posicao(i, j, |rs|) < |ts|
         && ts[Posicao(i, j, |rs|)] == Tentativa(ativos[i], rs[j], Periodo(rs[j], hoje).value)
  }

  /** Appending one ticker's attempts to attempts in order keeps them in order. */
  lemma EmOrdemPasso(prefixo: seq<Tentativa>, ultimo: seq<Tentativa>, anteriores: seq<string>,
                     a: string, rs: seq<string>, hoje: int)
    requires hoje >= 1
    requires EmOrdem(prefixo, anteriores, rs, hoje)
    requires |ultimo| == |rs|
    requires forall j :: 0 <= j < |rs| ==> ultimo[j] == Tentativa(a, rs[j], Periodo(rs[j], hoje).value)
    ensures EmOrdem(prefixo + ultimo, anteriores + [a], rs, hoje)
  {
    var n, m := |rs|, |anteriores|;
    var ts, ativos := prefixo + ultimo, anteriores + [a];
    forall i, j | 0 <= i < |ativos| && 0 <= j < n
      ensures && Posicao(i, j, n) < |ts|
              && ts[Posicao(i, j, n)] == Tentativa(ativos[i], rs[j], Periodo(rs[j], hoje).value)
    {
      if i < m {
        PosicaoAntes(i, j, m, n);
        assert ts[Posicao(i, j, n)] == prefixo[Posicao(i, j, n)];
      } else {
        PosicaoProduto(m, j, n);
        PosicaoProduto(m, 0, n);
        assert ts[Posicao(m, j, n)] == ultimo[j];
      }
    }
  }

  /** Attempts run ticker-major, period-minor, over the recognised periods. */
  lemma {:induction false} EmOrdemTentativas(ativos: seq<string>, ps: seq<string>, hoje: int)
    requires hoje >= 1
    ensures EmOrdem(Tentativas(ativos, ps, hoje), ativos, Reconhecidos(ps), hoje)
    decreases |ativos|
  {
    var rs := Reconhecidos(ps);
    if |ativos| == 0 {
      forall j | 0 <= j < |rs| ensures rs[j] in Codigos {
        assert rs[j] in rs;
      }
    } else {
      var m := |ativos| - 1;
      EmOrdemTentativas(ativos[..m], ps, hoje);
      DoTickerReconhecidos(ativos[m], ps, hoje);
      EmOrdemPasso(Tentativas(ativos[..m], ps, hoje), DoTicker(ativos[m], ps, hoje), ativos[..m], ativos[m], rs, hoje);
      assert ativos[..m] + [ativos[m]] == ativos;
    }
  }

  /** The order of the attempts read at ticker `i` and period `j`, with
      positions counted out by `Posicao`, which keeps the arithmetic linear. */
  lemma OrdemNasPosicoes(ativos: seq<string>, ps: seq<string>, hoje: int, i: nat, j: nat)
    requires hoje >= 1
    requires i < |ativos| && j < |Reconhecidos(ps)|
    ensures |Tentativas(ativos, ps, hoje)| == Posicao(|ativos|, 0, |Reconhecidos(ps)|)
    ensures Posicao(i, j, |Reconhecidos(ps)|) < |Tentativas(ativos, ps, hoje)|
    ensures Reconhecidos(ps)[j] in Codigos
    ensures Tentativas(ativos, ps, hoje)[Posicao(i, j, |Reconhecidos(ps)|)]
              == Tentativa(ativos[i], Reconhecidos(ps)[j], Periodo(Reconhecidos(ps)[j], hoje).value)
  {
    EmOrdemTentativas(ativos, ps, hoje);
  }

  /** Attempts run ticker-major, period-minor: with `n` recognised periods,
      attempt `i * n + j` is ticker `i` over the `j`-th recognised period, and
      nothing else is attempted. */
  lemma OrdemDasTentativas(ativos: seq<string>, ps: seq<string>, hoje: int, i: nat, j: nat)
    requires hoje >= 1
    requires i < |ativos| && j < |Reconhecidos(ps)|
    ensures |Tentativas(ativos, ps, hoje)| == |ativos| * |Reconhecidos(ps)|
    ensures 0 <= i * |Reconhecidos(ps)| + j < |Tentativas(ativos, ps, hoje)|
    ensures Reconhecidos(ps)[j] in Codigos
    ensures Tentativas(ativos, ps, hoje)[i * |Reconhecidos(ps)| + j]
              == Tentativa(ativos[i], Reconhecidos(ps)[j], Periodo(Reconhecidos(ps)[j], hoje).value)
  {
    OrdemNasPosicoes(ativos, ps, hoje, i, j);
    PosicaoProduto(|ativos|, 0, |Reconhecidos(ps)|);
    PosicaoProduto(i, j, |Reconhecidos(ps)|);
  }


  // ---------------------------------------------------------------------------
  // Today's row
  // ---------------------------------------------------------------------------

  /** One row of the scraped table: Date, Open, High, Low, Close*, Adj Close**,
      Volume, as text. */
  datatype Linha = Linha(
    data: string, abertura: string, maximo: string, minimo: string,
    fechamento: string, fechamentoAjustado: string, volume: string)

  /** The fields of `scrape_stock` the fix-up reads (each `""` when missing). */
  datatype Resumo = Resumo(precoMercado: string, abertura: string, volume: string)

  predicate TemLinhaDe(df: seq<Linha>, hoje: string) {
    exists k :: 0 <= k < |df| && df[k].data == hoje
  }

  /** The row built from the quote page: every price column but Open is the
      current market price. */
  function LinhaDeHoje(hoje: string, s: Resumo): Linha {
    Linha(hoje, s.abertura, s.precoMercado, s.precoMercado, s.precoMercado, s.precoMercado, s.volume)
  }

  /** The fix-up in `scrape_historical_data`: when no row is dated `hoje`, one
      built from the quote page is put in front. */
  function GarantirHoje(df: seq<Linha>, hoje: string, s: Resumo): (r: seq<Linha>)
    ensures TemLinhaDe(r, hoje)
    ensures TemLinhaDe(df, hoje) ==> r == df
    ensures !TemLinhaDe(df, hoje) ==> |r| == |df| + 1 && r[0] == LinhaDeHoje(hoje, s) && r[1..] == df
  {
    if TemLinhaDe(df, hoje) then df
    else
      var r := [LinhaDeHoje(hoje, s)] + df;
      assert r[0].data == hoje;
      r
  }

  /** Applying the fix-up again, whatever the quote, changes nothing. */
  lemma GarantirHojeIdempotente(df: seq<Linha>, hoje: string, s1: Resumo, s2: Resumo)
    ensures GarantirHoje(GarantirHoje(df, hoje, s1), hoje, s2) == GarantirHoje(df, hoje, s1)
  {
  }
}
