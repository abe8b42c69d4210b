/** The ranking engine: three market-wide highlights computed from each
    instrument's daily closes, relative to a reference day `hoje`. Each ranking
    filters an instrument's rows to a trailing window, sorts them by date,
    scores them, and keeps a running best that only a strictly better score
    replaces. */
module Analytics {
  import opened Records
  import opened Janela
  import opened Regressao
  import opened Selecao

  const JanelaDozeMeses := 365
  const JanelaTresMeses := 90
  const MinimoPontosTendencia := 10

  // ---------------------------------------------------------------------------
  // Trailing-12-month simple return
  // ---------------------------------------------------------------------------

  /** One instrument's score in `ativo_maior_rentabilidade_12m`: the return
      from the earliest to the latest close of the last 365 days, or None when
      the instrument is skipped (fewer than two rows in the window, or a first
      close that is not positive). */
  function Rentabilidade12m(hs: seq<Historico>, hoje: int): (r: Option<real>)
    ensures var q := Qualificados(hs, hoje - JanelaDozeMeses);
      && (|q| < 2 ==> r.None?)
      && (r.Some? ==>
            exists ini, fim :: MaisAntigo(ini, q) && MaisRecente(fim, q)
              && Fechamento(ini) > 0.0
              && r.value == (Fechamento(fim) - Fechamento(ini)) / Fechamento(ini))
      && (r.None? && |q| >= 2 ==>
            exists ini :: MaisAntigo(ini, q) && Fechamento(ini) < 0.0)
  {
    var desde := hoje - JanelaDozeMeses;
    var s := JanelaOrdenada(hs, desde);
    if |s| < 2 then None
    else
      var ini := Fechamento(s[0]);
      var fim := Fechamento(s[|s| - 1]);
      ExtremosDaJanela(hs, desde);
      if ini > 0.0 then Some((fim - ini) / ini) else None
  }

  // ---------------------------------------------------------------------------
  // Trailing-quarter return of the 3-point moving average
  // ---------------------------------------------------------------------------

  /** `pd.Series(xs).rolling(window=3).mean().dropna()`. */
  function MediaMovel3(xs: seq<real>): (m: seq<real>)
    ensures |xs| < 3 ==> m == []
    ensures |xs| >= 3 ==> |m| == |xs| - 2
    ensures forall j :: 0 <= j < |m| ==> m[j] == (xs[j] + xs[j + 1] + xs[j + 2]) / 3.0
  {
    if |xs| < 3 then [] else [(xs[0] + xs[1] + xs[2]) / 3.0] + MediaMovel3(xs[1..])
  }

  /** Sum of the first three closes of the window. */
  function SomaInicial3(ys: seq<real>): real
    requires |ys| >= 3
  {
    ys[0] + ys[1] + ys[2]
  }

  /** Sum of the last three closes of the window. */
  function SomaFinal3(ys: seq<real>): real
    requires |ys| >= 3
  {
    ys[|ys| - 3] + ys[|ys| - 2] + ys[|ys| - 1]
  }

  /** The return between two averages of three is the return between the sums. */
  lemma RazaoDeMedias(fim: real, ini: real, a: real, b: real)
    requires b != 0.0 && fim == a / 3.0 && ini == b / 3.0
    ensures (fim - ini) / ini == (a - b) / b
  {
    var x := (a - b) / b;
    assert x * b == a - b;
    assert x * ini == fim - ini;
  }

  /** The first and the last point of the moving average are the averages of
      the first and of the last three values. */
  lemma ExtremosDaMediaMovel3(xs: seq<real>)
    requires |xs| >= 3
    ensures MediaMovel3(xs)[0] == SomaInicial3(xs) / 3.0
    ensures MediaMovel3(xs)[|xs| - 3] == SomaFinal3(xs) / 3.0
  {
  }

  /** The return of the moving average of the closes `ys`, sorted by date:
      None below two closes, when the average is empty, or when its first
      point is zero. */
  function RetornoMediaMovel3(ys: seq<real>): (r: Option<real>)
    ensures r.Some? <==> |ys| >= 3 && SomaInicial3(ys) != 0.0
    ensures r.Some? ==> r.value == (SomaFinal3(ys) - SomaInicial3(ys)) / SomaInicial3(ys)
  {
    if |ys| < 2 then None
    else
      var mm3 := MediaMovel3(ys);
      if |mm3| == 0 then None
      else
        var ini, fim := mm3[0], mm3[|mm3| - 1];
        ExtremosDaMediaMovel3(ys);
        if ini != 0.0 then
          RazaoDeMedias(fim, ini, SomaFinal3(ys), SomaInicial3(ys));
          Some((fim - ini) / ini)
        else None
  }

  /** One instrument's score in `ativo_menor_rentabilidade_mm3m`: the return of
      the 3-point moving average of the closes of the last 90 days. The average
      exists only from three rows of the window on; its return is the return
      between the sum of the first three and the sum of the last three closes;
      a zero first average skips the instrument. */
  function RentabilidadeMM3M(hs: seq<Historico>, hoje: int): (r: Option<real>)
    ensures var ys := Fechamentos(JanelaOrdenada(hs, hoje - JanelaTresMeses));
      && (r.Some? <==> |ys| >= 3 && SomaInicial3(ys) != 0.0)
      && (r.Some? ==> r.value == (SomaFinal3(ys) - SomaInicial3(ys)) / SomaInicial3(ys))
  {
    RetornoMediaMovel3(Fechamentos(JanelaOrdenada(hs, hoje - JanelaTresMeses)))
  }

  /** With exactly three rows in the window the moving average has one point,
      so its return, when one exists, is zero (three closes that add up to
      zero give none). */
  lemma TresPontosRendemZero(hs: seq<Historico>, hoje: int)
    requires |Qualificados(hs, hoje - JanelaTresMeses)| == 3
    requires RentabilidadeMM3M(hs, hoje).Some?
    ensures RentabilidadeMM3M(hs, hoje) == Some(0.0)
  {
    var ys := Fechamentos(JanelaOrdenada(hs, hoje - JanelaTresMeses));
    assert SomaFinal3(ys) == SomaInicial3(ys);
  }

  // ---------------------------------------------------------------------------
  // Slope of the closes over the last 90 days
  // ---------------------------------------------------------------------------

  /** Regression input: x = days since the window start, y = close. */
  function Pontos(s: seq<Historico>, desde: int): (p: seq<Ponto>)
    requires forall k :: 0 <= k < |s| ==> s[k].precoFechamento.Some?
    ensures |p| == |s|
    ensures forall k :: 0 <= k < |s| ==> p[k] == Ponto((s[k].data - desde) as real, Fechamento(s[k]))
  {
    seq(|s|, k requires 0 <= k < |s| => Ponto((s[k].data - desde) as real, Fechamento(s[k])))
  }

  /** One instrument's score in `ativo_maior_tendencia_crescimento_1m`: the
      least-squares slope of close against day offset over the 90-day window,
      when the window holds at least ten rows. */
  function Tendencia1m(hs: seq<Historico>, hoje: int): (r: Option<real>)
    ensures r.Some? <==> |Qualificados(hs, hoje - JanelaTresMeses)| >= MinimoPontosTendencia
  {
    var desde := hoje - JanelaTresMeses;
    var s := JanelaOrdenada(hs, desde);
    if |s| < MinimoPontosTendencia then None
    else Some(Inclinacao(Pontos(s, desde)))
  }

  /** Every row of the window lies on close = a + b·(day − window start). */
  predicate JanelaSobreReta(hs: seq<Historico>, desde: int, a: real, b: real) {
    forall h :: h in hs && Qualifica(h, desde) ==>
      NaReta(Ponto((h.data - desde) as real, Fechamento(h)), a, b)
  }

  /** The regression points of such a window lie on the line. */
  lemma PontosSobreReta(hs: seq<Historico>, desde: int, a: real, b: real)
    requires JanelaSobreReta(hs, desde, a, b)
    ensures SobreReta(Pontos(JanelaOrdenada(hs, desde), desde), a, b)
  {
    var s := JanelaOrdenada(hs, desde);
    var p := Pontos(s, desde);
    forall k | 0 <= k < |p| ensures NaReta(p[k], a, b) {
      DaJanela(hs, desde, k);
    }
  }

  /** Rows of the window are rows of the sorted window. */
  lemma NaJanelaOrdenada(hs: seq<Historico>, desde: int, h: Historico) returns (k: int)
    requires h in hs && Qualifica(h, desde)
    ensures 0 <= k < |JanelaOrdenada(hs, desde)| && JanelaOrdenada(hs, desde)[k] == h
  {
    var q := Qualificados(hs, desde);
    var s := JanelaOrdenada(hs, desde);
    assert s == OrdenarPorData(q);
    assert h in multiset(q);
    assert h in multiset(s);
    k :| 0 <= k < |s| && s[k] == h;
  }

  /** A window of at least ten rows spread over more than one day whose closes
      grow linearly by `b` a day has trend score exactly `b`. */
  lemma TendenciaDeSerieLinear(hs: seq<Historico>, hoje: int, a: real, b: real, h1: Historico, h2: Historico)
    requires |Qualificados(hs, hoje - JanelaTresMeses)| >= MinimoPontosTendencia
    requires JanelaSobreReta(hs, hoje - JanelaTresMeses, a, b)
    requires h1 in hs && h2 in hs && h1.data != h2.data
    requires Qualifica(h1, hoje - JanelaTresMeses) && Qualifica(h2, hoje - JanelaTresMeses)
    ensures Tendencia1m(hs, hoje) == Some(b)
  {
    var desde := hoje - JanelaTresMeses;
    var p := Pontos(JanelaOrdenada(hs, desde), desde);
    PontosSobreReta(hs, desde, a, b);
    var k1 := NaJanelaOrdenada(hs, desde, h1);
    var k2 := NaJanelaOrdenada(hs, desde, h2);
    InclinacaoDeReta(p, a, b, k1, k2);
  }

  // ---------------------------------------------------------------------------
  // The three rankings
  // ---------------------------------------------------------------------------

  /** The three highlights. */
  datatype Analise = MaiorRent12m | MenorRentMM3M | MaiorTend1m

  function CriterioDe(a: Analise): Criterio {
    if a == MenorRentMM3M then Menor else Maior
  }

  /** One instrument's score for highlight `a`. */
  function Nota(a: Analise, hs: seq<Historico>, hoje: int): Option<real> {
    match a
    case MaiorRent12m => Rentabilidade12m(hs, hoje)
    case MenorRentMM3M => RentabilidadeMM3M(hs, hoje)
    case MaiorTend1m => Tendencia1m(hs, hoje)
  }

  /** Every listed instrument, in listing order, with its score for `a`. */
  function Candidatos(a: Analise, u: seq<Listagem>, hoje: int): (cs: seq<Candidato>)
    ensures |cs| == |u|
    ensures forall i :: 0 <= i < |u| ==> cs[i] == Candidato(u[i].ticker, Nota(a, u[i].historicos, hoje))
  {
    seq(|u|, i requires 0 <= i < |u| => Candidato(u[i].ticker, Nota(a, u[i].historicos, hoje)))
  }

  /** The result of highlight `a` over the listing `u`, as a value: the first
      instrument whose score no other instrument strictly beats. */
  function Destaque(a: Analise, u: seq<Listagem>, hoje: int): (r: Ranking)
    ensures Elege(CriterioDe(a), Candidatos(a, u, hoje), r)
  {
    LiderElege(CriterioDe(a), Candidatos(a, u, hoje));
    Lider(CriterioDe(a), Candidatos(a, u, hoje))
  }

  /** One more step of the running best. */
  lemma LiderPasso(c: Criterio, cs: seq<Candidato>, i: int)
    requires 0 <= i < |cs|
    ensures Lider(c, cs[..i + 1]) ==
      var anterior := Lider(c, cs[..i]);
      if cs[i].nota.Some? && Supera(c, cs[i].nota.value, anterior.valor)
      then Ranking(Some(cs[i].ticker), Finite(cs[i].nota.value))
      else anterior
  {
    assert cs[..i + 1][..i] == cs[..i];
  }

  /** `ativo_maior_rentabilidade_12m`: the listing scanned in order. */
  method AtivoMaiorRentabilidade12m(universo: seq<Listagem>, hoje: int)
    returns (melhorAtivo: Option<string>, melhorRent: Valor)
    ensures Ranking(melhorAtivo, melhorRent) == Destaque(MaiorRent12m, universo, hoje)
  {
    ghost var cs := Candidatos(MaiorRent12m, universo, hoje);
    melhorAtivo, melhorRent := None, NegInf;
    var i := 0;
    while i < |universo|
      invariant 0 <= i <= |universo|
      invariant Ranking(melhorAtivo, melhorRent) == Lider(Maior, cs[..i])
    {
      LiderPasso(Maior, cs, i);
      var rent := Rentabilidade12m(universo[i].historicos, hoje);
      if rent.Some? && Supera(Maior, rent.value, melhorRent) {
        melhorRent := Finite(rent.value);
        melhorAtivo := Some(universo[i].ticker);
      }
      i := i + 1;
    }
    assert cs[..i] == cs;
  }

  /** `ativo_menor_rentabilidade_mm3m`: the listing scanned in order. */
  method AtivoMenorRentabilidadeMM3M(universo: seq<Listagem>, hoje: int)
    returns (piorAtivo: Option<string>, piorRent: Valor)
    ensures Ranking(piorAtivo, piorRent) == Destaque(MenorRentMM3M, universo, hoje)
  {
    ghost var cs := Candidatos(MenorRentMM3M, universo, hoje);
    piorAtivo, piorRent := None, PosInf;
    var i := 0;
    while i < |universo|
      invariant 0 <= i <= |universo|
      invariant Ranking(piorAtivo, piorRent) == Lider(Menor, cs[..i])
    {
      LiderPasso(Menor, cs, i);
      var rent := RentabilidadeMM3M(universo[i].historicos, hoje);
      if rent.Some? && Supera(Menor, rent.value, piorRent) {
        piorRent := Finite(rent.value);
        piorAtivo := Some(universo[i].ticker);
      }
      i := i + 1;
    }
    assert cs[..i] == cs;
  }

  /** `ativo_maior_tendencia_crescimento_1m`: the listing scanned in order. */
  method AtivoMaiorTendenciaCrescimento1m(universo: seq<Listagem>, hoje: int)
    returns (melhorAtivo: Option<string>, maiorTend: Valor)
    ensures Ranking(melhorAtivo, maiorTend) == Destaque(MaiorTend1m, universo, hoje)
  {
    ghost var cs := Candidatos(MaiorTend1m, universo, hoje);
    melhorAtivo, maiorTend := None, NegInf;
    var i := 0;
    while i < |universo|
      invariant 0 <= i <= |universo|
      invariant Ranking(melhorAtivo, maiorTend) == Lider(Maior, cs[..i])
    {
      LiderPasso(Maior, cs, i);
      var tendencia := Tendencia1m(universo[i].historicos, hoje);
      if tendencia.Some? && Supera(Maior, tendencia.value, maiorTend) {
        maiorTend := Finite(tendencia.value);
        melhorAtivo := Some(universo[i].ticker);
      }
      i := i + 1;
    }
    assert cs[..i] == cs;
  }

  // ---------------------------------------------------------------------------
  // What a ranking promises about the listing
  // ---------------------------------------------------------------------------

  /** When no listed instrument meets its threshold, the ranking is the
      sentinel pair: `(None, -inf)` for the 12-month return and the trend,
      `(None, +inf)` for the moving-average return. */
  lemma SemVencedor(a: Analise, u: seq<Listagem>, hoje: int)
    requires forall i :: 0 <= i < |u| ==> Nota(a, u[i].historicos, hoje).None?
    ensures Destaque(a, u, hoje) == Inicial(CriterioDe(a))
    ensures Destaque(a, u, hoje).ticker.None?
  {
    var cs := Candidatos(a, u, hoje);
    assert SemCandidatos(cs);
  }

  /** A returned ticker is that of a listed instrument which met its threshold
      and whose score is the returned one, which no listed instrument strictly
      beats and which strictly beats every instrument listed before it. */
  lemma VencedorListado(a: Analise, u: seq<Listagem>, hoje: int)
    requires Destaque(a, u, hoje).ticker.Some?
    ensures exists i :: (0 <= i < |u| && Vencedor(CriterioDe(a), Candidatos(a, u, hoje), i)
                         && Destaque(a, u, hoje).ticker == Some(u[i].ticker))
  {
    var c := CriterioDe(a);
    var cs := Candidatos(a, u, hoje);
    assert !SemCandidatos(cs);
    var i :| Vencedor(c, cs, i) && Destaque(a, u, hoje) == Eleito(cs, i);
    assert cs[i].ticker == u[i].ticker;
  }
}
