/** The price database as in-memory tables. Each table is a sequence in
    insertion (row id) order; every operation is one atomic transaction. */
module Store {
  import opened Records
  import opened Selecao
  import opened Analytics

  // ---------------------------------------------------------------------------
  // Filtering a table
  // ---------------------------------------------------------------------------

  /** The rows of `s` that satisfy `f`, in table order (`filter_by(...).all()`). */
  function Filtra<T(!new)>(s: seq<T>, f: T -> bool): (r: seq<T>)
    ensures |r| <= |s|
    ensures forall x :: x in r <==> x in s && f(x)
  {
    if |s| == 0 then [] else (if f(s[0]) then [s[0]] else []) + Filtra(s[1..], f)
  }

  /** Filtering keeps each kept element as many times as `s` holds it and
      drops every other element. */
  lemma {:induction false} FiltraMultiplicidade<T(!new)>(s: seq<T>, f: T -> bool)
    ensures forall x :: multiset(Filtra(s, f))[x] == if f(x) then multiset(s)[x] else 0
    decreases |s|
  {
    if |s| > 0 {
      FiltraMultiplicidade(s[1..], f);
      assert s == [s[0]] + s[1..];
    }
  }

  /** Filtering a concatenation filters each part and keeps them in order, so
      the kept rows stay in table order. */
  lemma {:induction false} FiltraConcatena<T(!new)>(a: seq<T>, b: seq<T>, f: T -> bool)
    ensures Filtra(a + b, f) == Filtra(a, f) + Filtra(b, f)
    decreases |a|
  {
    if |a| > 0 {
      FiltraConcatena(a[1..], b, f);
      var cabeca := if f(a[0]) then [a[0]] else [];
      assert (a + b)[0] == a[0] && (a + b)[1..] == a[1..] + b;
      assert Filtra(a + b, f) == cabeca + (Filtra(a[1..], f) + Filtra(b, f));
    } else {
      assert a + b == b;
    }
  }

  // ---------------------------------------------------------------------------
  // Table `ativos`
  // ---------------------------------------------------------------------------

  predicate TemTicker(s: seq<Ativo>, t: string) {
    exists i :: 0 <= i < |s| && s[i].ticker == t
  }

  predicate IdRegistrado(s: seq<Ativo>, id: nat) {
    exists i :: 0 <= i < |s| && s[i].id == id
  }

  /** `ticker` is declared unique. */
  predicate TickersUnicos(s: seq<Ativo>) {
    forall i, j :: 0 <= i < j < |s| ==> s[i].ticker != s[j].ticker
  }

  /** `id` is the primary key. */
  predicate IdsUnicos(s: seq<Ativo>) {
    forall i, j :: 0 <= i < j < |s| ==> s[i].id != s[j].id
  }

  /** `session.query(Ativo).filter_by(ticker=t).first()`. */
  function AtivoDe(s: seq<Ativo>, t: string): (r: Option<Ativo>)
    ensures r.Some? <==> TemTicker(s, t)
    ensures r.Some? ==> r.value in s && r.value.ticker == t
  {
    if |s| == 0 then None
    else if s[0].ticker == t then Some(s[0])
    else
      var r := AtivoDe(s[1..], t);
      assert TemTicker(s, t) ==> TemTicker(s[1..], t) by {
        if TemTicker(s, t) {
          var i :| 0 <= i < |s| && s[i].ticker == t;
          assert s[1..][i - 1] == s[i];
        }
      }
      assert TemTicker(s[1..], t) ==> TemTicker(s, t) by {
        if TemTicker(s[1..], t) {
          var i :| 0 <= i < |s[1..]| && s[1..][i].ticker == t;
          assert s[i + 1] == s[1..][i];
        }
      }
      r
  }

  /** With unique tickers, the row found for a ticker is the only row holding it. */
  lemma AtivoDeUnico(s: seq<Ativo>, i: int)
    requires TickersUnicos(s) && 0 <= i < |s|
    ensures AtivoDe(s, s[i].ticker) == Some(s[i])
  {
    if i > 0 && s[0].ticker != s[i].ticker {
      assert s[1..][i - 1] == s[i];
      AtivoDeUnico(s[1..], i - 1);
    }
  }

  function MaiorIdAtivo(s: seq<Ativo>): (m: nat)
    ensures forall i :: 0 <= i < |s| ==> s[i].id <= m
  {
    if |s| == 0 then 0
    else
      var m := MaiorIdAtivo(s[1..]);
      assert forall i :: 1 <= i < |s| ==> s[i] == s[1..][i - 1];
      if s[0].id > m then s[0].id else m
  }

  /** The table after `inserir_ativo(t)`: unchanged when the ticker is present,
      otherwise one new row whose id is one above the largest (the row id a
      table without AUTOINCREMENT assigns). */
  function ComAtivo(s: seq<Ativo>, t: string): seq<Ativo> {
    if TemTicker(s, t) then s else s + [Ativo(MaiorIdAtivo(s) + 1, t, None)]
  }

  /** Inserting an asset keeps every existing row where it was, keeps tickers and
      ids unique, and afterwards the ticker is registered. */
  lemma ComAtivoRegistra(s: seq<Ativo>, t: string)
    requires TickersUnicos(s) && IdsUnicos(s)
    ensures TickersUnicos(ComAtivo(s, t)) && IdsUnicos(ComAtivo(s, t))
    ensures TemTicker(ComAtivo(s, t), t)
    ensures |ComAtivo(s, t)| == if TemTicker(s, t) then |s| else |s| + 1
    ensures forall i :: 0 <= i < |s| ==> ComAtivo(s, t)[i] == s[i]
  {
    if !TemTicker(s, t) {
      var r := ComAtivo(s, t);
      assert r[|s|].ticker == t;
    }
  }

  /** `inserir_ativo` is idempotent. */
  lemma ComAtivoIdempotente(s: seq<Ativo>, t: string)
    ensures ComAtivo(ComAtivo(s, t), t) == ComAtivo(s, t)
  {
    if !TemTicker(s, t) {
      assert ComAtivo(s, t)[|s|].ticker == t;
    }
  }

  // ---------------------------------------------------------------------------
  // Table `historicos`
  // ---------------------------------------------------------------------------

  /** The five price columns of one daily bar. */
  datatype Barra = Barra(
    precoAbertura: Option<real>,
    precoFechamento: Option<real>,
    maximo: Option<real>,
    minimo: Option<real>,
    volume: Option<real>)

  predicate TemHistorico(hs: seq<Historico>, ativoId: nat, data: int) {
    exists k :: 0 <= k < |hs| && hs[k].ativoId == ativoId && hs[k].data == data
  }

  /** No two rows for the same (asset, date). */
  predicate ChavesUnicas(hs: seq<Historico>) {
    forall i, j :: 0 <= i < j < |hs| ==> hs[i].ativoId != hs[j].ativoId || hs[i].data != hs[j].data
  }

  predicate IdsHistoricoUnicos(hs: seq<Historico>) {
    forall i, j :: 0 <= i < j < |hs| ==> hs[i].id != hs[j].id
  }

  function MaiorIdHistorico(hs: seq<Historico>): (m: nat)
    ensures forall k :: 0 <= k < |hs| ==> hs[k].id <= m
  {
    if |hs| == 0 then 0
    else
      var m := MaiorIdHistorico(hs[1..]);
      assert forall k :: 1 <= k < |hs| ==> hs[k] == hs[1..][k - 1];
      if hs[0].id > m then hs[0].id else m
  }

  function Linha(id: nat, ativoId: nat, data: int, b: Barra): Historico {
    Historico(id, ativoId, data, b.precoAbertura, b.precoFechamento, b.maximo, b.minimo, b.volume)
  }

  /** The table after inserting bar `b` for (asset, date): nothing happens when
      a row with that key exists. */
  function ComHistorico(hs: seq<Historico>, ativoId: nat, data: int, b: Barra): seq<Historico> {
    if TemHistorico(hs, ativoId, data) then hs
    else hs + [Linha(MaiorIdHistorico(hs) + 1, ativoId, data, b)]
  }

  /** Inserting a bar keeps every existing row where it was, keeps (asset, date)
      keys and ids unique, and afterwards the key is present. */
  lemma ComHistoricoMantemChaves(hs: seq<Historico>, ativoId: nat, data: int, b: Barra)
    requires ChavesUnicas(hs) && IdsHistoricoUnicos(hs)
    ensures ChavesUnicas(ComHistorico(hs, ativoId, data, b))
    ensures IdsHistoricoUnicos(ComHistorico(hs, ativoId, data, b))
    ensures TemHistorico(ComHistorico(hs, ativoId, data, b), ativoId, data)
    ensures |ComHistorico(hs, ativoId, data, b)| == if TemHistorico(hs, ativoId, data) then |hs| else |hs| + 1
    ensures forall k :: 0 <= k < |hs| ==> ComHistorico(hs, ativoId, data, b)[k] == hs[k]
  {
    if !TemHistorico(hs, ativoId, data) {
      var r := ComHistorico(hs, ativoId, data, b);
      assert r[|hs|].ativoId == ativoId && r[|hs|].data == data;
    }
  }

  /** Inserting a bar for a registered asset keeps every history row registered. */
  lemma HistoricosRegistrados(ats: seq<Ativo>, hs: seq<Historico>, ativoId: nat, data: int, b: Barra)
    requires IdRegistrado(ats, ativoId)
    requires forall k :: 0 <= k < |hs| ==> IdRegistrado(ats, hs[k].ativoId)
    ensures forall k :: 0 <= k < |ComHistorico(hs, ativoId, data, b)| ==>
              IdRegistrado(ats, ComHistorico(hs, ativoId, data, b)[k].ativoId)
  {
  }

  /** The first write for a key wins: a second bar for the same (asset, date)
      changes nothing. */
  lemma PrimeiraEscritaVence(hs: seq<Historico>, ativoId: nat, data: int, b1: Barra, b2: Barra)
    ensures ComHistorico(ComHistorico(hs, ativoId, data, b1), ativoId, data, b2)
         == ComHistorico(hs, ativoId, data, b1)
  {
    if !TemHistorico(hs, ativoId, data) {
      var r := ComHistorico(hs, ativoId, data, b1);
      assert r[|hs|].ativoId == ativoId && r[|hs|].data == data;
    }
  }

  /** The rows of one asset. */
  function DoAtivo(hs: seq<Historico>, ativoId: nat): seq<Historico> {
    Filtra(hs, (h: Historico) => h.ativoId == ativoId)
  }

  /** `listar_historicos(ticker)` over tables `ats` and `hs`: no rows for an
      unknown ticker, otherwise exactly the rows of that asset. */
  function HistoricosDe(ats: seq<Ativo>, hs: seq<Historico>, ticker: string): (r: seq<Historico>)
    ensures AtivoDe(ats, ticker).None? ==> r == []
    ensures AtivoDe(ats, ticker).Some? ==>
              forall h :: h in r <==> h in hs && h.ativoId == AtivoDe(ats, ticker).value.id
    ensures AtivoDe(ats, ticker).Some? ==>
              forall h :: multiset(r)[h] == if h.ativoId == AtivoDe(ats, ticker).value.id then multiset(hs)[h] else 0
  {
    match AtivoDe(ats, ticker)
    case None => []
    case Some(a) =>
      FiltraMultiplicidade(hs, (h: Historico) => h.ativoId == a.id);
      DoAtivo(hs, a.id)
  }

  /** What the rankings read: every asset in table order (`listar_ativos()`),
      each with `listar_historicos(ativo.ticker)`. */
  function UniversoDe(ats: seq<Ativo>, hs: seq<Historico>): seq<Listagem> {
    seq(|ats|, i requires 0 <= i < |ats| => Listagem(ats[i].ticker, HistoricosDe(ats, hs, ats[i].ticker)))
  }

  // ---------------------------------------------------------------------------
  // Table `preco_atual`
  // ---------------------------------------------------------------------------

  /** At most one current-price row per asset. */
  predicate UmPrecoPorAtivo(ps: seq<PrecoAtual>) {
    forall i, j :: 0 <= i < j < |ps| ==> ps[i].ativoId != ps[j].ativoId
  }

  /** `filter_by(ativo_id=id).order_by(atualizado_em.desc()).first()`: the
      position of the asset's row with the latest timestamp, the earliest such
      row on a tie. */
  function PrecoMaisRecente(ps: seq<PrecoAtual>, ativoId: nat): (r: Option<nat>)
    ensures r.None? <==> forall k :: 0 <= k < |ps| ==> ps[k].ativoId != ativoId
    ensures r.Some? ==> r.value < |ps| && ps[r.value].ativoId == ativoId
    ensures r.Some? ==> forall k :: 0 <= k < |ps| && ps[k].ativoId == ativoId ==>
                          ps[k].atualizadoEm <= ps[r.value].atualizadoEm
    decreases |ps|
  {
    if |ps| == 0 then None
    else
      var n := |ps| - 1;
      var anterior := PrecoMaisRecente(ps[..n], ativoId);
      assert forall k :: 0 <= k < n ==> ps[k] == ps[..n][k];
      if ps[n].ativoId == ativoId && (anterior.None? || ps[anterior.value].atualizadoEm < ps[n].atualizadoEm)
      then Some(n)
      else anterior
  }

  /** The table after saving row `p`: the asset's latest row is overwritten in
      place (price, change, change percent and timestamp), or `p` is appended
      when the asset has none. */
  function ComPreco(ps: seq<PrecoAtual>, p: PrecoAtual): seq<PrecoAtual> {
    match PrecoMaisRecente(ps, p.ativoId)
    case None => ps + [p]
    case Some(k) => ps[k := p]
  }

  /** Saving then reading a price gives back the saved row; other assets' rows
      are untouched and at most one row per asset remains. */
  lemma SalvarDepoisConsultar(ps: seq<PrecoAtual>, p: PrecoAtual)
    requires UmPrecoPorAtivo(ps)
    ensures var r := ComPreco(ps, p);
      PrecoMaisRecente(r, p.ativoId).Some? && r[PrecoMaisRecente(r, p.ativoId).value] == p
  {
    ComPrecoPreserva(ps, p);
    var r := ComPreco(ps, p);
    var m := PrecoMaisRecente(ps, p.ativoId);
    if m.None? {
      assert r[|ps|] == p;
    } else {
      assert r[m.value] == p;
    }
  }

  /** Saving a price keeps at most one row per asset, leaves other assets'
      rows where they were, and adds no row but `p`. */
  lemma ComPrecoPreserva(ps: seq<PrecoAtual>, p: PrecoAtual)
    requires UmPrecoPorAtivo(ps)
    ensures var r := ComPreco(ps, p);
      && UmPrecoPorAtivo(r)
      && |r| >= |ps|
      && (forall k :: 0 <= k < |ps| && ps[k].ativoId != p.ativoId ==> r[k] == ps[k])
      && (forall k :: 0 <= k < |r| ==> r[k] == p || r[k] in ps)
  {
    var m := PrecoMaisRecente(ps, p.ativoId);
    if m.None? {
      assert ComPreco(ps, p)[|ps|] == p;
    }
  }

  /** Saving a price for a registered asset keeps every price row registered. */
  lemma PrecosRegistrados(ats: seq<Ativo>, ps: seq<PrecoAtual>, p: PrecoAtual)
    requires UmPrecoPorAtivo(ps) && IdRegistrado(ats, p.ativoId)
    requires forall k :: 0 <= k < |ps| ==> IdRegistrado(ats, ps[k].ativoId)
    ensures forall k :: 0 <= k < |ComPreco(ps, p)| ==> IdRegistrado(ats, ComPreco(ps, p)[k].ativoId)
  {
    ComPrecoPreserva(ps, p);
    var r := ComPreco(ps, p);
    forall k | 0 <= k < |r| ensures IdRegistrado(ats, r[k].ativoId) {
      if r[k] != p {
        var j :| 0 <= j < |ps| && ps[j] == r[k];
      }
    }
  }

  /** `if not atualizado_em: atualizado_em = datetime.datetime.now()`. */
  function Carimbo(atualizadoEm: Option<int>, agora: int): int {
    if atualizadoEm.Some? then atualizadoEm.value else agora
  }

  // ---------------------------------------------------------------------------
  // Table `analytics_cache`
  // ---------------------------------------------------------------------------

  const TipoMaiorRent12m := "maior_rent_12m"
  const TipoMenorRentMM3M := "menor_rent_mm3m"
  const TipoMaiorTend1m := "maior_tend_1m"

  function TipoDe(a: Analise): string {
    match a
    case MaiorRent12m => TipoMaiorRent12m
    case MenorRentMM3M => TipoMenorRentMM3M
    case MaiorTend1m => TipoMaiorTend1m
  }

  /** The row `AnalyticsCache(tipo=..., ticker=..., valor=..., atualizado_em=...)`. */
  function Registro(tipo: string, r: Ranking, agora: int): AnalyticsCache {
    AnalyticsCache(tipo, r.ticker, r.valor, agora)
  }

  /** The three rows a refresh writes, in the order it writes them. */
  function Destaques(u: seq<Listagem>, hoje: int, agora: int): seq<AnalyticsCache> {
    [Registro(TipoMaiorRent12m, Destaque(MaiorRent12m, u, hoje), agora),
     Registro(TipoMenorRentMM3M, Destaque(MenorRentMM3M, u, hoje), agora),
     Registro(TipoMaiorTend1m, Destaque(MaiorTend1m, u, hoje), agora)]
  }

  /** The three rows the refresh appends, one after the other, are the rows
      built from the three results. */
  lemma TresRegistros(r1: Ranking, r2: Ranking, r3: Ranking, agora: int)
    ensures [] + [AnalyticsCache(TipoMaiorRent12m, r1.ticker, r1.valor, agora)]
               + [AnalyticsCache(TipoMenorRentMM3M, r2.ticker, r2.valor, agora)]
               + [AnalyticsCache(TipoMaiorTend1m, r3.ticker, r3.valor, agora)]
            == [Registro(TipoMaiorRent12m, r1, agora), Registro(TipoMenorRentMM3M, r2, agora),
                Registro(TipoMaiorTend1m, r3, agora)]
  {
  }

  /** What a cache table says, without timestamps: tipo to (ticker, valor). */
  function Conteudo(c: seq<AnalyticsCache>): map<string, Ranking> {
    if |c| == 0 then map[]
    else Conteudo(c[..|c| - 1])[c[|c| - 1].tipo := Ranking(c[|c| - 1].ticker, c[|c| - 1].valor)]
  }

  /** After a refresh the cache holds exactly three rows, one per tipo, each
      holding the matching ranking's result. */
  lemma UmaEntradaPorTipo(u: seq<Listagem>, hoje: int, agora: int)
    ensures var c := Destaques(u, hoje, agora);
      && |c| == 3
      && (forall i, j :: 0 <= i < j < |c| ==> c[i].tipo != c[j].tipo)
      && (forall i :: 0 <= i < |c| ==> c[i].atualizadoEm == agora)
      && Conteudo(c).Keys == {TipoMaiorRent12m, TipoMenorRentMM3M, TipoMaiorTend1m}
      && (forall a: Analise :: Conteudo(c)[TipoDe(a)] == Destaque(a, u, hoje))
      && Conteudo(c) == map[TipoMaiorRent12m := Destaque(MaiorRent12m, u, hoje),
                            TipoMenorRentMM3M := Destaque(MenorRentMM3M, u, hoje),
                            TipoMaiorTend1m := Destaque(MaiorTend1m, u, hoje)]
  {
    var c := Destaques(u, hoje, agora);
    assert TipoMaiorRent12m[1] != TipoMenorRentMM3M[1];
    assert TipoMaiorRent12m[6] != TipoMaiorTend1m[6];
    assert TipoMenorRentMM3M[1] != TipoMaiorTend1m[1];
    assert c[..2][..1] == c[..1] && c[..3][..2] == c[..2] && c[..3] == c;
    assert c[..1][..0] == [];
    assert Conteudo(c[..1]) == map[TipoMaiorRent12m := Destaque(MaiorRent12m, u, hoje)];
    assert Conteudo(c[..2]) == Conteudo(c[..1])[TipoMenorRentMM3M := Destaque(MenorRentMM3M, u, hoje)];
    assert Conteudo(c) == Conteudo(c[..2])[TipoMaiorTend1m := Destaque(MaiorTend1m, u, hoje)];
  }

  /** Two refreshes over the same listing store the same tipo-to-result map;
      only the timestamps can differ. */
  lemma RefrescosConcordam(u: seq<Listagem>, hoje: int, agora1: int, agora2: int)
    ensures Conteudo(Destaques(u, hoje, agora1)) == Conteudo(Destaques(u, hoje, agora2))
  {
    UmaEntradaPorTipo(u, hoje, agora1);
    UmaEntradaPorTipo(u, hoje, agora2);
  }

  // ---------------------------------------------------------------------------
  // The database
  // ---------------------------------------------------------------------------

  class Banco {
    var ativos: seq<Ativo>
    var historicos: seq<Historico>
    var precos: seq<PrecoAtual>
    var cache: seq<AnalyticsCache>

    /** Keys are unique and every history and price row names a registered asset. */
    ghost predicate Valid()
      reads this
    {
      && TickersUnicos(ativos) && IdsUnicos(ativos)
      && ChavesUnicas(historicos) && IdsHistoricoUnicos(historicos)
      && UmPrecoPorAtivo(precos)
      && (forall k :: 0 <= k < |historicos| ==> IdRegistrado(ativos, historicos[k].ativoId))
      && (forall k :: 0 <= k < |precos| ==> IdRegistrado(ativos, precos[k].ativoId))
    }

    /** `criar_banco()`: empty tables. */
    constructor ()
      ensures Valid()
      ensures ativos == [] && historicos == [] && precos == [] && cache == []
    {
      ativos, historicos, precos, cache := [], [], [], [];
    }

    /** `inserir_ativo(ticker)`. */
    method InserirAtivo(ticker: string)
      requires Valid()
      modifies this
      ensures Valid()
      ensures ativos == ComAtivo(old(ativos), ticker)
      ensures historicos == old(historicos) && precos == old(precos) && cache == old(cache)
    {
      ComAtivoRegistra(ativos, ticker);
      if AtivoDe(ativos, ticker).None? {
        ativos := ativos + [Ativo(MaiorIdAtivo(ativos) + 1, ticker, None)];
      }
      RegistrosMantidos(old(ativos), ativos);
    }

    /** Every id registered in `s` stays registered in a table that keeps `s`'s rows. */
    static lemma RegistrosMantidos(s: seq<Ativo>, r: seq<Ativo>)
      requires |s| <= |r| && forall i :: 0 <= i < |s| ==> r[i] == s[i]
      ensures forall id :: IdRegistrado(s, id) ==> IdRegistrado(r, id)
    {
      forall id | IdRegistrado(s, id) ensures IdRegistrado(r, id) {
        var i :| 0 <= i < |s| && s[i].id == id;
        assert r[i].id == id;
      }
    }

    /** `inserir_historico(ticker, data, ...)`: registers a missing asset first,
        then adds the bar unless the asset already has a row for that date. */
    method InserirHistorico(ticker: string, data: int, precoAbertura: Option<real>,
                            precoFechamento: Option<real>, maximo: Option<real>,
                            minimo: Option<real>, volume: Option<real>)
      requires Valid()
      modifies this
      ensures Valid()
      ensures ativos == ComAtivo(old(ativos), ticker)
      ensures AtivoDe(ativos, ticker).Some?
      ensures historicos == ComHistorico(old(historicos), AtivoDe(ativos, ticker).value.id, data,
                                         Barra(precoAbertura, precoFechamento, maximo, minimo, volume))
      ensures precos == old(precos) && cache == old(cache)
    {
      ComAtivoRegistra(ativos, ticker);
      InserirAtivo(ticker);
      var ativo := AtivoDe(ativos, ticker).value;
      var b := Barra(precoAbertura, precoFechamento, maximo, minimo, volume);
      assert IdRegistrado(ativos, ativo.id);
      ComHistoricoMantemChaves(historicos, ativo.id, data, b);
      HistoricosRegistrados(ativos, historicos, ativo.id, data, b);
      ghost var anteriores := historicos;
      if !TemHistorico(historicos, ativo.id, data) {
        historicos := historicos + [Linha(MaiorIdHistorico(historicos) + 1, ativo.id, data, b)];
      }
      assert historicos == ComHistorico(anteriores, ativo.id, data, b);
    }

    /** `listar_historicos(ticker)`. */
    function ListarHistoricos(ticker: string): (r: seq<Historico>)
      reads this`ativos, this`historicos
      ensures AtivoDe(ativos, ticker).None? ==> r == []
      ensures AtivoDe(ativos, ticker).Some? ==>
                forall h :: h in r <==> h in historicos && h.ativoId == AtivoDe(ativos, ticker).value.id
      ensures AtivoDe(ativos, ticker).Some? ==>
                forall h :: multiset(r)[h] ==
                  if h.ativoId == AtivoDe(ativos, ticker).value.id then multiset(historicos)[h] else 0
    {
      HistoricosDe(ativos, historicos, ticker)
    }

    /** `listar_ativos()` paired with `listar_historicos`, as the rankings read them. */
    function Universo(): seq<Listagem>
      reads this`ativos, this`historicos
    {
      UniversoDe(ativos, historicos)
    }

    /** With unique tickers each listed instrument reads exactly its own rows. */
    lemma UniversoListaCadaAtivo(i: int)
      requires Valid() && 0 <= i < |ativos|
      ensures |Universo()| == |ativos|
      ensures Universo()[i].ticker == ativos[i].ticker
      ensures forall h :: h in Universo()[i].historicos <==> h in historicos && h.ativoId == ativos[i].id
      ensures forall h :: multiset(Universo()[i].historicos)[h] ==
                if h.ativoId == ativos[i].id then multiset(historicos)[h] else 0
    {
      AtivoDeUnico(ativos, i);
    }

    /** `salvar_preco_atual(...)`: nothing happens for an unknown ticker;
        otherwise the asset's latest row is overwritten or one is added, with
        the timestamp defaulting to `agora`. */
    method SalvarPrecoAtual(ticker: string, preco: Option<real>, variacao: Option<real>,
                            variacaoPercentual: Option<real>, atualizadoEm: Option<int>, agora: int)
      requires Valid()
      modifies this
      ensures Valid()
      ensures ativos == old(ativos) && historicos == old(historicos) && cache == old(cache)
      ensures AtivoDe(ativos, ticker).None? ==> precos == old(precos)
      ensures AtivoDe(ativos, ticker).Some? ==>
                precos == ComPreco(old(precos), PrecoAtual(AtivoDe(ativos, ticker).value.id, preco, variacao,
                                                            variacaoPercentual, Carimbo(atualizadoEm, agora)))
    {
      var ativo := AtivoDe(ativos, ticker);
      if ativo.None? {
        return;
      }
      var id := ativo.value.id;
      var precoObj := PrecoMaisRecente(precos, id);
      var carimbo := if atualizadoEm.Some? then atualizadoEm.value else agora;
      var p := PrecoAtual(id, preco, variacao, variacaoPercentual, carimbo);
      assert IdRegistrado(ativos, id);
      ComPrecoPreserva(precos, p);
      PrecosRegistrados(ativos, precos, p);
      if precoObj.Some? {
        precos := precos[precoObj.value := p];
      } else {
        precos := precos + [p];
      }
    }

    /** `consultar_preco_atual(ticker)`: None for an unknown ticker or an asset
        without a price, otherwise its row with the latest timestamp. */
    function ConsultarPrecoAtual(ticker: string): (r: Option<PrecoAtual>)
      reads this
      ensures AtivoDe(ativos, ticker).None? ==> r.None?
      ensures AtivoDe(ativos, ticker).Some? ==>
                (exists k :: 0 <= k < |precos| && precos[k].ativoId == AtivoDe(ativos, ticker).value.id) ==> r.Some?
      ensures r.Some? ==> r.value in precos && r.value.ativoId == AtivoDe(ativos, ticker).value.id
      ensures r.Some? ==> forall k :: 0 <= k < |precos| && precos[k].ativoId == r.value.ativoId ==>
                            precos[k].atualizadoEm <= r.value.atualizadoEm
    {
      match AtivoDe(ativos, ticker)
      case None => None
      case Some(a) =>
        match PrecoMaisRecente(precos, a.id)
        case None => None
        case Some(k) => Some(precos[k])
    }

    /** `atualizar_analytics_cache()`: every previous row is deleted and the
        three rankings over the current tables are written. */
    method AtualizarAnalyticsCache(hoje: int, agora: int)
      requires Valid()
      modifies this
      ensures Valid()
      ensures ativos == old(ativos) && historicos == old(historicos) && precos == old(precos)
      ensures cache == Destaques(Universo(), hoje, agora)
    {
      cache := [];
      var u := UniversoDe(ativos, historicos);
      var ativo1, rent1 := AtivoMaiorRentabilidade12m(u, hoje);
      var ativo2, rent2 := AtivoMenorRentabilidadeMM3M(u, hoje);
      var ativo3, tend3 := AtivoMaiorTendenciaCrescimento1m(u, hoje);
      cache := cache + [AnalyticsCache(TipoMaiorRent12m, ativo1, rent1, agora)];
      cache := cache + [AnalyticsCache(TipoMenorRentMM3M, ativo2, rent2, agora)];
      cache := cache + [AnalyticsCache(TipoMaiorTend1m, ativo3, tend3, agora)];
      TresRegistros(Ranking(ativo1, rent1), Ranking(ativo2, rent2), Ranking(ativo3, tend3), agora);
    }

    /** `consultar_analytics_cache()`: every row, and nothing changes. */
    method ConsultarAnalyticsCache() returns (dados: seq<AnalyticsCache>)
      ensures dados == cache
    {
      dados := cache;
    }

    /** The delete cascade of the remove-asset action: the asset's history rows,
        its price rows and the asset itself go; nothing happens for an unknown
        ticker. */
    method ExcluirAtivo(ticker: string) returns (removido: bool)
      requires Valid()
      modifies this
      ensures Valid()
      ensures removido <==> old(AtivoDe(ativos, ticker)).Some?
      ensures !removido ==> ativos == old(ativos) && historicos == old(historicos) && precos == old(precos)
      ensures removido ==>
                var id := old(AtivoDe(ativos, ticker)).value.id;
                && ativos == SemAtivo(old(ativos), id)
                && historicos == SemHistoricos(old(historicos), id)
                && precos == SemPrecos(old(precos), id)
      ensures cache == old(cache)
    {
      var ativoObj := AtivoDe(ativos, ticker);
      if ativoObj.None? {
        return false;
      }
      var id := ativoObj.value.id;
      CascataMantemReferencias(ativos, historicos, precos, id);
      historicos := SemHistoricos(historicos, id);
      precos := SemPrecos(precos, id);
      ativos := SemAtivo(ativos, id);
      removido := true;
    }
  }

  function SemAtivo(s: seq<Ativo>, id: nat): seq<Ativo> {
    Filtra(s, (a: Ativo) => a.id != id)
  }

  function SemHistoricos(hs: seq<Historico>, id: nat): seq<Historico> {
    Filtra(hs, (h: Historico) => h.ativoId != id)
  }

  function SemPrecos(ps: seq<PrecoAtual>, id: nat): seq<PrecoAtual> {
    Filtra(ps, (p: PrecoAtual) => p.ativoId != id)
  }

  /** Filtering keeps rows in table order, so pairwise properties survive. */
  lemma FiltraSubsequencia<T(!new)>(s: seq<T>, f: T -> bool, i: int, j: int) returns (i0: int, j0: int)
    requires 0 <= i < j < |Filtra(s, f)|
    ensures 0 <= i0 < j0 < |s|
    ensures s[i0] == Filtra(s, f)[i] && s[j0] == Filtra(s, f)[j]
  {
    var r := Filtra(s, f);
    if f(s[0]) {
      assert r == [s[0]] + Filtra(s[1..], f);
      if i == 0 {
        assert r[j] == Filtra(s[1..], f)[j - 1];
        assert r[j] in s[1..];
        var k :| 0 <= k < |s[1..]| && s[1..][k] == r[j];
        i0, j0 := 0, k + 1;
      } else {
        var a, b := FiltraSubsequencia(s[1..], f, i - 1, j - 1);
        i0, j0 := a + 1, b + 1;
      }
    } else {
      assert r == Filtra(s[1..], f);
      var a, b := FiltraSubsequencia(s[1..], f, i, j);
      i0, j0 := a + 1, b + 1;
    }
  }

  /** The cascade keeps the database valid: what remains only names assets
      that remain. */
  lemma CascataMantemReferencias(ats: seq<Ativo>, hs: seq<Historico>, ps: seq<PrecoAtual>, id: nat)
    requires TickersUnicos(ats) && IdsUnicos(ats)
    requires ChavesUnicas(hs) && IdsHistoricoUnicos(hs) && UmPrecoPorAtivo(ps)
    requires forall k :: 0 <= k < |hs| ==> IdRegistrado(ats, hs[k].ativoId)
    requires forall k :: 0 <= k < |ps| ==> IdRegistrado(ats, ps[k].ativoId)
    ensures var ats2, hs2, ps2 := SemAtivo(ats, id), SemHistoricos(hs, id), SemPrecos(ps, id);
      && TickersUnicos(ats2) && IdsUnicos(ats2)
      && ChavesUnicas(hs2) && IdsHistoricoUnicos(hs2) && UmPrecoPorAtivo(ps2)
      && (forall k :: 0 <= k < |hs2| ==> IdRegistrado(ats2, hs2[k].ativoId))
      && (forall k :: 0 <= k < |ps2| ==> IdRegistrado(ats2, ps2[k].ativoId))
  {
    var ats2, hs2, ps2 := SemAtivo(ats, id), SemHistoricos(hs, id), SemPrecos(ps, id);
    forall i, j | 0 <= i < j < |ats2| ensures ats2[i].ticker != ats2[j].ticker && ats2[i].id != ats2[j].id {
      var i0, j0 := FiltraSubsequencia(ats, (a: Ativo) => a.id != id, i, j);
    }
    forall i, j | 0 <= i < j < |hs2|
      ensures (hs2[i].ativoId != hs2[j].ativoId || hs2[i].data != hs2[j].data) && hs2[i].id != hs2[j].id
    {
      var i0, j0 := FiltraSubsequencia(hs, (h: Historico) => h.ativoId != id, i, j);
    }
    forall i, j | 0 <= i < j < |ps2| ensures ps2[i].ativoId != ps2[j].ativoId {
      var i0, j0 := FiltraSubsequencia(ps, (p: PrecoAtual) => p.ativoId != id, i, j);
    }
    forall k | 0 <= k < |hs2| ensures IdRegistrado(ats2, hs2[k].ativoId) {
      assert hs2[k] in hs2;
      var j :| 0 <= j < |hs| && hs[j] == hs2[k];
      Registrado(ats, id, hs2[k].ativoId);
    }
    forall k | 0 <= k < |ps2| ensures IdRegistrado(ats2, ps2[k].ativoId) {
      assert ps2[k] in ps2;
      var j :| 0 <= j < |ps| && ps[j] == ps2[k];
      Registrado(ats, id, ps2[k].ativoId);
    }
  }

  /** The cascade removes exactly the named asset: afterwards its ticker is
      unknown, its history lists as empty, and every other row stays. */
  lemma RemocaoCompleta(ats: seq<Ativo>, hs: seq<Historico>, ps: seq<PrecoAtual>, ticker: string)
    requires TickersUnicos(ats) && IdsUnicos(ats) && AtivoDe(ats, ticker).Some?
    ensures var id := AtivoDe(ats, ticker).value.id;
      && (forall a :: a in SemAtivo(ats, id) <==> a in ats && a.ticker != ticker)
      && !TemTicker(SemAtivo(ats, id), ticker)
      && HistoricosDe(SemAtivo(ats, id), SemHistoricos(hs, id), ticker) == []
      && (forall h :: h in SemHistoricos(hs, id) <==> h in hs && h.ativoId != id)
      && (forall p :: p in SemPrecos(ps, id) <==> p in ps && p.ativoId != id)
  {
    var alvo := AtivoDe(ats, ticker).value;
    var r := SemAtivo(ats, alvo.id);
    forall a | a in ats ensures a.id != alvo.id <==> a.ticker != ticker {
      var i :| 0 <= i < |ats| && ats[i] == a;
      var k :| 0 <= k < |ats| && ats[k] == alvo;
      AtivoDeUnico(ats, i);
    }
    forall i | 0 <= i < |r| ensures r[i].ticker != ticker {
      assert r[i] in r;
    }
  }

  lemma Registrado(ats: seq<Ativo>, id: nat, outro: nat)
    requires IdRegistrado(ats, outro) && outro != id
    ensures IdRegistrado(SemAtivo(ats, id), outro)
  {
    var i :| 0 <= i < |ats| && ats[i].id == outro;
    var r := SemAtivo(ats, id);
    assert ats[i] in r;
    var k :| 0 <= k < |r| && r[k] == ats[i];
  }
}
