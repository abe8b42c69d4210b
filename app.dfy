/** The dashboard's market clock and portfolio actions: whether the New York
    market is open, what a page run refreshes when that changes, the countdown
    to the next close or opening, and adding or removing an asset. Wall-clock
    reads become parameters: an instant is a New York day ordinal and the
    microsecond of that day. */
module App {
  import opened Records
  import opened Calendar
  import opened Selecao
  import opened Analytics
  import opened Store

  const MicrosPorSegundo := 1_000_000
  const MicrosPorDia := 86_400 * MicrosPorSegundo
  /** `dttime(9, 30)`. */
  const Abertura := (9 * 3600 + 30 * 60) * MicrosPorSegundo
  /** `dttime(16, 0)`. */
  const Fechamento := 16 * 3600 * MicrosPorSegundo

  /** A New York local time: day ordinal and microsecond of the day. */
  datatype Instante = Instante(dia: int, micro: int)

  predicate HoraValida(t: Instante) {
    0 <= t.micro < MicrosPorDia
  }

  /** `a` comes strictly before `b`. */
  predicate Antes(a: Instante, b: Instante) {
    a.dia < b.dia || (a.dia == b.dia && a.micro < b.micro)
  }

  // ---------------------------------------------------------------------------
  // Open or closed
  // ---------------------------------------------------------------------------

  /** `mercado_eua_aberto()`: closed on Saturday and Sunday; on weekdays open
      from 09:30 to 16:00, both ends included. */
  function MercadoEuaAberto(agora: Instante): bool {
    if DiaDaSemana(agora.dia) >= 5 then false
    else Abertura <= agora.micro <= Fechamento
  }

  /** Saturday and Sunday are closed all day. */
  lemma FimDeSemanaFechado(agora: Instante)
    requires DiaDaSemana(agora.dia) >= 5
    ensures !MercadoEuaAberto(agora)
  {
  }

  /** On a weekday both 09:30:00 and 16:00:00 are open, and the microsecond
      before the one and after the other are closed. */
  lemma HorarioDoPregao(dia: int)
    requires DiaDaSemana(dia) < 5
    ensures MercadoEuaAberto(Instante(dia, Abertura)) && MercadoEuaAberto(Instante(dia, Fechamento))
    ensures !MercadoEuaAberto(Instante(dia, Abertura - 1)) && !MercadoEuaAberto(Instante(dia, Fechamento + 1))
  {
  }

  // ---------------------------------------------------------------------------
  // Next opening
  // ---------------------------------------------------------------------------

  /** The first day the search looks at: today, or tomorrow once it is 16:00
      or later. */
  function PrimeiroDia(agora: Instante): int {
    if agora.micro >= Fechamento then agora.dia + 1 else agora.dia
  }

  /** The opening-time roll-forward of the closed branch: 09:30 of today,
      moved to tomorrow when it is 16:00 or later, then moved a day at a time
      past Saturday and Sunday. */
  method ProximaAbertura(agora: Instante) returns (prox: Instante)
    ensures prox.micro == Abertura
    ensures DiaDaSemana(prox.dia) < 5
    ensures PrimeiroDia(agora) <= prox.dia <= PrimeiroDia(agora) + 2
    ensures forall d :: PrimeiroDia(agora) <= d < prox.dia ==> DiaDaSemana(d) >= 5
  {
    prox := Instante(agora.dia, Abertura);
    if agora.micro >= Fechamento {
      prox := Instante(prox.dia + 1, Abertura);
    }
    while DiaDaSemana(prox.dia) >= 5
      invariant prox.micro == Abertura
      invariant PrimeiroDia(agora) <= prox.dia
      invariant prox.dia - PrimeiroDia(agora) <= if DiaDaSemana(prox.dia) >= 5 then DiaDaSemana(prox.dia) - 5 else 2
      invariant forall d :: PrimeiroDia(agora) <= d < prox.dia ==> DiaDaSemana(d) >= 5
      decreases if DiaDaSemana(prox.dia) >= 5 then 7 - DiaDaSemana(prox.dia) else 0
    {
      prox := Instante(prox.dia + 1, Abertura);
    }
  }

  /** What `ProximaAbertura` promises, as a relation. */
  ghost predicate ProximaAberturaDe(agora: Instante, prox: Instante) {
    && prox.micro == Abertura
    && DiaDaSemana(prox.dia) < 5
    && PrimeiroDia(agora) <= prox.dia
    && (forall d :: PrimeiroDia(agora) <= d < prox.dia ==> DiaDaSemana(d) >= 5)
  }

  /** While the market is closed, the next opening lies ahead and the market
      is open at that instant. */
  lemma AberturaAdiante(agora: Instante, prox: Instante)
    requires HoraValida(agora) && ProximaAberturaDe(agora, prox)
    requires !MercadoEuaAberto(agora)
    ensures Antes(agora, prox)
    ensures MercadoEuaAberto(prox)
  {
    if PrimeiroDia(agora) == agora.dia && prox.dia == agora.dia {
      assert DiaDaSemana(agora.dia) < 5;
      assert agora.micro < Abertura;
    }
  }

  /** The next opening is the first open instant after a closed one: the
      market stays closed at every instant in between. */
  lemma NenhumaAberturaAntes(agora: Instante, prox: Instante, x: Instante)
    requires HoraValida(agora) && HoraValida(x) && ProximaAberturaDe(agora, prox)
    requires !MercadoEuaAberto(agora)
    requires Antes(agora, x) && Antes(x, prox)
    ensures !MercadoEuaAberto(x)
  {
    if x.dia == prox.dia {
      assert x.micro < Abertura;
    } else if x.dia == agora.dia {
      if agora.micro >= Fechamento {
        assert x.micro > Fechamento;
      } else {
        assert PrimeiroDia(agora) <= x.dia < prox.dia;
      }
    } else {
      assert PrimeiroDia(agora) <= x.dia < prox.dia;
    }
  }

  // ---------------------------------------------------------------------------
  // Countdown
  // ---------------------------------------------------------------------------

  /** `int(td.total_seconds())`: whole seconds, truncated toward zero. */
  function SegundosInteiros(micros: int): (s: int)
    ensures micros >= 0 ==> 0 <= s * MicrosPorSegundo <= micros < (s + 1) * MicrosPorSegundo
    ensures micros < 0 ==> (s - 1) * MicrosPorSegundo < micros <= s * MicrosPorSegundo <= 0
  {
    if micros >= 0 then micros / MicrosPorSegundo else -((-micros) / MicrosPorSegundo)
  }

  /** `horas, resto = divmod(s, 3600); minutos, _ = divmod(resto, 60)`; Python's
      `divmod` floors, which for a positive divisor is Dafny's `/` and `%`. */
  function HorasMinutos(s: int): (r: (int, int))
    ensures 0 <= r.1 < 60
    ensures r.0 * 3600 + r.1 * 60 <= s < r.0 * 3600 + r.1 * 60 + 60
    ensures s >= 0 ==> r.0 >= 0
  {
    (s / 3600, (s % 3600) / 60)
  }

  /** The countdown text: `"-"`, or hours and minutes. */
  datatype Contagem = Traco | Restam(horas: int, minutos: int)

  /** The open branch: time left until 16:00 today, `"-"` when negative. */
  function ContagemFechamento(agora: Instante): Contagem {
    var restante := Fechamento - agora.micro;
    if restante < 0 then Traco
    else
      var hm := HorasMinutos(SegundosInteiros(restante));
      Restam(hm.0, hm.1)
  }

  /** While the market is open the countdown to the close is never `"-"` and
      is at most six and a half hours. */
  lemma ContagemFechamentoAberto(agora: Instante)
    requires MercadoEuaAberto(agora)
    ensures ContagemFechamento(agora).Restam?
    ensures var c := ContagemFechamento(agora);
      0 <= c.horas * 3600 + c.minutos * 60 <= 6 * 3600 + 30 * 60
  {
    var restante := Fechamento - agora.micro;
    var s := SegundosInteiros(restante);
    assert s * MicrosPorSegundo <= restante <= Fechamento - Abertura;
  }

  /** Past 16:00 the time left to the close is negative and shows as `"-"`. */
  lemma ContagemAposFechamento(agora: Instante)
    requires agora.micro > Fechamento
    ensures ContagemFechamento(agora) == Traco
  {
  }

  /** Microseconds from `a` to `b`. */
  function Distancia(a: Instante, b: Instante): int {
    (b.dia - a.dia) * MicrosPorDia + b.micro - a.micro
  }

  /** The closed branch: time left until the next opening. */
  function ContagemAbertura(agora: Instante, prox: Instante): Contagem {
    var hm := HorasMinutos(SegundosInteiros(Distancia(agora, prox)));
    Restam(hm.0, hm.1)
  }

  /** While the market is closed the countdown to the opening is a
      non-negative number of hours and minutes that rounds the true wait down
      to the minute. */
  lemma ContagemAberturaFechado(agora: Instante, prox: Instante)
    requires HoraValida(agora) && ProximaAberturaDe(agora, prox)
    requires !MercadoEuaAberto(agora)
    ensures var c := ContagemAbertura(agora, prox);
      && c.horas >= 0 && 0 <= c.minutos < 60
      && (c.horas * 3600 + c.minutos * 60) * MicrosPorSegundo <= Distancia(agora, prox)
      && Distancia(agora, prox) < (c.horas * 3600 + c.minutos * 60 + 60) * MicrosPorSegundo
  {
    AberturaAdiante(agora, prox);
    assert Distancia(agora, prox) > 0;
  }

  // ---------------------------------------------------------------------------
  // Refresh on a change of market state
  // ---------------------------------------------------------------------------

  /** What one page run triggers. */
  datatype Decisao = Decisao(atualizarCache: bool, atualizarHistoricos: bool)

  /** The transition block: nothing on the first run, a cache refresh when the
      stored state differs, and additionally a history refresh when the market
      has just closed. */
  function Transicao(anterior: Option<bool>, aberto: bool): Decisao {
    if anterior.None? then Decisao(false, false)
    else if anterior.value != aberto then Decisao(true, anterior.value && !aberto)
    else Decisao(false, false)
  }

  /** The decisions of consecutive runs observing `obs`, each run storing what
      it observed; also the state stored at the end. */
  function Rodadas(anterior: Option<bool>, obs: seq<bool>): (r: (Option<bool>, seq<Decisao>))
    ensures |r.1| == |obs|
    decreases |obs|
  {
    if |obs| == 0 then (anterior, [])
    else
      var resto := Rodadas(Some(obs[0]), obs[1..]);
      (resto.0, [Transicao(anterior, obs[0])] + resto.1)
  }

  /** A run that follows one which saw `previa` and itself sees `atual`
      refreshes the cache exactly on a change, and the histories exactly when
      the market has gone from open to closed. */
  predicate Reage(d: Decisao, previa: bool, atual: bool) {
    && (d.atualizarCache <==> previa != atual)
    && (d.atualizarHistoricos <==> previa && !atual)
  }

  /** The reactions of the runs after the first, shifted by one run. */
  lemma ReacoesDeslocadas(ds: seq<Decisao>, resto: seq<Decisao>, obs: seq<bool>)
    requires |obs| > 1 && |ds| == |obs| && ds[1..] == resto
    requires Reage(resto[0], obs[0], obs[1])
    requires forall i :: 1 <= i < |obs| - 1 ==> Reage(resto[i], obs[1..][i - 1], obs[1..][i])
    ensures forall i :: 1 <= i < |obs| ==> Reage(ds[i], obs[i - 1], obs[i])
  {
    forall i | 1 <= i < |obs| ensures Reage(ds[i], obs[i - 1], obs[i]) {
      assert ds[i] == resto[i - 1];
      if i > 1 {
        assert obs[1..][i - 2] == obs[i - 1] && obs[1..][i - 1] == obs[i];
      }
    }
  }

  /** Over runs that follow a run which saw `antes`: the stored state ends as
      the last observation and every run reacts to the observation before it. */
  lemma {:induction false} RodadasSeguintes(antes: bool, obs: seq<bool>)
    requires |obs| > 0
    ensures var r := Rodadas(Some(antes), obs);
      && r.0 == Some(obs[|obs| - 1])
      && Reage(r.1[0], antes, obs[0])
      && (forall i :: 1 <= i < |obs| ==> Reage(r.1[i], obs[i - 1], obs[i]))
    decreases |obs|
  {
    var r := Rodadas(Some(antes), obs);
    var resto := Rodadas(Some(obs[0]), obs[1..]);
    assert r.1 == [Transicao(Some(antes), obs[0])] + resto.1;
    if |obs| > 1 {
      RodadasSeguintes(obs[0], obs[1..]);
      ReacoesDeslocadas(r.1, resto.1, obs);
    }
  }

  /** The first run of a session only stores what it saw; every later run
      reacts to the observation before it. */
  lemma PrimeiraRodada(obs: seq<bool>)
    requires |obs| > 0
    ensures var r := Rodadas(None, obs);
      && r.0 == Some(obs[|obs| - 1])
      && r.1[0] == Decisao(false, false)
      && (forall i :: 1 <= i < |obs| ==> Reage(r.1[i], obs[i - 1], obs[i]))
  {
    var r := Rodadas(None, obs);
    var resto := Rodadas(Some(obs[0]), obs[1..]);
    assert r.1 == [Transicao(None, obs[0])] + resto.1;
    if |obs| > 1 {
      RodadasSeguintes(obs[0], obs[1..]);
      ReacoesDeslocadas(r.1, resto.1, obs);
    }
  }

  /** The tickers of every registered asset, in table order. */
  function Tickers(ats: seq<Ativo>): (ts: seq<string>)
    ensures |ts| == |ats|
    ensures forall i :: 0 <= i < |ats| ==> ts[i] == ats[i].ticker
  {
    seq(|ats|, i requires 0 <= i < |ats| => ats[i].ticker)
  }

  /** `st.session_state`, reduced to the stored market state. */
  class EstadoSessao {
    var mercadoAberto: Option<bool>

    /** A new session stores no state. */
    constructor ()
      ensures mercadoAberto.None?
    {
      mercadoAberto := None;
    }

    /** The transition block of one page run, given the market state `aberto`
        it observed: refreshes the cache on a change and returns the tickers
        whose histories are to be refreshed (none unless the market has just
        closed). */
    method ChecarMercado(aberto: bool, banco: Banco, hoje: int, carimbo: int)
      returns (d: Decisao, tickersAtualizar: seq<string>)
      requires banco.Valid()
      modifies this, banco
      ensures banco.Valid()
      ensures d == Transicao(old(mercadoAberto), aberto)
      ensures mercadoAberto == Some(aberto)
      ensures banco.ativos == old(banco.ativos) && banco.historicos == old(banco.historicos)
      ensures banco.precos == old(banco.precos)
      ensures d.atualizarCache ==> banco.cache == Destaques(banco.Universo(), hoje, carimbo)
      ensures !d.atualizarCache ==> banco.cache == old(banco.cache)
      ensures tickersAtualizar == if d.atualizarHistoricos then Tickers(banco.ativos) else []
    {
      d := Transicao(mercadoAberto, aberto);
      tickersAtualizar := [];
      if mercadoAberto.None? {
        mercadoAberto := Some(aberto);
      } else if mercadoAberto.value != aberto {
        banco.AtualizarAnalyticsCache(hoje, carimbo);
        if mercadoAberto.value && !aberto {
          tickersAtualizar := Tickers(banco.ativos);
        }
        mercadoAberto := Some(aberto);
      }
    }
  }

  // ---------------------------------------------------------------------------
  // Portfolio management
  // ---------------------------------------------------------------------------

  /** A quote as `buscar_preco_com_fallback` returns it. */
  datatype Cotacao = Cotacao(preco: Option<real>, variacao: Option<real>, variacaoPercentual: Option<real>)

  /** The outcome of the add-asset button. */
  datatype Adicao = TickerVazio | JaExiste | NaoEncontrado | Adicionado

  /** The add-asset checks, in the order the page makes them. */
  function Validacao(novo: string, tickers: seq<string>, preco: Option<real>): (r: Adicao)
    ensures r == Adicionado <==> novo != "" && novo !in tickers && preco.Some?
  {
    if novo == "" then TickerVazio
    else if novo in tickers then JaExiste
    else if preco.None? then NaoEncontrado
    else Adicionado
  }

  /** Once an asset has been added, adding it again is refused as a duplicate. */
  lemma SegundaAdicaoRecusada(ats: seq<Ativo>, novo: string, preco: Option<real>)
    requires novo != ""
    ensures Validacao(novo, Tickers(ComAtivo(ats, novo)), preco) == JaExiste
  {
    var r := ComAtivo(ats, novo);
    if TemTicker(ats, novo) {
      var i :| 0 <= i < |ats| && ats[i].ticker == novo;
      assert Tickers(r)[i] == novo;
    } else {
      assert Tickers(r)[|ats|] == novo;
    }
  }

  /** The add-asset button: after the checks pass on the quote `dados`, the
      asset is registered, the quote `salva` that the price thread fetches
      again is saved with the current time (whatever its price, `None`
      included), and the cache refreshed. */
  method AdicionarAtivo(banco: Banco, novo: string, dados: Cotacao, salva: Cotacao, hoje: int, agora: int)
    returns (r: Adicao)
    requires banco.Valid()
    modifies banco
    ensures banco.Valid()
    ensures r == Validacao(novo, Tickers(old(banco.ativos)), dados.preco)
    ensures r != Adicionado ==>
              && banco.ativos == old(banco.ativos) && banco.historicos == old(banco.historicos)
              && banco.precos == old(banco.precos) && banco.cache == old(banco.cache)
    ensures r == Adicionado ==>
              && banco.ativos == ComAtivo(old(banco.ativos), novo)
              && banco.historicos == old(banco.historicos)
              && AtivoDe(banco.ativos, novo).Some?
              && banco.precos == ComPreco(old(banco.precos),
                                          PrecoAtual(AtivoDe(banco.ativos, novo).value.id, salva.preco,
                                                     salva.variacao, salva.variacaoPercentual, agora))
              && banco.cache == Destaques(banco.Universo(), hoje, agora)
  {
    var tickers := Tickers(banco.ativos);
    if novo == "" {
      r := TickerVazio;
    } else if novo in tickers {
      r := JaExiste;
    } else if dados.preco.None? {
      r := NaoEncontrado;
    } else {
      ComAtivoRegistra(banco.ativos, novo);
      banco.InserirAtivo(novo);
      banco.SalvarPrecoAtual(novo, salva.preco, salva.variacao, salva.variacaoPercentual, None, agora);
      banco.AtualizarAnalyticsCache(hoje, agora);
      r := Adicionado;
    }
  }

  /** The remove-asset button: the cascade delete, then a cache refresh when
      an asset was removed. */
  method RemoverAtivo(banco: Banco, ticker: string, hoje: int, agora: int) returns (removido: bool)
    requires banco.Valid()
    modifies banco
    ensures banco.Valid()
    ensures removido <==> old(AtivoDe(banco.ativos, ticker)).Some?
    ensures !removido ==>
              && banco.ativos == old(banco.ativos) && banco.historicos == old(banco.historicos)
              && banco.precos == old(banco.precos) && banco.cache == old(banco.cache)
    ensures removido ==>
              var id := old(AtivoDe(banco.ativos, ticker)).value.id;
              && banco.ativos == SemAtivo(old(banco.ativos), id)
              && banco.historicos == SemHistoricos(old(banco.historicos), id)
              && banco.precos == SemPrecos(old(banco.precos), id)
              && banco.cache == Destaques(banco.Universo(), hoje, agora)
  {
    removido := banco.ExcluirAtivo(ticker);
    if removido {
      banco.AtualizarAnalyticsCache(hoje, agora);
    }
  }
}
