# Financial dashboard core, modelled in Dafny

This project models the core of a small financial dashboard. The dashboard keeps a SQLite database of instruments, their daily price bars, their current quotes and a cache of three market-wide highlights. The model covers:

- **The ranking engine.** There are three highlights:
  - the best trailing-365-day return;
  - the worst return of the 3-point moving average over 90 days;
  - the steepest least-squares trend over 90 days, from at least ten points.

  Each ranking filters an instrument's rows to a window and sorts them by date. It then scores them and keeps a running best that only a strictly better score replaces.
- **The store.** Asset insert, history insert de-duplicated by (asset, date), history listing, current-price upsert and lookup, the replace-all analytics cache, and the delete cascade of the remove-asset action.
- **The dashboard clock.** The New York open/closed predicate, the session-state transition that triggers refreshes, the roll-forward to the next opening, and the countdown arithmetic.
- **Portfolio actions.** The add-asset checks and the remove-asset action.
- **The history collector.** The named-period window table, the normalisation of the `periodos` argument, the order of download attempts, and the fix-up that puts a row for today in a scraped table.

## Modules

- `records.dfy` (`Records`) holds the row types: `Ativo`, `Historico`, `PrecoAtual` and `AnalyticsCache`. It also defines `Option`, `Valor` and the per-instrument `Listagem`.
  - `Valor` is a score that can still be minus or plus infinity.
  - Dates are day ordinals, as Python's `date.toordinal()`.
  - Prices are reals.
- `calendar.dfy` (`Calendar`) holds the Gregorian calendar: the weekday, 1 January of a year, and the year of a day.
- `window.dfy` (`Janela`) holds the trailing window: the truthiness filter on the close and the stable sort by date.
- `regression.dfy` (`Regressao`) holds the ordinary least squares slope, from its definition over sums.
- `selection.dfy` (`Selecao`) holds the strict running best. It states the result declaratively (`Elege`) and proves that the left-to-right scan meets that statement.
- `analytics.dfy` (`Analytics`) holds the three scores and the three ranking loops. Each loop is a `method` proved equal to the declarative result `Destaque`.
- `store.dfy` (`Store`) holds the database as `class Banco`. Its four tables are sequence fields in row-id order, and every operation is one atomic transaction. The table logic lives in pure functions, and the lemmas are about those functions.
- `app.dfy` (`App`) holds the dashboard clock, the session state (`class EstadoSessao`) and the add and remove actions.
- `scraping.dfy` (`Scraping`) holds the collector's period table, its nested loops and the today's-row fix-up.

The source has two copies of the cache refresh and the cache query: one in `assets/database.py:147-181` and one in `assets/analytics_cache.py:6-24`. They differ only in docstrings, comments, imports and return-type annotations, so one model covers both.

## Model

| member | source | states |
|---|---|---|
| Janela.Qualificados | assets/analytics.py:26 | a row is in the window exactly when it is dated on or after the window start and its close is neither None nor 0.0, with no upper date bound |
| Janela.QualificadosMultiplicidade | assets/analytics.py:26 | the window holds each qualifying row as many times as the table does and no other row, so its length is the number of qualifying rows |
| Janela.OrdenarPorData | assets/analytics.py:29 | the rows come out sorted by date and are a permutation of the input |
| Janela.ExtremosDaOrdenacao | assets/analytics.py:29-31 | after sorting, the first row has the earliest date of the window and the last row the latest |
| Janela.JanelaOrdenada | assets/analytics.py:26-29 | the sorted window is sorted by date, has as many rows as the filter keeps, and every row qualifies |
| Janela.DaJanela | assets/analytics.py:26 | every row of the sorted window is one of the instrument's rows |
| Analytics.Rentabilidade12m | assets/analytics.py:22-33 | below two rows in the 365-day window there is no score; a score is (last − first) / first over the earliest and latest rows, with first > 0; with two rows or more, no score means the earliest close is negative |
| Analytics.MediaMovel3 | assets/analytics.py:56 | the 3-point rolling mean is empty below three values, has n − 2 points otherwise, and point j is the mean of values j, j+1 and j+2 |
| Analytics.ExtremosDaMediaMovel3 | assets/analytics.py:56-59 | the first and last points of the rolling mean are the means of the first and last three values |
| Analytics.RetornoMediaMovel3 | assets/analytics.py:52-59 | a return exists exactly when there are at least three closes and the first average is non-zero, and it equals the return between the sum of the last three and the sum of the first three closes |
| Analytics.RentabilidadeMM3M | assets/analytics.py:51-60 | the same statement over the closes of the 90-day window sorted by date, so two qualifying rows give an empty average and no score |
| Analytics.TresPontosRendemZero | assets/analytics.py:56-59 | with exactly three rows in the window, a moving-average return, when one exists, is 0 (three closes that add up to 0 give none) |
| Analytics.Pontos | assets/analytics.py:81-82 | one regression point per row: x is the days since today − 90 and y is the close |
| Analytics.Tendencia1m | assets/analytics.py:77-86 | a trend score exists exactly when the 90-day window holds at least ten rows |
| Analytics.PontosSobreReta | assets/analytics.py:81-82 | when every row of the window lies on close = a + b·x, so do the regression points |
| Analytics.NaJanelaOrdenada | assets/analytics.py:77-80 | every qualifying row appears in the sorted window |
| Analytics.TendenciaDeSerieLinear | assets/analytics.py:81-86 | for closes exactly on y = a + b·x over at least ten rows and two different days, the trend score is b |
| Regressao.DispersaoNaoNegativa | assets/analytics.py:85 | n·Σx² − (Σx)² is never negative |
| Regressao.DispersaoPositiva | assets/analytics.py:85 | n·Σx² − (Σx)² is positive once two x values differ |
| Regressao.CovariacaoSobreReta | assets/analytics.py:85-86 | for points on y = a + b·x the slope numerator is b times the denominator |
| Regressao.InclinacaoDeReta | assets/analytics.py:85-86 | for points on y = a + b·x with two different x values the least-squares slope is b |
| Selecao.Inicial | assets/analytics.py:23-24 | the start is no ticker and an infinite value that every finite score strictly beats |
| Selecao.LiderElege | assets/analytics.py:33-36 | the left-to-right scan with strict replacement returns the sentinel when nobody has a score, and otherwise the first candidate whose score nobody strictly beats |
| Selecao.ElegeUnico | assets/analytics.py:33-36 | the declarative result is unique, so any scan that meets it returns the same pair |
| Selecao.EmpateFicaComOPrimeiro | assets/analytics.py:34-36 | on a tie the winner is the candidate listed first |
| Analytics.Candidatos | assets/analytics.py:25-26 | every listed instrument is a candidate, in listing order, with its own score |
| Analytics.Destaque | assets/analytics.py:23-37 | the result of a ranking is the declarative result over the candidates |
| Analytics.AtivoMaiorRentabilidade12m | assets/analytics.py:14-37 | the loop returns the declarative 12-month ranking result |
| Analytics.AtivoMenorRentabilidadeMM3M | assets/analytics.py:39-63 | the loop returns the declarative moving-average ranking result, with `<` as the improvement |
| Analytics.AtivoMaiorTendenciaCrescimento1m | assets/analytics.py:65-90 | the loop returns the declarative trend ranking result |
| Analytics.SemVencedor | assets/analytics.py:23-37 | when no instrument has a score the result is (None, −∞) for the 12-month return and the trend, and (None, +∞) for the moving-average return |
| Analytics.VencedorListado | assets/analytics.py:25-37 | a returned ticker is a listed instrument that met its threshold, whose score nobody strictly beats, and which strictly beats every instrument listed before it |
| Store.Filtra | assets/database.py:85 | a filter keeps exactly the rows that satisfy the condition |
| Store.FiltraMultiplicidade | assets/database.py:85 | a filter keeps each matching row as many times as the table holds it and no other row |
| Store.FiltraConcatena | assets/database.py:85 | filtering two parts of a table one after the other gives the filter of the whole, so the kept rows stay in table order |
| Store.AtivoDe | assets/database.py:30 | the lookup by ticker finds a row exactly when the ticker is registered, and the row it finds holds that ticker |
| Store.AtivoDeUnico | assets/database.py:30 | with unique tickers the lookup of a row's ticker returns that row |
| Store.MaiorIdAtivo | assets/database.py:32-34 | the largest asset id bounds every id, so a new row gets a fresh id |
| Store.ComAtivoRegistra | assets/database.py:30-34 | inserting an asset keeps tickers and ids unique and every existing row in place; afterwards the ticker is registered; the table grows by one row exactly when the ticker was absent |
| Store.ComAtivoIdempotente | assets/database.py:30-34 | inserting the same asset twice equals inserting it once |
| Store.MaiorIdHistorico | assets/database.py:61-71 | the largest history id bounds every id, so a new row gets a fresh id |
| Store.ComHistoricoMantemChaves | assets/database.py:59-71 | inserting a bar never makes two rows for one (asset, date) and keeps every existing row in place; afterwards the key is present |
| Store.HistoricosRegistrados | assets/database.py:59-71 | inserting a bar for a registered asset keeps every history row pointing at a registered asset |
| Store.PrimeiraEscritaVence | assets/database.py:59-71 | a second bar for the same (asset, date) changes nothing, so the first write wins |
| Store.HistoricosDe | assets/database.py:81-87 | listing an unknown ticker gives no rows; otherwise it gives the rows of that asset, each as many times as the table holds it, and no other row |
| Store.PrecoMaisRecente | assets/database.py:100 | the query ordered by timestamp finds a row exactly when the asset has one, and no row of that asset has a later timestamp |
| Store.SalvarDepoisConsultar | assets/database.py:100-117 | after saving a price, the latest price row of the asset is exactly the saved row |
| Store.ComPrecoPreserva | assets/database.py:103-117 | saving a price keeps at most one row per asset and leaves other assets' rows in place; the only new content is the saved row |
| Store.PrecosRegistrados | assets/database.py:110-117 | saving a price for a registered asset keeps every price row pointing at a registered asset |
| Store.UmaEntradaPorTipo | assets/database.py:157-164 | after a refresh the cache holds exactly three rows with distinct tipos `maior_rent_12m`, `menor_rent_mm3m` and `maior_tend_1m`, each holding the matching ranking result, so the tipo-to-(ticker, valor) map is exactly those three entries |
| Store.RefrescosConcordam | assets/analytics_cache.py:6-18 | two refreshes over the same histories store the same tipo-to-(ticker, valor) map; only the timestamps can differ |
| Store.CascataMantemReferencias | streamlit_app.py:293-296 | after the cascade, keys stay unique and every remaining history and price row names a remaining asset |
| Store.RemocaoCompleta | streamlit_app.py:291-296 | the cascade removes exactly the asset with that ticker, its history rows and its price rows; afterwards the ticker is unknown and its history lists as empty |
| Store.Banco.constructor | assets/database.py:17-21 | a new database has four empty tables and is valid |
| Store.Banco.InserirAtivo | assets/database.py:23-35 | the asset table becomes the insert-if-absent table; the other tables are unchanged |
| Store.Banco.InserirHistorico | assets/database.py:48-72 | a missing asset is registered first, then the bar is inserted unless that asset already has a row for that date; prices and cache are unchanged |
| Store.Banco.ListarHistoricos | assets/database.py:74-87 | returns no rows for an unknown ticker; otherwise it returns the asset's rows in the current tables, each as many times as the table holds it, and no other row |
| Store.Banco.UniversoListaCadaAtivo | assets/database.py:81-87 | the rankings see every asset in table order, each with its own history rows, every row as many times as the table holds it, and no other row |
| Store.Banco.SalvarPrecoAtual | assets/database.py:90-120 | an unknown ticker changes nothing; otherwise the asset's latest price row is overwritten or one row is added, with the timestamp defaulting to now |
| Store.Banco.ConsultarPrecoAtual | assets/database.py:123-141 | None for an unknown ticker; a registered asset with a price row always gets a row back; a returned row belongs to the asset and has its latest timestamp |
| Store.Banco.AtualizarAnalyticsCache | assets/database.py:147-165 | no earlier cache row survives; the cache becomes the three ranking results over the current tables; the other tables are unchanged |
| Store.Banco.ConsultarAnalyticsCache | assets/analytics_cache.py:20-24 | returns every cache row and changes nothing |
| Store.Banco.ExcluirAtivo | streamlit_app.py:289-301 | an unknown ticker changes nothing; otherwise the asset's history rows, its price rows and the asset itself are deleted and the database stays valid |
| Calendar.PrimeiroDeJaneiro | assets/scrapping.py:26 | the ordinal of 1 January is a valid date |
| Calendar.AnoTem365ou366Dias | assets/scrapping.py:26 | consecutive years start 365 or 366 days apart |
| Calendar.DiaDaSemana | streamlit_app.py:52 | the weekday lies between 0 (Monday) and 6 (Sunday) |
| Calendar.Ano | assets/scrapping.py:26 | the year of a day is the year whose 1 January is on or before it and whose next 1 January is after it |
| Calendar.PrimeiroDeJaneiroCresce | assets/scrapping.py:26 | 1 January moves forward with the year |
| Calendar.AnoDoPrimeiroDeJaneiro | assets/scrapping.py:26 | 1 January of a year falls in that year |
| App.FimDeSemanaFechado | streamlit_app.py:52-54 | the market is closed whenever the weekday is Saturday or Sunday |
| App.HorarioDoPregao | streamlit_app.py:55-57 | on a weekday 09:30:00 and 16:00:00 are both open, and the microsecond before 09:30 and after 16:00 are closed |
| App.ProximaAbertura | streamlit_app.py:106-110 | the next opening is at 09:30 on a weekday; the search starts today, or tomorrow from 16:00 on, and skips only weekend days, at most two |
| App.AberturaAdiante | streamlit_app.py:106-111 | while the market is closed, the next opening lies ahead and the market is open at that instant |
| App.NenhumaAberturaAntes | streamlit_app.py:106-110 | the market is closed at every instant between a closed instant and the next opening |
| App.SegundosInteiros | streamlit_app.py:95 | the whole seconds of a duration truncate toward zero |
| App.HorasMinutos | streamlit_app.py:95-96 | for s seconds the hours h and minutes m satisfy 0 ≤ m < 60 and h·3600 + m·60 ≤ s < h·3600 + m·60 + 60 |
| App.ContagemFechamentoAberto | streamlit_app.py:89-97 | while the market is open the countdown to the close is never "-" and is at most 6 h 30 min |
| App.ContagemAposFechamento | streamlit_app.py:92-93 | a negative time to the close is shown as "-" |
| App.ContagemAberturaFechado | streamlit_app.py:111-114 | while the market is closed the countdown to the opening is non-negative and rounds the true wait down to the minute |
| App.RodadasSeguintes | streamlit_app.py:69-76 | after a run that stored a state, the cache refreshes exactly on a change and the histories exactly on open to closed; the stored state ends as the last observation |
| App.PrimeiraRodada | streamlit_app.py:67-68 | the first run of a session only stores what it saw and triggers nothing; later runs react to the run before |
| App.Tickers | streamlit_app.py:74 | the tickers of every registered asset, in table order |
| App.EstadoSessao.constructor | streamlit_app.py:61-62 | a new session stores no market state |
| App.EstadoSessao.ChecarMercado | streamlit_app.py:66-76 | the decision is the transition from the stored state; the cache is refreshed exactly on a change; the tickers to refresh are all registered tickers on open to closed and none otherwise; the stored state becomes the observed one |
| App.Validacao | streamlit_app.py:268-276 | an asset is accepted exactly when the ticker is non-empty, not yet listed, and its quote has a price |
| App.SegundaAdicaoRecusada | streamlit_app.py:270-271 | once an asset is registered, adding it again is refused as a duplicate |
| App.AdicionarAtivo | streamlit_app.py:267-282 | a refused asset changes nothing; an accepted one is registered, the quote from the price thread's second fetch (lines 170-182) is saved with the current time even when its price is `None`, and the cache is refreshed |
| App.RemoverAtivo | streamlit_app.py:288-301 | an unknown ticker changes nothing; otherwise the cascade runs and the cache is refreshed |
| Scraping.Periodo | assets/scrapping.py:21-29 | a window exists exactly for the seven known codes; every window ends today and starts no later; the fixed codes start their day count before today |
| Scraping.PeriodosFixos | assets/scrapping.py:22-28 | the fixed windows start 1, 5, 90, 180, 365 and 1825 days before today |
| Scraping.AnoCorrente | assets/scrapping.py:26 | the year-to-date window starts on 1 January of today's year, ends today, and spans less than a year |
| Scraping.Normalizar | assets/scrapping.py:184-187 | no argument becomes ['6M', '1Y'], a bare string a one-element list, and a list stays as given |
| Scraping.NormalizarIdempotente | assets/scrapping.py:184-187 | normalising a normalised argument changes nothing |
| Scraping.Reconhecidos | assets/scrapping.py:194-196 | the recognised codes are exactly the given codes found in the period table |
| Scraping.ReconhecidosMultiplicidade | assets/scrapping.py:194-196 | each recognised code is kept as many times as it was given, and every other code is dropped |
| Scraping.ReconhecidosConcatena | assets/scrapping.py:193-196 | the recognised codes of two lists given one after the other are those of the first list followed by those of the second, so codes keep the order given |
| Scraping.ColetarHistoricoAtivos | assets/scrapping.py:184-197 | the nested loops make exactly the attempts that `Scraping.Tentativas` defines: for each ticker, each recognised code in order, unknown codes skipped |
| Scraping.DoTickerReconhecidos | assets/scrapping.py:193-197 | for one ticker the attempts are its recognised periods, in the order given, each with its window |
| Scraping.EmOrdemTentativas | assets/scrapping.py:192-197 | the attempts run ticker-major, period-minor, over the recognised periods |
| Scraping.OrdemDasTentativas | assets/scrapping.py:192-197 | with n recognised periods there are (number of tickers)·n attempts, and attempt i·n + j is ticker i over the j-th recognised period |
| Scraping.GarantirHoje | assets/scrapping.py:156-168 | afterwards the table has a row dated today; an existing such row leaves the table unchanged; otherwise exactly one row from the quote page is put in front |
| Scraping.GarantirHojeIdempotente | assets/scrapping.py:157-168 | a second fix-up changes nothing, whatever the quote |

## Left out

- The clock is not modelled. `date.today()` and `datetime.now()` become parameters (`hoje` and `agora`), and New York wall time becomes an input `Instante`: a day ordinal and the microsecond of that day. Time zones and daylight saving (`pytz`) are not modelled.
- A cache refresh stamps its three rows with one timestamp `agora`; the source reads the clock once per row.
- The three rankings of one refresh share one reference day `hoje`; the source calls `date.today()` inside each ranking function, so a refresh that spans midnight could use two different days.
- The countdown reads the clock again, after the open/closed test. The model takes that second reading as the same instant, so the "-" case of the open branch is reachable only through `App.ContagemAposFechamento`.
- SQLAlchemy sessions, SQLite and commits are not modelled. Each store function is one atomic step on in-memory tables.
- A new row's id is one more than the largest id. SQLite assigns row ids without AUTOINCREMENT in the same way.
- The queries without `ORDER BY` (`listar_ativos`, `listar_historicos`) return rows in an order that SQLite does not specify. The model returns them in row-id order, which is what a plain table scan gives. The rankings do not depend on this order except through ties, where the earlier asset wins (`Selecao.EmpateFicaComOPrimeiro`).
- `ORDER BY atualizado_em DESC` leaves ties in an order that SQLite does not specify. The model picks the earliest row among the tied latest rows.
- Floating point is not modelled: no NaN, no rounding and no IEEE infinities in arithmetic. Prices are reals, and the infinite starting values are the `Valor` sentinels.
- pandas `rolling().mean()` and scikit-learn `LinearRegression` are modelled by their definitions. When every x is equal, the slope is modelled as 0, the minimum-norm solution. In the database this cannot happen, because (asset, date) keys are unique and ten rows span ten dates. The ranking model accepts any listing, so it keeps the case.
- `Analytics.Tendencia1m`: its own contract states only when a score exists. The value of the score is stated by `Analytics.TendenciaDeSerieLinear` for linear data, and otherwise by the definition of the slope.
- Network access is not modelled: the Selenium browser, the page fetch, HTML row extraction, `scrape_stock` and both price fetchers. Their results become inputs: the two quotes passed to `App.AdicionarAtivo` (the one validated and the one the price thread saves) and the `Resumo` passed to `Scraping.GarantirHoje`.
- The period collector's download and the CSV files it writes are not modelled. `Scraping.ColetarHistoricoAtivos` returns the list of attempts it makes.
- The dates in the today's-row fix-up are strings given as input, because the formatting by `strftime` is not modelled.
- The background threads are not modelled. The model runs each thread's effect in sequence, in the order the source starts them.
  - The add-asset action's price thread fetches the quote a second time (streamlit_app.py:175) and saves whatever comes back, a `None` price included. That second quote is a separate input of `App.AdicionarAtivo`, independent of the validated one.
  - Its analytics-refresh thread runs the cache refresh in the same step.
- The add action (streamlit_app.py:281) and the history refresh thread started on a market close (streamlit_app.py:32) call `coletar_e_salvar_historico_ativos`, which the collector does not define. The only collector method is `coletar_historico_ativos`. The history collection after adding an asset, and the history refresh after the market closes, are therefore not modelled. `App.EstadoSessao.ChecarMercado` returns the tickers it would pass.
- App.AdicionarAtivo: assumes the collector call at streamlit_app.py:281 returns. As written, that call raises AttributeError in the page script, so the cache-refresh thread at streamlit_app.py:282 and the success message are never reached. The model always refreshes the cache after an accepted add.
- The dashboard's list `tickers` is taken to be the tickers of the asset table.
- The dashboard rendering and the plotted analyses are not modelled.
- `to_float` and `to_float_local` are not modelled, because they are wrappers over float parsing.
- The console messages (`print`) of `salvar_preco_atual` and `consultar_preco_atual`, and the dashboard's `st.warning`, `st.error` and `st.success` messages, are not modelled. They change no table; the model returns the outcome instead (`App.Adicao`, the `removido` flag, `None`).
- `main.py` and `coleta_historico.py` are not modelled, because they are driver scripts.

When no instrument qualifies, a ranking returns `(None, -inf)`, or `(None, +inf)` for the moving-average return, and the model returns the same pair.
