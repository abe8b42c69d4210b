/** One instrument's rows restricted to a trailing window and sorted by date,
    as every ranking of the engine prepares them. */
module Janela {
  import opened Records

  /** `h.preco_fechamento` used as a Python truth test: neither None nor 0.0. */
  predicate FechamentoVerdadeiro(c: Option<real>) {
    c.Some? && c.value != 0.0
  }

  /** A row takes part in a window starting at `desde` (no upper bound). */
  predicate Qualifica(h: Historico, desde: int) {
    h.data >= desde && FechamentoVerdadeiro(h.precoFechamento)
  }

  function Fechamento(h: Historico): real
    requires h.precoFechamento.Some?
  {
    h.precoFechamento.value
  }

  /** The list comprehension that keeps the rows of the window, in storage order. */
  function Qualificados(hs: seq<Historico>, desde: int): (q: seq<Historico>)
    ensures |q| <= |hs|
    ensures forall h :: h in q <==> h in hs && Qualifica(h, desde)
  {
    if |hs| == 0 then []
    else
      var resto := Qualificados(hs[1..], desde);
      assert forall h :: h in hs <==> h == hs[0] || h in hs[1..];
      if Qualifica(hs[0], desde) then [hs[0]] + resto else resto
  }

  /** The window keeps each qualifying row as many times as the table holds
      it and drops every other row, so its length counts qualifying rows. */
  lemma {:induction false} QualificadosMultiplicidade(hs: seq<Historico>, desde: int)
    ensures forall h :: multiset(Qualificados(hs, desde))[h] == if Qualifica(h, desde) then multiset(hs)[h] else 0
    decreases |hs|
  {
    if |hs| > 0 {
      QualificadosMultiplicidade(hs[1..], desde);
      assert hs == [hs[0]] + hs[1..];
    }
  }

  predicate OrdenadoPorData(s: seq<Historico>) {
    forall i, j :: 0 <= i < j < |s| ==> s[i].data <= s[j].data
  }

  /** Inserts `h` before the first row that is not earlier than it. */
  function InserirPorData(h: Historico, s: seq<Historico>): (r: seq<Historico>)
    requires OrdenadoPorData(s)
    ensures |r| == |s| + 1
    ensures r[0] == h || (|s| > 0 && r[0] == s[0])
    ensures OrdenadoPorData(r)
    ensures multiset(r) == multiset(s) + multiset{h}
  {
    if |s| == 0 || h.data <= s[0].data then [h] + s
    else
      var resto := InserirPorData(h, s[1..]);
      assert s == [s[0]] + s[1..];
      assert forall k :: 0 <= k < |resto| ==> resto[0].data <= resto[k].data;
      [s[0]] + resto
  }

  /** `historicos.sort(key=lambda h: h.data)`: a stable sort by date. */
  function OrdenarPorData(s: seq<Historico>): (r: seq<Historico>)
    ensures OrdenadoPorData(r)
    ensures multiset(r) == multiset(s)
  {
    if |s| == 0 then []
    else
      assert s == [s[0]] + s[1..];
      InserirPorData(s[0], OrdenarPorData(s[1..]))
  }

  /** `p` is one of the rows of `q` with the smallest date. */
  predicate MaisAntigo(p: Historico, q: seq<Historico>) {
    p in q && forall h :: h in q ==> p.data <= h.data
  }

  /** `p` is one of the rows of `q` with the largest date. */
  predicate MaisRecente(p: Historico, q: seq<Historico>) {
    p in q && forall h :: h in q ==> h.data <= p.data
  }

  /** Any sorted permutation of `q` starts with an earliest row and ends with
      a latest one. */
  lemma ExtremosDePermutacaoOrdenada(q: seq<Historico>, s: seq<Historico>)
    requires |q| > 0 && OrdenadoPorData(s) && multiset(s) == multiset(q)
    ensures |s| == |q|
    ensures MaisAntigo(s[0], q) && MaisRecente(s[|s| - 1], q)
  {
    assert |s| == |multiset(s)| == |multiset(q)| == |q|;
    assert s[0] in multiset(q) && s[|s| - 1] in multiset(q);
    forall h | h in q
      ensures s[0].data <= h.data <= s[|s| - 1].data
    {
      assert h in multiset(s);
      var k :| 0 <= k < |s| && s[k] == h;
    }
  }

  /** Sorting puts an earliest row of `q` first and a latest row last. */
  lemma ExtremosDaOrdenacao(q: seq<Historico>)
    requires |q| > 0
    ensures |OrdenarPorData(q)| == |q|
    ensures MaisAntigo(OrdenarPorData(q)[0], q)
    ensures MaisRecente(OrdenarPorData(q)[|q| - 1], q)
  {
    ExtremosDePermutacaoOrdenada(q, OrdenarPorData(q));
  }

  /** The window's rows sorted by date; each has a non-null, non-zero close. */
  function JanelaOrdenada(hs: seq<Historico>, desde: int): (s: seq<Historico>)
    ensures OrdenadoPorData(s)
    ensures |s| == |Qualificados(hs, desde)|
    ensures forall k :: 0 <= k < |s| ==> Qualifica(s[k], desde)
  {
    var q := Qualificados(hs, desde);
    var s := OrdenarPorData(q);
    assert |s| == |multiset(s)| == |multiset(q)| == |q|;
    assert forall k :: 0 <= k < |s| ==> s[k] in multiset(q);
    s
  }

  /** The sorted window starts with an earliest row of the window and ends
      with a latest one. */
  lemma ExtremosDaJanela(hs: seq<Historico>, desde: int)
    requires |Qualificados(hs, desde)| > 0
    ensures |JanelaOrdenada(hs, desde)| == |Qualificados(hs, desde)|
    ensures MaisAntigo(JanelaOrdenada(hs, desde)[0], Qualificados(hs, desde))
    ensures MaisRecente(JanelaOrdenada(hs, desde)[|Qualificados(hs, desde)| - 1], Qualificados(hs, desde))
  {
    var q := Qualificados(hs, desde);
    assert JanelaOrdenada(hs, desde) == OrdenarPorData(q);
    ExtremosDaOrdenacao(q);
  }

  /** Every row of the sorted window is one of the instrument's rows. */
  lemma DaJanela(hs: seq<Historico>, desde: int, k: int)
    requires 0 <= k < |JanelaOrdenada(hs, desde)|
    ensures JanelaOrdenada(hs, desde)[k] in hs
  {
    var q := Qualificados(hs, desde);
    var s := JanelaOrdenada(hs, desde);
    assert s == OrdenarPorData(q);
    assert s[k] in multiset(q);
  }

  /** The closes of rows that all have one. */
  function Fechamentos(s: seq<Historico>): (ys: seq<real>)
    requires forall k :: 0 <= k < |s| ==> s[k].precoFechamento.Some?
  {
    seq(|s|, k requires 0 <= k < |s| => Fechamento(s[k]))
  }
}
