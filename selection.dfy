/** Keeping the best candidate: the loop shared by the three rankings. Each
    ranking scans the instruments in listing order, skips the ones without a
    score, and replaces its running best only by a strictly better score,
    starting from an infinite sentinel. */
module Selecao {
  import opened Records

  /** Which way a ranking goes: the greatest score (`>`) or the smallest (`<`). */
  datatype Criterio = Maior | Menor

  /** A ranking result: the winning ticker and its score, or no ticker and the
      infinite starting value. */
  datatype Ranking = Ranking(ticker: Option<string>, valor: Valor)

  /** One instrument in listing order with its score, None when skipped. */
  datatype Candidato = Candidato(ticker: string, nota: Option<real>)

  /** `v` is strictly better than `w`. */
  predicate Melhor(c: Criterio, v: real, w: real) {
    if c == Maior then v > w else v < w
  }

  /** `rent > melhor_rent` (or `rent < pior_rent`) against a running best that
      may still be the infinite sentinel. */
  predicate Supera(c: Criterio, v: real, melhor: Valor) {
    match melhor
    case NegInf => c == Maior
    case PosInf => c == Menor
    case Finite(w) => Melhor(c, v, w)
  }

  /** `(None, float('-inf'))` for a greatest-score ranking, `(None, float('inf'))`
      for a smallest-score one. */
  function Inicial(c: Criterio): (r: Ranking)
    ensures r.ticker.None? && !r.valor.Finite?
    ensures forall v: real :: Supera(c, v, r.valor)
  {
    Ranking(None, if c == Maior then NegInf else PosInf)
  }

  /** The running best after scanning `cs` from left to right. */
  function Lider(c: Criterio, cs: seq<Candidato>): Ranking
    decreases |cs|
  {
    if |cs| == 0 then Inicial(c)
    else
      var anterior := Lider(c, cs[..|cs| - 1]);
      var ultimo := cs[|cs| - 1];
      if ultimo.nota.Some? && Supera(c, ultimo.nota.value, anterior.valor)
      then Ranking(Some(ultimo.ticker), Finite(ultimo.nota.value))
      else anterior
  }

  /** Candidate `i` has a score, no candidate has a strictly better one, and
      every earlier candidate with a score has a strictly worse one. */
  ghost predicate Vencedor(c: Criterio, cs: seq<Candidato>, i: int) {
    && 0 <= i < |cs| && cs[i].nota.Some?
    && (forall j :: 0 <= j < |cs| && cs[j].nota.Some? ==> !Melhor(c, cs[j].nota.value, cs[i].nota.value))
    && (forall j :: 0 <= j < i && cs[j].nota.Some? ==> Melhor(c, cs[i].nota.value, cs[j].nota.value))
  }

  ghost predicate SemCandidatos(cs: seq<Candidato>) {
    forall j :: 0 <= j < |cs| ==> cs[j].nota.None?
  }

  /** The result naming candidate `i`. */
  function Eleito(cs: seq<Candidato>, i: int): Ranking
    requires 0 <= i < |cs| && cs[i].nota.Some?
  {
    Ranking(Some(cs[i].ticker), Finite(cs[i].nota.value))
  }

  /** What a ranking promises: when no instrument has a score, the infinite
      sentinel and no ticker; otherwise the ticker and score of the first
      instrument whose score nobody beats. */
  ghost predicate Elege(c: Criterio, cs: seq<Candidato>, r: Ranking) {
    if SemCandidatos(cs) then r == Inicial(c)
    else exists i :: Vencedor(c, cs, i) && r == Eleito(cs, i)
  }

  lemma MelhorSobrepoe(c: Criterio, u: real, v: real, w: real)
    requires Melhor(c, u, v) && !Melhor(c, w, v)
    ensures Melhor(c, u, w) && !Melhor(c, w, u)
  {
  }

  /** A winner of the first n candidates stays the winner when the next one
      does not beat it. */
  lemma VencedorMantido(c: Criterio, cs: seq<Candidato>, i: int)
    requires |cs| > 0 && Vencedor(c, cs[..|cs| - 1], i)
    requires cs[|cs| - 1].nota.Some? ==> !Melhor(c, cs[|cs| - 1].nota.value, cs[i].nota.value)
    ensures Vencedor(c, cs, i)
  {
    var p := cs[..|cs| - 1];
    assert forall j :: 0 <= j < |p| ==> cs[j] == p[j];
  }

  /** The last candidate wins when it beats every earlier score. */
  lemma VencedorNovo(c: Criterio, cs: seq<Candidato>)
    requires |cs| > 0 && cs[|cs| - 1].nota.Some?
    requires forall j :: 0 <= j < |cs| - 1 && cs[j].nota.Some? ==>
               Melhor(c, cs[|cs| - 1].nota.value, cs[j].nota.value)
    ensures Vencedor(c, cs, |cs| - 1)
  {
  }

  /** The last candidate beats the previous winner, hence every earlier score. */
  lemma SuperaVencedor(c: Criterio, cs: seq<Candidato>, i: int)
    requires |cs| > 0 && cs[|cs| - 1].nota.Some? && Vencedor(c, cs[..|cs| - 1], i)
    requires Melhor(c, cs[|cs| - 1].nota.value, cs[i].nota.value)
    ensures Vencedor(c, cs, |cs| - 1)
  {
    var p := cs[..|cs| - 1];
    var v := cs[|cs| - 1].nota.value;
    forall j | 0 <= j < |cs| - 1 && cs[j].nota.Some?
      ensures Melhor(c, v, cs[j].nota.value)
    {
      assert cs[j] == p[j];
      MelhorSobrepoe(c, v, cs[i].nota.value, cs[j].nota.value);
    }
    VencedorNovo(c, cs);
  }

  /** The left-to-right scan elects the first unbeaten candidate. */
  lemma {:induction false} LiderElege(c: Criterio, cs: seq<Candidato>)
    ensures Elege(c, cs, Lider(c, cs))
    decreases |cs|
  {
    if |cs| > 0 {
      var n := |cs| - 1;
      var p := cs[..n];
      LiderElege(c, p);
      var anterior := Lider(c, p);
      var ultimo := cs[n];
      assert forall j :: 0 <= j < n ==> cs[j] == p[j];
      if SemCandidatos(p) {
        if ultimo.nota.Some? {
          VencedorNovo(c, cs);
          assert Elege(c, cs, Eleito(cs, n));
        } else {
          assert SemCandidatos(cs);
        }
      } else {
        var i :| Vencedor(c, p, i) && anterior == Eleito(p, i);
        assert cs[i] == p[i];
        if ultimo.nota.Some? && Melhor(c, ultimo.nota.value, cs[i].nota.value) {
          SuperaVencedor(c, cs, i);
          assert Elege(c, cs, Eleito(cs, n));
        } else {
          VencedorMantido(c, cs, i);
          assert Elege(c, cs, Eleito(cs, i));
        }
      }
    }
  }

  /** On a tie the instrument listed first wins: nothing listed after the
      winner has a better score, and nothing listed before it the same score. */
  lemma EmpateFicaComOPrimeiro(c: Criterio, cs: seq<Candidato>, i: int, j: int)
    requires Vencedor(c, cs, i) && 0 <= j < |cs| && cs[j].nota == cs[i].nota
    ensures i <= j
  {
  }

  /** Only one result satisfies `Elege`: a ranking is determined by its
      candidates, whatever computes it. */
  lemma ElegeUnico(c: Criterio, cs: seq<Candidato>, r1: Ranking, r2: Ranking)
    requires Elege(c, cs, r1) && Elege(c, cs, r2)
    ensures r1 == r2
  {
    if !SemCandidatos(cs) {
      var i1 :| Vencedor(c, cs, i1) && r1 == Eleito(cs, i1);
      var i2 :| Vencedor(c, cs, i2) && r2 == Eleito(cs, i2);
      var w1, w2 := cs[i1].nota.value, cs[i2].nota.value;
      assert !Melhor(c, w2, w1) && !Melhor(c, w1, w2);
    }
  }
}
