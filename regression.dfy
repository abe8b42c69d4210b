/** Simple ordinary least squares of y on x with an intercept, by its
    definition over sums, as the trend ranking fits it. */
module Regressao {

  /** One regression point: day offset and close. */
  datatype Ponto = Ponto(x: real, y: real)

  /** The number of points, as a real (Σ 1). */
  function Contagem(p: seq<Ponto>): real {
    if |p| == 0 then 0.0 else 1.0 + Contagem(p[1..])
  }

  function SomaX(p: seq<Ponto>): real {
    if |p| == 0 then 0.0 else p[0].x + SomaX(p[1..])
  }

  function SomaY(p: seq<Ponto>): real {
    if |p| == 0 then 0.0 else p[0].y + SomaY(p[1..])
  }

  function SomaXX(p: seq<Ponto>): real {
    if |p| == 0 then 0.0 else p[0].x * p[0].x + SomaXX(p[1..])
  }

  function SomaXY(p: seq<Ponto>): real {
    if |p| == 0 then 0.0 else p[0].x * p[0].y + SomaXY(p[1..])
  }

  /** n·Σx² − (Σx)², the denominator of the slope. */
  function Dispersao(p: seq<Ponto>): real {
    Contagem(p) * SomaXX(p) - SomaX(p) * SomaX(p)
  }

  /** n·Σxy − Σx·Σy, the numerator of the slope. */
  function Covariacao(p: seq<Ponto>): real {
    Contagem(p) * SomaXY(p) - SomaX(p) * SomaY(p)
  }

  /** The least-squares slope, as `LinearRegression().fit(x, y).coef_[0]`.
      When every x is equal the centred design is zero and the minimum-norm
      solution is a slope of 0. */
  function Inclinacao(p: seq<Ponto>): real {
    var d := Dispersao(p);
    if d == 0.0 then 0.0 else Covariacao(p) / d
  }

  function Quadrado(d: real): real {
    d * d
  }

  /** Σ (x − x0)² over the points of `p`. */
  function DesviosQuadrados(p: seq<Ponto>, x0: real): real {
    if |p| == 0 then 0.0 else Quadrado(p[0].x - x0) + DesviosQuadrados(p[1..], x0)
  }

  // Ring identities over plain reals; the lemmas on sequences instantiate them.

  lemma PassoDesvios(dqp: real, dqt: real, sxxp: real, sxxt: real, sxp: real, sxt: real,
                     np: real, nt: real, a: real, x0: real)
    requires dqp == Quadrado(a - x0) + dqt
    requires dqt == sxxt - 2.0 * x0 * sxt + nt * x0 * x0
    requires sxxp == a * a + sxxt && sxp == a + sxt && np == nt + 1.0
    ensures dqp == sxxp - 2.0 * x0 * sxp + np * x0 * x0
  {
  }

  lemma PassoDispersao(dp: real, dr: real, dq: real, sxxp: real, sxxr: real, sxp: real, sxr: real,
                       np: real, nr: real, x: real)
    requires dp == np * sxxp - sxp * sxp && dr == nr * sxxr - sxr * sxr
    requires dq == sxxr - 2.0 * x * sxr + nr * x * x
    requires sxxp == x * x + sxxr && sxp == x + sxr && np == nr + 1.0
    ensures dp == dr + dq
  {
  }

  lemma PassoRetaY(syp: real, syt: real, sxp: real, sxt: real, np: real, nt: real,
                   x: real, y: real, a: real, b: real)
    requires y == a + b * x && syt == nt * a + b * sxt
    requires syp == y + syt && sxp == x + sxt && np == nt + 1.0
    ensures syp == np * a + b * sxp
  {
  }

  lemma PassoRetaXY(sxyp: real, sxyt: real, sxp: real, sxt: real, sxxp: real, sxxt: real,
                    x: real, y: real, a: real, b: real)
    requires y == a + b * x && sxyt == a * sxt + b * sxxt
    requires sxyp == x * y + sxyt && sxp == x + sxt && sxxp == x * x + sxxt
    ensures sxyp == a * sxp + b * sxxp
  {
  }

  lemma CovariacaoDeReta(n: real, s: real, qq: real, sy: real, sxy: real, a: real, b: real, cov: real, disp: real)
    requires sy == n * a + b * s && sxy == a * s + b * qq
    requires cov == n * sxy - s * sy && disp == n * qq - s * s
    ensures cov == b * disp
  {
  }

  lemma ProdutoPositivo(u: real, v: real, q: real)
    requires u > 0.0 && v > 0.0 && q == u * v
    ensures q > 0.0
  {
  }

  lemma QuadradoPositivo(d: real)
    requires d != 0.0
    ensures Quadrado(d) > 0.0
  {
    if d > 0.0 {
      ProdutoPositivo(d, d, Quadrado(d));
    } else {
      ProdutoPositivo(-d, -d, Quadrado(d));
    }
  }

  lemma QuadradoNaoNegativo(d: real)
    ensures Quadrado(d) >= 0.0
  {
    if d != 0.0 {
      QuadradoPositivo(d);
    }
  }

  lemma ZeroVezes(x0: real)
    ensures 0.0 - 2.0 * x0 * 0.0 + 0.0 * x0 * x0 == 0.0
  {
  }

  lemma ZeroReta(a: real, b: real)
    ensures 0.0 == 0.0 * a + b * 0.0
    ensures 0.0 == a * 0.0 + b * 0.0
  {
  }

  lemma DivisaoExata(q: real, b: real, d: real)
    requires d != 0.0 && q == b * d
    ensures q / d == b
  {
  }

  // Lemmas on point sequences.

  /** Σ (x − x0)² written with the plain sums: Σx² − 2·x0·Σx + n·x0². */
  predicate DesviosExpandidos(p: seq<Ponto>, x0: real) {
    DesviosQuadrados(p, x0) == SomaXX(p) - 2.0 * x0 * SomaX(p) + Contagem(p) * x0 * x0
  }

  /** One unfolding of the sums over x at the front point. */
  lemma SomasDeXDesdobradas(p: seq<Ponto>)
    requires |p| > 0
    ensures Contagem(p) == Contagem(p[1..]) + 1.0
    ensures SomaX(p) == p[0].x + SomaX(p[1..])
    ensures SomaXX(p) == p[0].x * p[0].x + SomaXX(p[1..])
  {
  }

  lemma DesviosExpandidosPasso(p: seq<Ponto>, x0: real)
    requires |p| > 0 && DesviosExpandidos(p[1..], x0)
    ensures DesviosExpandidos(p, x0)
  {
    DesviosDesdobrados(p, x0);
    SomasDeXDesdobradas(p);
    PassoDesvios(DesviosQuadrados(p, x0), DesviosQuadrados(p[1..], x0), SomaXX(p), SomaXX(p[1..]),
                 SomaX(p), SomaX(p[1..]), Contagem(p), Contagem(p[1..]), p[0].x, x0);
  }

  lemma {:induction false} DesviosQuadradosExpandidos(p: seq<Ponto>, x0: real)
    ensures DesviosExpandidos(p, x0)
    decreases |p|
  {
    if |p| == 0 {
      ZeroVezes(x0);
    } else {
      DesviosQuadradosExpandidos(p[1..], x0);
      DesviosExpandidosPasso(p, x0);
    }
  }

  lemma DesviosDesdobrados(p: seq<Ponto>, x0: real)
    requires |p| > 0
    ensures DesviosQuadrados(p, x0) == Quadrado(p[0].x - x0) + DesviosQuadrados(p[1..], x0)
  {
  }

  /** Σ (x − x0)² is never negative. */
  lemma {:induction false} DesviosQuadradosNaoNegativos(p: seq<Ponto>, x0: real)
    ensures DesviosQuadrados(p, x0) >= 0.0
    decreases |p|
  {
    if |p| > 0 {
      DesviosQuadradosNaoNegativos(p[1..], x0);
      QuadradoNaoNegativo(p[0].x - x0);
    }
  }

  /** Σ (x − x0)² is positive as soon as one x differs from x0. */
  lemma {:induction false} DesviosQuadradosPositivos(p: seq<Ponto>, x0: real, k: int)
    requires 0 <= k < |p| && p[k].x != x0
    ensures DesviosQuadrados(p, x0) > 0.0
    decreases |p|
  {
    DesviosDesdobrados(p, x0);
    if k == 0 {
      DesviosQuadradosNaoNegativos(p[1..], x0);
      QuadradoPositivo(p[0].x - x0);
    } else {
      assert p[1..][k - 1] == p[k];
      DesviosQuadradosPositivos(p[1..], x0, k - 1);
      QuadradoNaoNegativo(p[0].x - x0);
    }
  }

  /** Putting a point in front raises the dispersion by the squared distances
      of the other x's from its x. */
  lemma DispersaoAoAcrescentar(p: seq<Ponto>)
    requires |p| > 0
    ensures Dispersao(p) == Dispersao(p[1..]) + DesviosQuadrados(p[1..], p[0].x)
  {
    var r := p[1..];
    DesviosQuadradosExpandidos(r, p[0].x);
    PassoDispersao(Dispersao(p), Dispersao(r), DesviosQuadrados(r, p[0].x), SomaXX(p), SomaXX(r),
                   SomaX(p), SomaX(r), Contagem(p), Contagem(r), p[0].x);
  }

  /** The dispersion n·Σx² − (Σx)² is never negative. */
  lemma {:induction false} DispersaoNaoNegativa(p: seq<Ponto>)
    ensures Dispersao(p) >= 0.0
    decreases |p|
  {
    if |p| == 0 {
      ZeroVezes(0.0);
    } else {
      DispersaoNaoNegativa(p[1..]);
      DispersaoAoAcrescentar(p);
      DesviosQuadradosNaoNegativos(p[1..], p[0].x);
    }
  }

  /** The dispersion is positive as soon as two x's differ, so the slope is
      then the quotient of the two sums. */
  lemma {:induction false} DispersaoPositiva(p: seq<Ponto>, i: int, j: int)
    requires 0 <= i < |p| && 0 <= j < |p| && p[i].x != p[j].x
    ensures Dispersao(p) > 0.0
    decreases |p|
  {
    DispersaoAoAcrescentar(p);
    if i == 0 {
      assert p[1..][j - 1] == p[j];
      DesviosQuadradosPositivos(p[1..], p[0].x, j - 1);
      DispersaoNaoNegativa(p[1..]);
    } else if j == 0 {
      assert p[1..][i - 1] == p[i];
      DesviosQuadradosPositivos(p[1..], p[0].x, i - 1);
      DispersaoNaoNegativa(p[1..]);
    } else {
      assert p[1..][i - 1] == p[i] && p[1..][j - 1] == p[j];
      DispersaoPositiva(p[1..], i - 1, j - 1);
      DesviosQuadradosNaoNegativos(p[1..], p[0].x);
    }
  }

  /** The point lies on the line y = a + b·x. */
  predicate NaReta(pt: Ponto, a: real, b: real) {
    pt.y == a + b * pt.x
  }

  /** The points lie exactly on the line y = a + b·x. */
  predicate SobreReta(p: seq<Ponto>, a: real, b: real) {
    forall k :: 0 <= k < |p| ==> NaReta(p[k], a, b)
  }

  /** One unfolding of the sums a line's Σy needs. */
  lemma SomasLinearesDesdobradas(p: seq<Ponto>)
    requires |p| > 0
    ensures Contagem(p) == Contagem(p[1..]) + 1.0
    ensures SomaX(p) == p[0].x + SomaX(p[1..]) && SomaY(p) == p[0].y + SomaY(p[1..])
  {
  }

  /** One unfolding of the sums a line's Σxy needs. */
  lemma SomasQuadraticasDesdobradas(p: seq<Ponto>)
    requires |p| > 0
    ensures SomaX(p) == p[0].x + SomaX(p[1..])
    ensures SomaXX(p) == p[0].x * p[0].x + SomaXX(p[1..])
    ensures SomaXY(p) == p[0].x * p[0].y + SomaXY(p[1..])
  {
  }

  /** Σy = n·a + b·Σx for points on the line y = a + b·x. */
  predicate SomaYDeReta(p: seq<Ponto>, a: real, b: real) {
    SomaY(p) == Contagem(p) * a + b * SomaX(p)
  }

  /** Σxy = a·Σx + b·Σx² for points on the line y = a + b·x. */
  predicate SomaXYDeReta(p: seq<Ponto>, a: real, b: real) {
    SomaXY(p) == a * SomaX(p) + b * SomaXX(p)
  }

  lemma SomaYSobreRetaPasso(p: seq<Ponto>, a: real, b: real)
    requires |p| > 0 && p[0].y == a + b * p[0].x
    requires SomaYDeReta(p[1..], a, b)
    ensures SomaYDeReta(p, a, b)
  {
    SomasLinearesDesdobradas(p);
    PassoRetaY(SomaY(p), SomaY(p[1..]), SomaX(p), SomaX(p[1..]), Contagem(p), Contagem(p[1..]),
               p[0].x, p[0].y, a, b);
  }

  lemma SomaXYSobreRetaPasso(p: seq<Ponto>, a: real, b: real)
    requires |p| > 0 && p[0].y == a + b * p[0].x
    requires SomaXYDeReta(p[1..], a, b)
    ensures SomaXYDeReta(p, a, b)
  {
    SomasQuadraticasDesdobradas(p);
    PassoRetaXY(SomaXY(p), SomaXY(p[1..]), SomaX(p), SomaX(p[1..]), SomaXX(p), SomaXX(p[1..]),
                p[0].x, p[0].y, a, b);
  }

  lemma {:induction false} SomasSobreReta(p: seq<Ponto>, a: real, b: real)
    requires SobreReta(p, a, b)
    ensures SomaYDeReta(p, a, b) && SomaXYDeReta(p, a, b)
    decreases |p|
  {
    if |p| == 0 {
      ZeroReta(a, b);
    } else {
      var t := p[1..];
      assert SobreReta(t, a, b) by {
        forall k | 0 <= k < |t| ensures NaReta(t[k], a, b) {
          assert t[k] == p[k + 1];
        }
      }
      SomasSobreReta(t, a, b);
      SomaYSobreRetaPasso(p, a, b);
      SomaXYSobreRetaPasso(p, a, b);
    }
  }

  /** On a line of slope b the slope's numerator is b times its denominator. */
  lemma CovariacaoSobreReta(p: seq<Ponto>, a: real, b: real)
    requires SobreReta(p, a, b)
    ensures Covariacao(p) == b * Dispersao(p)
  {
    SomasSobreReta(p, a, b);
    CovariacaoDeSomasDeReta(p, a, b);
  }

  lemma CovariacaoDeSomasDeReta(p: seq<Ponto>, a: real, b: real)
    requires SomaYDeReta(p, a, b) && SomaXYDeReta(p, a, b)
    ensures Covariacao(p) == b * Dispersao(p)
  {
    CovariacaoDeReta(Contagem(p), SomaX(p), SomaXX(p), SomaY(p), SomaXY(p), a, b, Covariacao(p), Dispersao(p));
  }

  /** For exactly linear data with two different x's, the fitted slope is the
      line's slope. */
  lemma InclinacaoDeReta(p: seq<Ponto>, a: real, b: real, i: int, j: int)
    requires SobreReta(p, a, b)
    requires 0 <= i < |p| && 0 <= j < |p| && p[i].x != p[j].x
    ensures Inclinacao(p) == b
  {
    DispersaoPositiva(p, i, j);
    CovariacaoSobreReta(p, a, b);
    DivisaoExata(Covariacao(p), b, Dispersao(p));
  }
}
