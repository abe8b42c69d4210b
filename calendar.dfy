/** Proleptic Gregorian day ordinals, as Python's `date.toordinal()`:
    1 January of year 1 is day 1 and was a Monday. */
module Calendar {

  /** Days in the years before year `y`. */
  function DiasAntesDoAno(y: int): int
    requires y >= 1
  {
    var p := y - 1;
    365 * p + p / 4 - p / 100 + p / 400
  }

  /** Ordinal of 1 January of year `y`. */
  function PrimeiroDeJaneiro(y: int): (d: int)
    requires y >= 1
    ensures d >= 1
  {
    DiasAntesDoAno(y) + 1
  }

  // From p to p + 1 a quotient grows by one exactly when the divisor divides p + 1.

  lemma QuocientePor4(p: int)
    ensures (p + 1) / 4 - p / 4 == (if (p + 1) % 4 == 0 then 1 else 0)
  {
  }

  lemma QuocientePor100(p: int)
    ensures (p + 1) / 100 - p / 100 == (if (p + 1) % 100 == 0 then 1 else 0)
  {
  }

  lemma QuocientePor400(p: int)
    ensures (p + 1) / 400 - p / 400 == (if (p + 1) % 400 == 0 then 1 else 0)
  {
  }

  lemma MultiplosDeSeculo(n: int)
    ensures n % 100 == 0 ==> n % 4 == 0
    ensures n % 400 == 0 ==> n % 100 == 0
  {
  }

  /** Every year has 365 or 366 days: the leap-year rule adds a day every
      fourth year except on centuries not divisible by 400. */
  lemma AnoTem365ou366Dias(y: int)
    requires y >= 1
    ensures PrimeiroDeJaneiro(y + 1) - PrimeiroDeJaneiro(y) == 365
         || PrimeiroDeJaneiro(y + 1) - PrimeiroDeJaneiro(y) == 366
  {
    var p := y - 1;
    QuocientePor4(p);
    QuocientePor100(p);
    QuocientePor400(p);
    MultiplosDeSeculo(p + 1);
  }

  /** Python's `date.weekday()`: Monday is 0, Saturday 5, Sunday 6. */
  function DiaDaSemana(d: int): (w: int)
    ensures 0 <= w < 7
  {
    (d + 6) % 7
  }

  /** The year that day `d` falls in, found by walking forward from year `y`. */
  function AnoAPartirDe(y: int, d: int): (a: int)
    requires y >= 1 && PrimeiroDeJaneiro(y) <= d
    ensures a >= y
    ensures PrimeiroDeJaneiro(a) <= d < PrimeiroDeJaneiro(a + 1)
    decreases d - PrimeiroDeJaneiro(y)
  {
    AnoTem365ou366Dias(y);
    if d < PrimeiroDeJaneiro(y + 1) then y else AnoAPartirDe(y + 1, d)
  }

  /** The year of day `d`: the `y` with 1 January of `y` <= d < 1 January of `y + 1`. */
  function Ano(d: int): (y: int)
    requires d >= 1
    ensures y >= 1
    ensures PrimeiroDeJaneiro(y) <= d < PrimeiroDeJaneiro(y + 1)
  {
    AnoAPartirDe(1, d)
  }

  /** 1 January moves forward with the year. */
  lemma {:induction false} PrimeiroDeJaneiroCresce(a: int, b: int)
    requires 1 <= a <= b
    ensures PrimeiroDeJaneiro(a) <= PrimeiroDeJaneiro(b)
    decreases b - a
  {
    if a < b {
      AnoTem365ou366Dias(a);
      PrimeiroDeJaneiroCresce(a + 1, b);
    }
  }

  /** 1 January of year `y` falls in year `y`. */
  lemma AnoDoPrimeiroDeJaneiro(y: int)
    requires y >= 1
    ensures Ano(PrimeiroDeJaneiro(y)) == y
  {
    var a := Ano(PrimeiroDeJaneiro(y));
    if a < y {
      PrimeiroDeJaneiroCresce(a + 1, y);
    } else if a > y {
      AnoTem365ou366Dias(y);
      PrimeiroDeJaneiroCresce(y + 1, a);
    }
  }
}
