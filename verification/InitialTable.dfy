/** The service times that the program starts with, and the boosts that they allow. */
module InitialTable {
  import opened Model

  const INITIAL_TIMES: Times := map[
    ServiceKey(NoDisability, Dest1) := 4, ServiceKey(NoDisability, Dest2) := 6,
    ServiceKey(Type1, Dest1) := 8, ServiceKey(Type1, Dest2) := 10,
    ServiceKey(Type2, Dest1) := 10, ServiceKey(Type2, Dest2) := 14,
    ServiceKey(Type3, Dest1) := 18, ServiceKey(Type3, Dest2) := 16]

  lemma InitialTimesAtLeast(k: ServiceKey)
    ensures k in INITIAL_TIMES && INITIAL_TIMES[k] >= 4
    ensures INITIAL_TIMES[ServiceKey(NoDisability, Dest1)] == 4
  {
    match k.disability {
      case NoDisability => match k.dest { case Dest1 => case Dest2 => }
      case Type1 => match k.dest { case Dest1 => case Dest2 => }
      case Type2 => match k.dest { case Dest1 => case Dest2 => }
      case Type3 => match k.dest { case Dest1 => case Dest2 => }
    }
  }

  /** Multiplication under a name, for proofs that only need its laws. */
  function Product(x: real, y: real): real {
    x * y
  }

  lemma RestByProduct(q: int, a: int, b: real)
    ensures HasRest(q, a, b) <==>
      var rest := a as real - Product(q as real, b);
      if a >= 0 then 0.0 <= rest < b else -b < rest <= 0.0
  {
  }

  lemma SameSigns(a: real, b: real)
    requires b > 0.0
    ensures Product(a, b) > 0.0 <==> a > 0.0
    ensures Product(a, b) < 0.0 <==> a < 0.0
  {
  }

  lemma Distribute(a: real, b: real, c: real)
    ensures Product(a - b, c) == Product(a, c) - Product(b, c)
    ensures Product(1.0, c) == c && Product(-1.0, c) == -c
  {
  }

  lemma Divided(a: real, b: real)
    requires b != 0.0
    ensures Product(a / b, b) == Product(-(a / b), -b) == a
  {
    assert a / b * b == a;
  }

  lemma WholePart(x: real)
    ensures if x >= 0.0 then 0.0 <= x - Truncate(x) as real < 1.0 else -1.0 < x - Truncate(x) as real <= 0.0
  {
  }

  /** A fraction of a positive number is less than that. */
  lemma Fraction(f: real, b: real)
    requires b > 0.0
    ensures -1.0 < f < 1.0 <==> -b < Product(f, b) < b
    ensures f > 0.0 <==> Product(f, b) > 0.0
    ensures f < 0.0 <==> Product(f, b) < 0.0
  {
    hide Product;
    SameSigns(f, b);
    SameSigns(f - 1.0, b);
    SameSigns(f - -1.0, b);
    Distribute(f, 1.0, b);
    Distribute(f, -1.0, b);
  }

  lemma TruncatedQuotient(a: int, q: real, b: real)
    requires b > 0.0 && Product(q, b) == a as real
    ensures HasRest(Truncate(q), a, b)
  {
    WholePart(q);
    RestByProduct(Truncate(q), a, b);
    hide Truncate, Product, HasRest;
    Fraction(q - Truncate(q) as real, b);
    SameSigns(q, b);
    Distribute(q, Truncate(q) as real, b);
  }

  lemma TruncateNegated(x: real)
    ensures Truncate(-x) == -Truncate(x)
  {
  }

  /** A boosted service takes the truncated quotient of the tabulated time and the boost. */
  lemma BoostedIsQuotient(time: int, boost: real)
    requires boost != 0.0
    ensures IsQuotient(Boosted(Robotic(boost), time), time, boost)
  {
    var q := time as real / boost;
    TruncateNegated(q);
    Divided(time as real, boost);
    hide Truncate, HasRest, Product;
    if boost > 0.0 {
      TruncatedQuotient(time, q, boost);
    } else {
      TruncatedQuotient(time, -q, -boost);
    }
  }

  /** There is only one truncated quotient. */
  lemma QuotientIsUnique(q: int, r: int, a: int, b: real)
    requires b != 0.0 && IsQuotient(q, a, b) && IsQuotient(r, a, b)
    ensures q == r
  {
    hide HasRest;
    if b > 0.0 {
      RestIsUnique(q, r, a, b);
    } else {
      RestIsUnique(-q, -r, a, -b);
    }
  }

  lemma RestIsUnique(q: int, r: int, a: int, b: real)
    requires b > 0.0 && HasRest(q, a, b) && HasRest(r, a, b)
    ensures q == r
  {
    hide Product, HasRest;
    RestByProduct(q, a, b);
    RestByProduct(r, a, b);
    Distribute(q as real, r as real, b);
    Fraction(q as real - r as real, b);
  }

  /** A boosted service takes time exactly when the boost is positive and at most the tabulated time. */
  lemma BoostedIsPositive(time: int, boost: real)
    requires time >= 0 && boost != 0.0
    ensures Boosted(Robotic(boost), time) >= 1 <==> 0.0 < boost <= time as real
  {
    BoostedIsQuotient(time, boost);
    hide Boosted;
    var q := Boosted(Robotic(boost), time);
    if boost > 0.0 {
      AtLeastOne(q, time, boost);
    } else {
      NotNegative(-q, time, -boost);
    }
  }

  lemma AtLeastOne(q: int, a: int, b: real)
    requires b > 0.0 && a >= 0 && HasRest(q, a, b)
    ensures q >= 1 <==> b <= a as real
  {
    hide Product, HasRest;
    RestByProduct(q, a, b);
    Distribute(q as real, 1.0, b);
    SameSigns(q as real, b);
    SameSigns(q as real - 1.0, b);
  }

  lemma NotNegative(q: int, a: int, b: real)
    requires b > 0.0 && a >= 0 && HasRest(q, a, b)
    ensures q >= 0
  {
    hide Product, HasRest;
    RestByProduct(q, a, b);
    Distribute(q as real, -1.0, b);
    SameSigns(q as real - -1.0, b);
  }

  /** With the initial table a robotic server can serve everybody exactly when its boost is positive and at most 4. */
  lemma InitialTimesSuffice(boost: real)
    requires boost != 0.0
    ensures CanServe(Standard, INITIAL_TIMES) && HasTimes(Robotic(boost), INITIAL_TIMES)
    ensures CanServe(Robotic(boost), INITIAL_TIMES) <==> 0.0 < boost <= 4.0
  {
    var kind := Robotic(boost);
    hide INITIAL_TIMES, Boosted;
    forall k: ServiceKey
      ensures k in ServiceTimes(Standard, INITIAL_TIMES) && ServiceTimes(Standard, INITIAL_TIMES)[k] >= 1
    {
      InitialTimesAtLeast(k);
      StandardTime(k);
    }
    forall k: ServiceKey
      ensures k in ServiceTimes(kind, INITIAL_TIMES)
      ensures 0.0 < boost <= 4.0 ==> ServiceTimes(kind, INITIAL_TIMES)[k] >= 1
    {
      InitialTimesAtLeast(k);
      BoostedIsPositive(INITIAL_TIMES[k], boost);
    }
    var least := ServiceKey(NoDisability, Dest1);
    InitialTimesAtLeast(least);
    BoostedIsPositive(INITIAL_TIMES[least], boost);
    assert ServiceTimes(kind, INITIAL_TIMES)[least] == Boosted(kind, 4);
  }

  lemma StandardTime(k: ServiceKey)
    requires k in INITIAL_TIMES
    ensures Boosted(Standard, INITIAL_TIMES[k]) == INITIAL_TIMES[k]
  {
    hide INITIAL_TIMES;
  }
}
