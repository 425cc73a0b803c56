/** The HammingNumber value type: a 5-smooth number 2^p * 3^q * 5^r held as its
    exponent triple, so that arbitrarily large members of the sequence can be
    compared and multiplied without materialising them. */
module HammingNumbers {

  datatype HammingNumber = HammingNumber(p: nat, q: nat, r: nat)

  /** k * x for one of the factors 2, 3, 5, written so that the factor is a
      literal in every case. */
  function Scale(k: nat, x: nat): (y: nat)
    requires k == 2 || k == 3 || k == 5
  {
    if k == 2 then 2 * x else if k == 3 then 3 * x else 5 * x
  }

  /** The magnitude 2^p * 3^q * 5^r that the exponent triple stands for (see
      ValueIsProduct), peeled one factor at a time. The source only ever
      materialises it as a floating-point number for printing; the model uses
      it as the exact meaning of the triple. */
  function Value(h: HammingNumber): (v: nat)
    ensures v >= 1
  {
    Val(h.p, h.q, h.r)
  }

  function Val(p: nat, q: nat, r: nat): (v: nat)
    ensures v >= 1
    decreases p + q + r
  {
    if p > 0 then 2 * Val(p - 1, q, r)
    else if q > 0 then 3 * Val(p, q - 1, r)
    else if r > 0 then 5 * Val(p, q, r - 1)
    else 1
  }

  function Pow(b: nat, e: nat): nat
  {
    if e == 0 then 1 else b * Pow(b, e - 1)
  }

  /** The default constructor: every exponent zero. */
  function One(): (h: HammingNumber)
    ensures Value(h) == 1
  {
    HammingNumber(0, 0, 0)
  }

  lemma {:induction false} BumpThree(u: HammingNumber)
    ensures Value(u.(q := u.q + 1)) == 3 * Value(u)
    decreases u.p
  {
    if u.p > 0 {
      BumpThree(u.(p := u.p - 1));
      assert u.(q := u.q + 1).(p := u.p - 1) == u.(p := u.p - 1).(q := u.q + 1);
    }
  }

  lemma {:induction false} BumpFive(u: HammingNumber)
    ensures Value(u.(r := u.r + 1)) == 5 * Value(u)
    decreases u.p + u.q
  {
    if u.p > 0 {
      BumpFive(u.(p := u.p - 1));
      assert u.(r := u.r + 1).(p := u.p - 1) == u.(p := u.p - 1).(r := u.r + 1);
    } else if u.q > 0 {
      BumpFive(u.(q := u.q - 1));
      assert u.(r := u.r + 1).(q := u.q - 1) == u.(q := u.q - 1).(r := u.r + 1);
    }
  }

  lemma {:induction false} ScaleProduct(x: nat, y: nat, z: nat)
    ensures 2 * (x * y * z) == (2 * x) * y * z
    ensures 3 * (x * y * z) == x * (3 * y) * z
    ensures 5 * (x * y * z) == x * y * (5 * z)
  {
  }

  /** The peeled definition agrees with the closed form 2^p * 3^q * 5^r. */
  lemma {:induction false} ValueIsProduct(h: HammingNumber)
    ensures Value(h) == Pow(2, h.p) * Pow(3, h.q) * Pow(5, h.r)
    decreases h.p + h.q + h.r
  {
    if h.p > 0 {
      ValueIsProduct(h.(p := h.p - 1));
      ScaleProduct(Pow(2, h.p - 1), Pow(3, h.q), Pow(5, h.r));
    } else if h.q > 0 {
      ValueIsProduct(h.(q := h.q - 1));
      ScaleProduct(Pow(2, h.p), Pow(3, h.q - 1), Pow(5, h.r));
    } else if h.r > 0 {
      ValueIsProduct(h.(r := h.r - 1));
      ScaleProduct(Pow(2, h.p), Pow(3, h.q), Pow(5, h.r - 1));
    }
  }

  /** operator*: multiplying by 2, 3 or 5 bumps the matching exponent and so
      multiplies the value; any other factor is silently ignored and the
      argument comes back unchanged. */
  function Mul(u: HammingNumber, fact: int): (v: HammingNumber)
    ensures fact == 2 || fact == 3 || fact == 5 ==> Value(v) == Scale(fact, Value(u))
    ensures fact != 2 && fact != 3 && fact != 5 ==> v == u
  {
    var u2 := if fact == 2 then u.(p := u.p + 1) else u;
    var u3 := if fact == 3 then u2.(q := u2.q + 1) else u2;
    var u5 := if fact == 5 then u3.(r := u3.r + 1) else u3;
    BumpThree(u);
    BumpFive(u);
    u5
  }

  /** operator==: the exponent triples agree componentwise. */
  predicate Equal(a: HammingNumber, b: HammingNumber)
    ensures Equal(a, b) <==> a == b
  {
    a.p == b.p && a.q == b.q && a.r == b.r
  }

  /** operator<: ordering by magnitude. The source compares the weighted
      logarithms p*ln2 + q*ln3 + r*ln5 in floating point; here the exact values
      are compared. */
  predicate Less(a: HammingNumber, b: HammingNumber)
    ensures Less(a, b) ==> !Equal(a, b)
    ensures !Less(a, b) ==> Value(b) <= Value(a)
  {
    Value(a) < Value(b)
  }

  /** std::min(a, b) under operator<: b only when b < a, otherwise a. */
  function Min(a: HammingNumber, b: HammingNumber): (m: HammingNumber)
    ensures m == a || m == b
    ensures !Less(a, m) && !Less(b, m)
  {
    if Less(b, a) then b else a
  }

  lemma {:induction false} MulBumpsOneExponent(u: HammingNumber, fact: int)
    ensures Mul(u, 2) == HammingNumber(u.p + 1, u.q, u.r)
    ensures Mul(u, 3) == HammingNumber(u.p, u.q + 1, u.r)
    ensures Mul(u, 5) == HammingNumber(u.p, u.q, u.r + 1)
    ensures fact != 2 && fact != 3 && fact != 5 ==> Mul(u, fact) == u
  {
  }

  lemma {:induction false} TimesKeepsOdd(v: nat)
    requires v % 2 == 1
    ensures (3 * v) % 2 == 1 && (5 * v) % 2 == 1
  {
    var m := v / 2;
    assert v == 2 * m + 1;
    assert 3 * v == 2 * (3 * m + 1) + 1;
    assert 5 * v == 2 * (5 * m + 2) + 1;
  }

  lemma {:induction false} FiveKeepsNonThreefold(v: nat)
    requires v % 3 != 0
    ensures (5 * v) % 3 != 0
  {
    var m := v / 3;
    if v % 3 == 1 {
      assert 5 * v == 3 * (5 * m + 1) + 2;
    } else {
      assert 5 * v == 3 * (5 * m + 3) + 1;
    }
  }

  /** A triple with no factor 2 has an odd value. */
  lemma {:induction false} OddWithoutTwos(h: HammingNumber)
    requires h.p == 0
    ensures Value(h) % 2 == 1
    decreases h.q + h.r
  {
    if h.q > 0 {
      var h' := h.(q := h.q - 1);
      OddWithoutTwos(h');
      TimesKeepsOdd(Value(h'));
      assert Value(h) == 3 * Value(h');
    } else if h.r > 0 {
      var h' := h.(r := h.r - 1);
      OddWithoutTwos(h');
      TimesKeepsOdd(Value(h'));
      assert Value(h) == 5 * Value(h');
    }
  }

  /** A triple with neither a factor 2 nor a factor 3 has a value not divisible by 3. */
  lemma {:induction false} NotThreefoldWithoutTwosOrThrees(h: HammingNumber)
    requires h.p == 0 && h.q == 0
    ensures Value(h) % 3 != 0
    decreases h.r
  {
    if h.r > 0 {
      var h' := h.(r := h.r - 1);
      NotThreefoldWithoutTwosOrThrees(h');
      FiveKeepsNonThreefold(Value(h'));
      assert Value(h) == 5 * Value(h');
    }
  }

  lemma {:induction false} MultiplesDivide(x: nat)
    ensures (2 * x) % 2 == 0 && (3 * x) % 3 == 0
  {
  }

  /** The first nonzero exponent shows in the value: a factor 2 makes it even,
      otherwise a factor 3 makes it a multiple of 3, otherwise a factor 5
      makes it at least 5. */
  lemma {:induction false} LeadingFactor(h: HammingNumber)
    ensures h.p > 0 ==> Value(h) % 2 == 0
    ensures h.p == 0 && h.q > 0 ==> Value(h) % 3 == 0
    ensures h.p == 0 && h.q == 0 && h.r > 0 ==> Value(h) >= 5
  {
    if h.p > 0 {
      var h' := h.(p := h.p - 1);
      MultiplesDivide(Value(h'));
      assert Value(h) == 2 * Value(h');
    } else if h.q > 0 {
      var h' := h.(q := h.q - 1);
      MultiplesDivide(Value(h'));
      assert Value(h) == 3 * Value(h');
    } else if h.r > 0 {
      assert Value(h) == 5 * Value(h.(r := h.r - 1));
    }
  }

  /** Unique factorisation for 5-smooth numbers: equal magnitudes mean equal
      exponent triples, so operator< never ties on two different triples. */
  lemma {:induction false} ValueInjective(a: HammingNumber, b: HammingNumber)
    requires Value(a) == Value(b)
    ensures a == b
    decreases a.p + a.q + a.r + b.p + b.q + b.r
  {
    if a.p > 0 || b.p > 0 {
      if a.p == 0 {
        OddWithoutTwos(a);
        LeadingFactor(b);
      } else if b.p == 0 {
        OddWithoutTwos(b);
        LeadingFactor(a);
      } else {
        ValueInjective(a.(p := a.p - 1), b.(p := b.p - 1));
      }
    } else if a.q > 0 || b.q > 0 {
      if a.q == 0 {
        NotThreefoldWithoutTwosOrThrees(a);
        LeadingFactor(b);
      } else if b.q == 0 {
        NotThreefoldWithoutTwosOrThrees(b);
        LeadingFactor(a);
      } else {
        ValueInjective(a.(q := a.q - 1), b.(q := b.q - 1));
      }
    } else if a.r > 0 && b.r > 0 {
      ValueInjective(a.(r := a.r - 1), b.(r := b.r - 1));
    } else {
      LeadingFactor(a);
      LeadingFactor(b);
    }
  }

  /** operator== (exponent equality) coincides with equality of magnitudes. */
  lemma {:induction false} EqualIffSameValue(a: HammingNumber, b: HammingNumber)
    ensures Equal(a, b) <==> Value(a) == Value(b)
  {
    if Value(a) == Value(b) {
      ValueInjective(a, b);
    }
  }

  /** operator< is a strict total order on exponent triples. */
  lemma {:induction false} LessIsStrictTotalOrder(a: HammingNumber, b: HammingNumber, c: HammingNumber)
    ensures !Less(a, a)
    ensures Less(a, b) ==> !Less(b, a)
    ensures Less(a, b) && Less(b, c) ==> Less(a, c)
    ensures a != b ==> Less(a, b) || Less(b, a)
  {
    if a != b && Value(a) == Value(b) {
      ValueInjective(a, b);
    }
  }

  /** Multiplying by one of the factors always gives a strictly larger number. */
  lemma {:induction false} LessThanMultiple(x: HammingNumber, fact: int)
    requires fact == 2 || fact == 3 || fact == 5
    ensures Less(x, Mul(x, fact))
  {
  }

  /** Scaling by one of the factors preserves and reflects order. */
  lemma {:induction false} ScaleMonotone(k: nat, a: nat, b: nat)
    requires k == 2 || k == 3 || k == 5
    ensures a <= b <==> Scale(k, a) <= Scale(k, b)
    ensures a < b <==> Scale(k, a) < Scale(k, b)
  {
  }

  /** Multiplying by the same factor preserves and reflects the order of magnitudes. */
  lemma {:induction false} MulMonotone(x: HammingNumber, y: HammingNumber, k: nat)
    requires k == 2 || k == 3 || k == 5
    ensures Value(x) <= Value(y) <==> Value(Mul(x, k)) <= Value(Mul(y, k))
    ensures Value(x) < Value(y) <==> Value(Mul(x, k)) < Value(Mul(y, k))
  {
  }
}
