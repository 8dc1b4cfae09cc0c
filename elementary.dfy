/** The transcendental operations the source takes from numpy (np.sqrt inside
    np.linalg.norm, np.sin, np.cos, `** 1.5`), as uninterpreted real functions.
    They are a parameter of the model rather than definitions, and `Lawful`
    states the only facts about them that the proofs use. */
module Elementary {

  datatype Ops = Ops(sqrt: real -> real, sin: real -> real, cos: real -> real)

  /** The laws every proof relies on: sqrt gives the non-negative square root of
      a non-negative argument, and sin^2 + cos^2 = 1. */
  ghost predicate Lawful(e: Ops) {
    && (forall x :: x >= 0.0 ==> e.sqrt(x) >= 0.0 && e.sqrt(x) * e.sqrt(x) == x)
    && (forall t :: e.sin(t) * e.sin(t) + e.cos(t) * e.cos(t) == 1.0)
  }

  /** s ** 1.5, written as s * sqrt(s). */
  function Pow15(e: Ops, s: real): real {
    s * e.sqrt(s)
  }

  /** np.pi, the double closest to pi. */
  const Pi: real := 3.141592653589793

  /** np.deg2rad. */
  function Deg2Rad(deg: real): real {
    deg * Pi / 180.0
  }

  /** a > 0 and a * b >= 0 leave b >= 0. */
  lemma NonnegativeFactor(a: real, b: real)
    requires a > 0.0 && a * b >= 0.0
    ensures b >= 0.0
  {
  }

  /** a > 0 and a * b == 0 leave b == 0. */
  lemma ZeroFactor(a: real, b: real)
    requires a > 0.0 && a * b == 0.0
    ensures b == 0.0
  {
  }

  /** The square root of 1 is 1. */
  lemma SqrtOfOne(e: Ops)
    requires Lawful(e)
    ensures e.sqrt(1.0) == 1.0
  {
    var r := e.sqrt(1.0);
    assert r >= 0.0 && r * r == 1.0;
    assert (r + 1.0) * (r - 1.0) == r * r - 1.0;
    ZeroFactor(r + 1.0, r - 1.0);
  }

  /** The square root of a number at least 1 is at least 1. */
  lemma SqrtAtLeastOne(e: Ops, s: real)
    requires Lawful(e) && s >= 1.0
    ensures e.sqrt(s) >= 1.0
  {
    var r := e.sqrt(s);
    assert r >= 0.0 && r * r == s;
    assert (r + 1.0) * (r - 1.0) == r * r - 1.0;
    NonnegativeFactor(r + 1.0, r - 1.0);
  }

  /** s ** 1.5 >= 1 whenever s >= 1. */
  lemma Pow15AtLeastOne(e: Ops, s: real)
    requires Lawful(e) && s >= 1.0
    ensures Pow15(e, s) >= 1.0
  {
    SqrtAtLeastOne(e, s);
    var r := e.sqrt(s);
    assert s * r - 1.0 == (s - 1.0) * r + (r - 1.0);
    assert (s - 1.0) * r >= 0.0;
  }
}
