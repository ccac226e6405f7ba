/** Signs of products of reals.  Each product is passed as a variable of its own, so that its sign and its value
    stay related. */
module RealProducts {

  lemma Positive(x: real, y: real, p: real)
    requires x > 0.0 && y > 0.0 && p == x * y
    ensures p > 0.0
  {}

  lemma NotNegative(x: real, y: real, p: real)
    requires x >= 0.0 && y >= 0.0 && p == x * y
    ensures p >= 0.0
  {}

  /** A fraction of a difference lies between 0 and the difference. */
  lemma PartOf(alpha: real, d: real, p: real)
    requires 0.0 <= alpha <= 1.0 && p == alpha * d
    ensures d >= 0.0 ==> 0.0 <= p <= d
    ensures d <= 0.0 ==> d <= p <= 0.0
  {
    var rest := (1.0 - alpha) * d;
    assert rest == d - p;
    if d >= 0.0 {
      NotNegative(alpha, d, p);
      NotNegative(1.0 - alpha, d, rest);
    } else {
      NotNegative(alpha, -d, -p);
      NotNegative(1.0 - alpha, -d, -rest);
    }
  }
}
