/** Quotients and remainders, for reading bit fields out of sums of fields. */
module Division {
  lemma AtLeast(k: int, z: int)
    requires k > 0
    ensures z >= 1 ==> k * z >= k
    ensures z <= -1 ==> k * z <= -k
  {
    if z >= 1 { assert k * z == k + k * (z - 1) && k * (z - 1) >= 0; }
    if z <= -1 { assert k * z == -k - k * (-1 - z) && k * (-1 - z) >= 0; }
  }

  lemma Unique(k: int, q: int, r: int, p: int, s: int)
    requires k > 0 && k * q + r == k * p + s && 0 <= r < k && 0 <= s < k
    ensures q == p && r == s
  {
    assert k * (q - p) == k * q - k * p;
    AtLeast(k, q - p);
  }

  lemma Euclid(x: int, k: int, q: int, r: int)
    requires k > 0 && x == k * q + r && 0 <= r < k
    ensures x / k == q && x % k == r
  {
    Unique(k, x / k, x % k, q, r);
  }

  /** Dividing twice is dividing once. */
  lemma DivideTwice(x: int, a: int, b: int)
    requires a > 0 && b > 0
    ensures (x / a) / b == x / (a * b)
  {
    var q, r := x / a, x % a;
    var t, u := q / b, q % b;
    Nested(x, a, b, q, r, t, u);
    Euclid(x, a * b, t, a * u + r);
  }

  lemma Nested(x: int, a: int, b: int, q: int, r: int, t: int, u: int)
    requires a > 0 && b > 0 && x == a * q + r && q == b * t + u && 0 <= r < a && 0 <= u < b
    ensures a * b > 0 && x == (a * b) * t + (a * u + r) && 0 <= a * u + r < a * b
  {
    assert a * (b * t + u) == (a * b) * t + a * u;
    assert a * b == a * u + a * (b - u);
    AtLeast(a, b - u);
    AtLeast(a, u);
    AtLeast(a, b);
  }

  /** A field does not change when a multiple of the next higher power is added. */
  lemma FieldShift(n: int, m: int, unit: int, width: int, d: int)
    requires unit > 0 && width > 0 && m == n + unit * (width * d)
    ensures (m / unit) % width == (n / unit) % width && m % unit == n % unit
    ensures m / unit == n / unit + width * d
  {
    var q, s := n / unit, n % unit;
    var t, u := q / width, q % width;
    assert n == unit * q + s && q == width * t + u;
    assert unit * (q + width * d) == unit * q + unit * (width * d);
    Euclid(m, unit, q + width * d, s);
    assert width * (t + d) == width * t + width * d;
    Euclid(q + width * d, width, t + d, u);
  }
}
