/** Shared vocabulary: optional values, results, and the bar record that flows
    through ingestion, caching and synthesis. */
module Common {

  datatype Option<+T> = None | Some(value: T)

  datatype Result<+T> = Ok(value: T) | Err(error: string)

  /** An indicator value: either a nested dictionary or an opaque scalar. */
  datatype Payload = Dict(entries: map<string, real>) | Scalar(number: real)

  type Indicators = map<string, Payload>

  /** One price bar. Times are seconds since the epoch, prices and volume are reals. */
  datatype Ohlc = Ohlc(
    symbol: string,
    timeframe: string,
    time: int,
    open: real,
    high: real,
    low: real,
    close: real,
    volume: real,
    indicators: Option<Indicators>)

  function MaxReal(a: real, b: real): real { if a >= b then a else b }

  function MinReal(a: real, b: real): real { if a <= b then a else b }

  function MaxInt(a: int, b: int): int { if a >= b then a else b }

  function MinInt(a: int, b: int): int { if a <= b then a else b }

  function AbsReal(x: real): real { if x >= 0.0 then x else -x }

  /** The last `n` elements, or everything when there are fewer. */
  function LastN<T>(s: seq<T>, n: nat): (r: seq<T>)
    ensures |r| == MinInt(n, |s|)
    ensures r == s[|s| - |r|..]
  {
    if |s| <= n then s else s[|s| - n..]
  }

  lemma ConcatAssociates<T>(a: seq<T>, b: seq<T>, c: seq<T>)
    ensures (a + b) + c == a + (b + c)
  {
  }

  /** A non-empty list is a shorter one and a last element. */
  lemma Unsnoc<T>(s: seq<T>) returns (front: seq<T>, last: T)
    requires s != []
    ensures s == front + [last] && |front| == |s| - 1
    ensures front == s[..|s| - 1] && last == s[|s| - 1]
  {
    front, last := s[..|s| - 1], s[|s| - 1];
  }

  lemma SubsetSize<T>(a: set<T>, b: set<T>)
    requires a <= b
    ensures |a| <= |b|
    ensures |a| == |b| ==> a == b
  {
    assert b == a + (b - a);
    if |a| == |b| { assert b - a == {}; }
  }

  lemma SomeMember<T>(s: set<T>) returns (t: T)
    requires s != {}
    ensures t in s
  {
    t :| t in s;
  }

  ghost predicate StrictlyIncreasing(s: seq<int>) {
    forall i, j :: 0 <= i < j < |s| ==> s[i] < s[j]
  }

  // ---------------------------------------------------------------- remainders

  lemma MulAtLeast(k: int, n: int)
    requires n > 0 && k >= 1
    ensures k * n >= n
  {
  }

  lemma SmallMultiple(k: int, n: int)
    requires n > 0 && -n < k * n < n
    ensures k == 0
  {
    if k >= 1 { MulAtLeast(k, n); }
    if -k >= 1 { MulAtLeast(-k, n); }
  }

  lemma MultipleMod(q: int, n: int)
    requires n > 0
    ensures (q * n) % n == 0
  {
    var r := (q * n) % n;
    var d := (q * n) / n;
    assert q * n == d * n + r;
    assert (q - d) * n == r;
    SmallMultiple(q - d, n);
  }

  lemma ModIs(x: int, q: int, r: int, n: int)
    requires n > 0 && 0 <= r < n && x == q * n + r
    ensures x % n == r
  {
    var d, m := x / n, x % n;
    assert x == d * n + m;
    assert (q - d) * n == m - r;
    SmallMultiple(q - d, n);
  }

  lemma ModShift(x: int, k: int, n: int)
    requires n > 0
    ensures (x + k * n) % n == x % n
  {
    var d := x / n;
    assert x + k * n == (d + k) * n + x % n;
    ModIs(x + k * n, d + k, x % n, n);
  }
}
