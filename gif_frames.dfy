/**
 * The integer parts of the photo browser's image helpers: the GCD of GIF
 * frame durations, the capped choice of source frames, the expansion of
 * frames so that every displayed frame lasts the GCD, the crop-angle
 * normalisation and the alpha-channel test.
 *
 * Swift's `%` truncates toward zero; it is written out as `TRem`.
 */
module GifFrames {
  import opened Opt

  function Abs(x: int): nat {
    if x < 0 then -x else x
  }

  /** Swift's `%`: the sign of the dividend, the magnitude of the natural remainder. */
  function TRem(x: int, y: int): (r: int)
    requires y != 0
    ensures Abs(r) < Abs(y)
    ensures x >= 0 ==> r >= 0
    ensures x <= 0 ==> r <= 0
  {
    if x >= 0 then Abs(x) % Abs(y) else -(Abs(x) % Abs(y))
  }

  /** The greatest common divisor, by Euclid on naturals. */
  function Gcd(x: nat, y: nat): nat
    decreases y
  {
    if y == 0 then x else Gcd(y, x % y)
  }

  predicate Divides(d: nat, n: nat) {
    d > 0 && n % d == 0
  }

  lemma MulAtLeast(d: int, t: int)
    requires d > 0 && t >= 1
    ensures d * t >= d
  {
    assert d * t == d * (t - 1) + d;
    assert d * (t - 1) >= 0;
  }

  /** Euclidean division is unique: a quotient and a remainder in range are `/` and `%`. */
  lemma DivModUnique(d: int, x: int, q: int, r: int)
    requires d > 0 && 0 <= r < d && x == d * q + r
    ensures x / d == q && x % d == r
  {
    var q' := x / d;
    assert d * (q - q') == x % d - r;
    if q - q' >= 1 {
      MulAtLeast(d, q - q');
    } else if q - q' <= -1 {
      MulAtLeast(d, q' - q);
    }
  }

  lemma MultipleDivides(d: nat, k: nat)
    requires d > 0
    ensures Divides(d, d * k) && (d * k) / d == k
  {
    DivModUnique(d, d * k, k, 0);
  }

  /** A divisor of `y` and of `x % y` divides `x`; a divisor of `x` and `y` divides `x % y`. */
  lemma DividesThroughMod(d: nat, x: nat, y: nat)
    requires y > 0 && d > 0
    ensures Divides(d, y) && Divides(d, x % y) ==> Divides(d, x)
    ensures Divides(d, x) && Divides(d, y) ==> Divides(d, x % y)
  {
    var q := x / y;
    assert x == y * q + x % y;
    if Divides(d, y) {
      var b := y / d;
      assert y == d * b;
      assert q * y == d * (q * b);
      if Divides(d, x % y) {
        var c := (x % y) / d;
        assert x % y == d * c;
        assert x == d * (q * b + c);
        MultipleDivides(d, q * b + c);
      }
      if Divides(d, x) {
        var a := x / d;
        assert x == d * a;
        assert x % y == d * (a - q * b);
        if a - q * b < 0 {
          MulAtLeast(d, q * b - a);
        }
        MultipleDivides(d, a - q * b);
      }
    }
  }

  /** `Gcd` divides both arguments, and every common divisor divides it. */
  lemma {:induction false} GcdIsGreatestCommonDivisor(x: nat, y: nat, c: nat)
    ensures x > 0 || y > 0 ==> Divides(Gcd(x, y), x) && Divides(Gcd(x, y), y)
    ensures Divides(c, x) && Divides(c, y) ==> Divides(c, Gcd(x, y))
    decreases y
  {
    if y == 0 {
      if x > 0 {
        MultipleDivides(x, 0);
        MultipleDivides(x, 1);
      }
    } else {
      GcdIsGreatestCommonDivisor(y, x % y, c);
      var g := Gcd(x, y);
      if g > 0 {
        DividesThroughMod(g, x, y);
      }
      if c > 0 {
        DividesThroughMod(c, x, y);
      }
    }
  }

  lemma GcdComm(x: nat, y: nat)
    ensures Gcd(x, y) == Gcd(y, x)
  {
    if x < y {
      DivModUnique(y, x, 0, x);
    } else if y < x {
      DivModUnique(x, y, 0, y);
    }
  }

  lemma GcdSelf(x: nat)
    ensures Gcd(x, x) == x
  {
    if x > 0 {
      DivModUnique(x, x, 1, 0);
    }
  }

  // ------------------------------------------------------------ gcdForPair

  /** A computed value, or the trap of a remainder by zero. */
  datatype Outcome = Value(value: int) | Trap

  /**
   * `gcdForPair` as written: a missing argument yields the other (or 0);
   * otherwise the arguments are ordered so that `num1 >= num2` and Euclid's
   * loop runs, which divides by `num2` before checking it.
   */
  function GcdPairOutcome(num1: Option<int>, num2: Option<int>): (r: Outcome)
    ensures num1.None? || num2.None? ==> r == Value(num1.GetOr(num2.GetOr(0)))
    ensures num1.Some? && num2.Some? ==>
      (r.Trap? <==> Min(num1.value, num2.value) == 0) &&
      (r.Value? ==> Abs(r.value) == Gcd(Abs(num1.value), Abs(num2.value)))
    ensures num1.Some? && num2.Some? && num1.value > 0 && num2.value > 0 ==>
      r == Value(Gcd(num1.value, num2.value))
  {
    if num1.None? || num2.None? then Value(num1.GetOr(num2.GetOr(0)))
    else
      var a := num1.value;
      var b := num2.value;
      var hi := if a < b then b else a;
      var lo := if a < b then a else b;
      GcdComm(Abs(a), Abs(b));
      if lo == 0 then Trap else Value(EuclidLoop(hi, lo))
  }

  function Min(a: int, b: int): int {
    if a < b then a else b
  }

  /** The body of the `while true` loop, from a non-zero divisor. */
  function EuclidLoop(num1: int, num2: int): (r: int)
    requires num2 != 0
    ensures Abs(r) == Gcd(Abs(num1), Abs(num2))
    ensures num1 >= 0 && num2 > 0 ==> r > 0
    decreases Abs(num2)
  {
    var rest := TRem(num1, num2);
    if rest == 0 then
      assert Abs(num1) % Abs(num2) == 0;
      num2
    else
      EuclidLoop(num2, rest)
  }

  /** `gcdForPair`, as written, with its loop. */
  method GcdForPairAsWritten(num1: Option<int>, num2: Option<int>) returns (r: Outcome)
    ensures r == GcdPairOutcome(num1, num2)
  {
    if num1.None? || num2.None? {
      return Value(num1.GetOr(num2.GetOr(0)));
    }
    var n1 := num1.value;
    var n2 := num2.value;
    if n1 < n2 {
      n1, n2 := n2, n1;
    }
    if n2 == 0 {
      return Trap;  // `num1 % num2` with `num2 == 0`
    }
    ghost var e := EuclidLoop(n1, n2);
    while true
      invariant n2 != 0 && EuclidLoop(n1, n2) == e
      decreases Abs(n2)
    {
      var rest := TRem(n1, n2);
      if rest == 0 {
        return Value(n2);
      }
      n1, n2 := n2, rest;
    }
  }

  /**
   * The remainder by zero: `gcdForArray([40, 0])` calls `gcdForPair(0, 40)`,
   * which orders the pair as (40, 0) and traps; so does a pair of zeros.
   */
  lemma GcdForPairTrapsOnZero()
    ensures GcdPairOutcome(Some(0), Some(40)) == Trap
    ensures GcdPairOutcome(Some(0), Some(0)) == Trap
    ensures Gcd(0, 40) == 40
  {
  }

  /**
   * `gcdForPair` with the zero divisor handled as Euclid's algorithm does:
   * the loop stops when the divisor is zero, so `gcd(x, 0) == x`.
   */
  method GcdForPair(num1: Option<int>, num2: Option<int>) returns (r: int)
    ensures num1.None? || num2.None? ==> r == num1.GetOr(num2.GetOr(0))
    ensures num1.Some? && num2.Some? ==> Abs(r) == Gcd(Abs(num1.value), Abs(num2.value))
    ensures num1.Some? && num2.Some? && num1.value >= 0 && num2.value >= 0 ==>
      r == Gcd(num1.value, num2.value)
  {
    if num1.None? || num2.None? {
      return num1.GetOr(num2.GetOr(0));
    }
    var n1 := num1.value;
    var n2 := num2.value;
    if n1 < n2 {
      n1, n2 := n2, n1;
    }
    GcdComm(Abs(num1.value), Abs(num2.value));
    ghost var nonneg := num1.value >= 0 && num2.value >= 0;
    while n2 != 0
      invariant Gcd(Abs(n1), Abs(n2)) == Gcd(Abs(num1.value), Abs(num2.value))
      invariant nonneg ==> n1 >= 0 && n2 >= 0
      decreases Abs(n2)
    {
      var rest := TRem(n1, n2);
      n1, n2 := n2, rest;
    }
    r := n1;
  }

  // ----------------------------------------------------------- gcdForArray

  predicate NonNegative(s: seq<int>) {
    forall k :: 0 <= k < |s| ==> s[k] >= 0
  }

  /** The GCD of all elements, folding from the front; 0 for no elements. */
  function GcdAll(s: seq<int>): nat
    requires NonNegative(s)
  {
    if |s| == 0 then 0 else Gcd(s[|s| - 1], GcdAll(s[..|s| - 1]))
  }

  /**
   * `GcdAll` divides every element and is divisible by every common divisor;
   * it is 0 exactly when every element is 0.
   */
  lemma {:induction false} GcdAllIsGreatestCommonDivisor(s: seq<int>, c: nat)
    requires NonNegative(s)
    ensures GcdAll(s) == 0 <==> (forall k :: 0 <= k < |s| ==> s[k] == 0)
    ensures GcdAll(s) > 0 ==> forall k :: 0 <= k < |s| ==> Divides(GcdAll(s), s[k])
    ensures c > 0 && (forall k :: 0 <= k < |s| ==> Divides(c, s[k])) ==> Divides(c, GcdAll(s))
  {
    if |s| == 0 {
      if c > 0 {
        MultipleDivides(c, 0);
      }
    } else {
      var p := s[..|s| - 1];
      var x := s[|s| - 1];
      assert forall k :: 0 <= k < |p| ==> p[k] == s[k];
      GcdAllIsGreatestCommonDivisor(p, c);
      var g := GcdAll(s);
      GcdIsGreatestCommonDivisor(x, GcdAll(p), c);
      GcdZeroIff(x, GcdAll(p));
      if g > 0 {
        forall k | 0 <= k < |p|
          ensures Divides(g, s[k])
        {
          if GcdAll(p) > 0 {
            DividesTransitive(g, GcdAll(p), p[k]);
          } else {
            MultipleDivides(g, 0);
          }
        }
      }
    }
  }

  lemma GcdZeroIff(x: nat, y: nat)
    ensures Gcd(x, y) == 0 <==> x == 0 && y == 0
  {
    if x > 0 || y > 0 {
      GcdIsGreatestCommonDivisor(x, y, 0);
    }
  }

  lemma DividesTransitive(a: nat, b: nat, n: nat)
    requires Divides(a, b) && Divides(b, n)
    ensures Divides(a, n)
  {
    var k := b / a;
    var m := n / b;
    assert b == a * k;
    assert n == b * m;
    assert n == a * (k * m);
    MultipleDivides(a, k * m);
  }

  /**
   * `gcdForArray`: 1 for no elements, otherwise `gcdForPair` folded over the
   * elements starting from the first. Built on the corrected `GcdForPair`.
   */
  method GcdForArray(frameDurations: seq<int>) returns (g: int)
    ensures |frameDurations| == 0 ==> g == 1
    ensures |frameDurations| > 0 && NonNegative(frameDurations) ==> g == GcdAll(frameDurations)
  {
    if |frameDurations| == 0 {
      return 1;
    }
    g := frameDurations[0];
    for i := 0 to |frameDurations|
      invariant i == 0 ==> g == frameDurations[0]
      invariant i > 0 && NonNegative(frameDurations) ==> NonNegative(frameDurations[..i]) && g == GcdAll(frameDurations[..i])
    {
      g := GcdForPair(Some(frameDurations[i]), Some(g));
      if NonNegative(frameDurations) {
        assert NonNegative(frameDurations[..i + 1]);
        assert frameDurations[..i + 1][..i] == frameDurations[..i];
        if i == 0 {
          GcdSelf(frameDurations[0]);
        }
      }
    }
    assert frameDurations[..|frameDurations|] == frameDurations;
  }

  /** The fold of `gcdForArray` as written over `s`, starting from `g0`; a trap ends it. */
  function GcdFoldAsWritten(s: seq<int>, g0: int): Outcome {
    if |s| == 0 then Value(g0)
    else match GcdFoldAsWritten(s[..|s| - 1], g0)
      case Trap => Trap
      case Value(g) => GcdPairOutcome(Some(s[|s| - 1]), Some(g))
  }

  /** `gcdForArray` as written: 1 for no elements, else `gcdForPair` folded from the first element. */
  function GcdForArrayOutcome(s: seq<int>): Outcome {
    if |s| == 0 then Value(1) else GcdFoldAsWritten(s, s[0])
  }

  /** `gcdForArray` as written, with its loop; the trap of `gcdForPair` stops it. */
  method GcdForArrayAsWritten(frameDurations: seq<int>) returns (r: Outcome)
    ensures r == GcdForArrayOutcome(frameDurations)
  {
    if |frameDurations| == 0 {
      return Value(1);
    }
    var gcd := frameDurations[0];
    for i := 0 to |frameDurations|
      invariant GcdFoldAsWritten(frameDurations[..i], frameDurations[0]) == Value(gcd)
    {
      assert frameDurations[..i + 1][..i] == frameDurations[..i];
      var step := GcdForPairAsWritten(Some(frameDurations[i]), Some(gcd));
      if step.Trap? {
        TrapPersists(frameDurations, i + 1, frameDurations[0]);
        return Trap;
      }
      gcd := step.value;
    }
    assert frameDurations[..|frameDurations|] == frameDurations;
    r := Value(gcd);
  }

  /** Once a prefix of the fold traps, the whole fold traps. */
  lemma {:induction false} TrapPersists(s: seq<int>, n: nat, g0: int)
    requires n <= |s| && GcdFoldAsWritten(s[..n], g0).Trap?
    ensures GcdFoldAsWritten(s, g0).Trap?
    decreases |s|
  {
    if n == |s| {
      assert s[..n] == s;
    } else {
      var init := s[..|s| - 1];
      assert init[..n] == s[..n];
      TrapPersists(init, n, g0);
    }
  }

  /** The fold as written traps exactly when it meets a zero, the starting value included. */
  lemma {:induction false} GcdFoldAsWrittenTraps(s: seq<int>, g0: int)
    requires NonNegative(s) && g0 >= 0
    ensures GcdFoldAsWritten(s, g0).Trap? <==> |s| > 0 && (g0 == 0 || exists k :: 0 <= k < |s| && s[k] == 0)
    ensures GcdFoldAsWritten(s, g0).Value? && |s| > 0 ==> GcdFoldAsWritten(s, g0).value > 0
  {
    if |s| > 0 {
      var init := s[..|s| - 1];
      var x := s[|s| - 1];
      assert forall k :: 0 <= k < |init| ==> init[k] == s[k];
      GcdFoldAsWrittenTraps(init, g0);
      match GcdFoldAsWritten(init, g0)
      case Trap =>
        if g0 != 0 {
          var k :| 0 <= k < |init| && init[k] == 0;
          assert s[k] == 0;
        }
      case Value(g) =>
        GcdZeroIff(x, g);
        assert forall k :: 0 <= k < |init| ==> s[k] != 0;
    }
  }

  /**
   * `gcdForArray` as written traps exactly when some duration is 0, and
   * otherwise gives a positive value; `[40, 0]` traps though its gcd is 40.
   */
  lemma GcdForArrayTrapsIffZero(s: seq<int>)
    requires NonNegative(s)
    ensures GcdForArrayOutcome(s).Trap? <==> exists k :: 0 <= k < |s| && s[k] == 0
    ensures GcdForArrayOutcome(s).Value? ==> GcdForArrayOutcome(s).value > 0
    ensures GcdForArrayOutcome([40, 0]).Trap? && GcdAll([40, 0]) == 40
  {
    if |s| > 0 {
      GcdFoldAsWrittenTraps(s, s[0]);
    }
    var e := [40, 0];
    assert NonNegative(e);
    GcdFoldAsWrittenTraps(e, 40);
    assert e[1] == 0;
  }

  // ------------------------------------------------------- frame durations

  /** The delay fields of a frame's GIF dictionary, in seconds. */
  datatype GifInfo = GifInfo(unclampedDelayTime: Option<real>, delayTime: Option<real>)

  const DEFAULT_FRAME_DURATION: real := 0.1

  /** `unclampedDelayTime ?? delayTime`. */
  function ChosenDelay(info: GifInfo): Option<real> {
    if info.unclampedDelayTime.Some? then info.unclampedDelayTime else info.delayTime
  }

  /**
   * `getFrameDuration(from: gifInfo)`: the unclamped delay, else the delay;
   * a missing dictionary, a missing delay or a delay of at most 0.011 s gives 0.1 s.
   */
  function FrameDurationFromInfo(gifInfo: Option<GifInfo>): (d: real)
    ensures d > 0.011
    ensures d != DEFAULT_FRAME_DURATION ==> gifInfo.Some? && ChosenDelay(gifInfo.value) == Some(d)
    ensures gifInfo.Some? && ChosenDelay(gifInfo.value).Some? && ChosenDelay(gifInfo.value).value > 0.011 ==>
      d == ChosenDelay(gifInfo.value).value
  {
    match gifInfo
    case None => DEFAULT_FRAME_DURATION
    case Some(info) =>
      match ChosenDelay(info)
      case None => DEFAULT_FRAME_DURATION
      case Some(t) => if t > 0.011 then t else DEFAULT_FRAME_DURATION
  }

  /**
   * `getFrameDuration(from:at:)`: 0 when the frame's properties cannot be
   * read, otherwise the duration from its GIF dictionary.
   */
  function FrameDurationAt(properties: Option<Option<GifInfo>>): (d: real)
    ensures d == 0.0 <==> properties.None?
    ensures d >= 0.0
  {
    if properties.None? then 0.0 else FrameDurationFromInfo(properties.value)
  }

  function Max(a: int, b: int): int {
    if a < b then b else a
  }

  /** `Int(floor(CGFloat(i) * ratio))` with `ratio = max(frameCount, maxFrameCount) / maxFrameCount`. */
  function SourceIndex(i: nat, frameCount: nat, maxFrameCount: nat): nat
    requires maxFrameCount > 0
  {
    (i * Max(frameCount, maxFrameCount)) / maxFrameCount
  }

  /**
   * At most `maxFrameCount` frames are taken, spread evenly over the source:
   * each index is in range, the indices never go back, and when the source
   * fits every frame is taken in order.
   */
  lemma SourceIndexInRange(i: nat, j: nat, frameCount: nat, maxFrameCount: nat)
    requires maxFrameCount > 0 && i <= j < Min(frameCount, maxFrameCount)
    ensures SourceIndex(i, frameCount, maxFrameCount) <= SourceIndex(j, frameCount, maxFrameCount) < frameCount
    ensures frameCount <= maxFrameCount ==> SourceIndex(i, frameCount, maxFrameCount) == i
  {
    var m := Max(frameCount, maxFrameCount);
    MulMonotone(m, i, j);
    DivMonotone(i * m, j * m, maxFrameCount);
    if frameCount <= maxFrameCount {
      DivModUnique(maxFrameCount, i * m, i, 0);
      DivModUnique(maxFrameCount, j * m, j, 0);
    } else {
      ScaledIndexBelow(j, frameCount, maxFrameCount);
    }
  }

  lemma ScaledIndexBelow(j: nat, frameCount: nat, maxFrameCount: nat)
    requires 0 < maxFrameCount < frameCount && j < maxFrameCount
    ensures (j * frameCount) / maxFrameCount < frameCount
  {
    var q := (j * frameCount) / maxFrameCount;
    assert maxFrameCount * q <= j * frameCount;
    if q >= frameCount {
      MulMonotone(maxFrameCount, frameCount, q);
      MulMonotone(frameCount, j + 1, maxFrameCount);
    }
  }

  lemma MulMonotone(m: nat, a: nat, b: nat)
    requires a <= b
    ensures a * m <= b * m && m * a <= m * b
  {
    assert b * m == a * m + (b - a) * m;
  }

  lemma DivMonotone(a: nat, b: nat, d: nat)
    requires a <= b && d > 0
    ensures a / d <= b / d
  {
    if a / d > b / d {
      MulAtLeast(d, a / d - b / d);
      MulSub(d, a / d, b / d);
    }
  }

  lemma MulSub(d: int, x: int, y: int)
    ensures d * x - d * y == d * (x - y)
  {
  }

  // -------------------------------------------------------- frame expansion

  function Sum(s: seq<int>): int {
    if |s| == 0 then 0 else Sum(s[..|s| - 1]) + s[|s| - 1]
  }

  function Repeat<T>(x: T, n: nat): (r: seq<T>)
    ensures |r| == n && forall k :: 0 <= k < n ==> r[k] == x
  {
    seq(n, _ => x)
  }

  /** Each image repeated once per `g` milliseconds of its duration, in order. */
  function Expand<T>(images: seq<T>, frameDurations: seq<int>, g: nat): seq<T>
    requires |images| == |frameDurations| && NonNegative(frameDurations) && g > 0
  {
    if |images| == 0 then []
    else
      var n := |images| - 1;
      Expand(images[..n], frameDurations[..n], g) + Repeat(images[n], frameDurations[n] / g)
  }

  /**
   * When `g` divides every duration, the expanded frames, each shown for `g`
   * milliseconds, last exactly the total duration.
   */
  lemma {:induction false} ExpandTiming<T>(images: seq<T>, frameDurations: seq<int>, g: nat)
    requires |images| == |frameDurations| && NonNegative(frameDurations) && g > 0
    requires forall k :: 0 <= k < |frameDurations| ==> Divides(g, frameDurations[k])
    ensures |Expand(images, frameDurations, g)| * g == Sum(frameDurations)
  {
    if |images| > 0 {
      var n := |images| - 1;
      var d := frameDurations[n];
      assert NonNegative(frameDurations[..n]);
      ExpandTiming(images[..n], frameDurations[..n], g);
      assert d == g * (d / g) + d % g;
      var e := |Expand(images[..n], frameDurations[..n], g)|;
      assert (e + d / g) * g == e * g + (d / g) * g;
    }
  }

  /** What `animateGifImage` gives back. */
  datatype GifImage<T> =
    | StaticImage                 // `UIImage(data:)`: no image source, or a single frame
    | NoImage                     // a selected frame could not be decoded
    | DivisionByZero              // `frameDuration[i] / gcd` with `gcd == 0`
    | Animated(frames: seq<T>, durationMs: int)

  /** The total duration, the GCD of the durations and the expanded frames. */
  method ExpandFrames<T>(images: seq<T>, frameDurations: seq<int>) returns (r: GifImage<T>)
    requires |images| == |frameDurations| && NonNegative(frameDurations)
    ensures r.DivisionByZero? || r.Animated?
    ensures r.DivisionByZero? <==> |images| > 0 && forall k :: 0 <= k < |frameDurations| ==> frameDurations[k] == 0
    ensures r.Animated? ==>
      var g := if |images| == 0 then 1 else GcdAll(frameDurations);
      g > 0 &&
      r.durationMs == Sum(frameDurations) &&
      r.frames == Expand(images, frameDurations, g) &&
      |r.frames| * g == r.durationMs
  {
    var duration := TotalDuration(frameDurations);
    var g := GcdForArray(frameDurations);
    GcdAllIsGreatestCommonDivisor(frameDurations, 1);
    if |images| > 0 && g == 0 {
      return DivisionByZero;
    }
    var frames := RepeatFrames(images, frameDurations, g);
    if |images| > 0 {
      ExpandTiming(images, frameDurations, g);
    }
    r := Animated(frames, duration);
  }

  /** The `duration` closure: the sum of the frame durations. */
  method TotalDuration(frameDurations: seq<int>) returns (duration: int)
    ensures duration == Sum(frameDurations)
  {
    duration := 0;
    for i := 0 to |frameDurations|
      invariant duration == Sum(frameDurations[..i])
    {
      duration := duration + frameDurations[i];
      assert frameDurations[..i + 1][..i] == frameDurations[..i];
    }
    assert frameDurations[..|frameDurations|] == frameDurations;
  }

  /** The frame loop: each image appended `frameDuration[i] / gcd` times. */
  method RepeatFrames<T>(images: seq<T>, frameDurations: seq<int>, g: nat) returns (frames: seq<T>)
    requires |images| == |frameDurations| && NonNegative(frameDurations) && g > 0
    ensures frames == Expand(images, frameDurations, g)
  {
    frames := [];
    for i := 0 to |images|
      invariant NonNegative(frameDurations[..i])
      invariant frames == Expand(images[..i], frameDurations[..i], g)
    {
      var count := frameDurations[i] / g;
      ghost var before := frames;
      for j := 0 to count
        invariant frames == before + Repeat(images[i], j)
      {
        frames := frames + [images[i]];
      }
      assert images[..i + 1][..i] == images[..i];
      assert frameDurations[..i + 1][..i] == frameDurations[..i];
    }
    assert images[..|images|] == images;
    assert frameDurations[..|images|] == frameDurations;
  }

  // ------------------------------------------------------- animateGifImage

  /** The duration scale `min(ratio, 3)`, with `ratio = max(frameCount, maxFrameCount) / maxFrameCount`. */
  function DurationScale(frameCount: nat, maxFrameCount: nat): (k: real)
    requires maxFrameCount > 0
    ensures 1.0 <= k <= 3.0
  {
    var ratio := Max(frameCount, maxFrameCount) as real / maxFrameCount as real;
    if ratio < 3.0 then ratio else 3.0
  }

  /** `Int(currFrameDuration * 1000)`: the scaled duration in whole milliseconds. */
  function DurationMs(seconds: real, scale: real): (ms: int)
    requires seconds >= 0.0 && scale >= 1.0
    ensures ms >= 0
    ensures ms == 0 <==> seconds == 0.0 || seconds * scale * 1000.0 < 1.0
  {
    (seconds * scale * 1000.0).Floor
  }

  /** The duration of the `i`-th selected frame. */
  function SelectedDuration(i: nat, frameCount: nat, maxFrameCount: nat,
                            propertiesAt: nat -> Option<Option<GifInfo>>): int
    requires maxFrameCount > 0
  {
    DurationMs(FrameDurationAt(propertiesAt(SourceIndex(i, frameCount, maxFrameCount))),
               DurationScale(frameCount, maxFrameCount))
  }

  /** A frame whose properties can be read lasts at least 11 ms; one whose properties cannot lasts 0. */
  lemma SelectedDurationZeroIff(i: nat, frameCount: nat, maxFrameCount: nat,
                                propertiesAt: nat -> Option<Option<GifInfo>>)
    requires maxFrameCount > 0
    ensures var d := SelectedDuration(i, frameCount, maxFrameCount, propertiesAt);
      (d == 0 <==> propertiesAt(SourceIndex(i, frameCount, maxFrameCount)).None?) &&
      (d != 0 ==> d >= 11)
  {
    var t := FrameDurationAt(propertiesAt(SourceIndex(i, frameCount, maxFrameCount)));
    var k := DurationScale(frameCount, maxFrameCount);
    if t != 0.0 {
      ScaleAtLeast(t, k);
    }
  }

  lemma ScaleAtLeast(t: real, k: real)
    requires t >= 0.0 && k >= 1.0
    ensures t * k >= t
  {
    assert t * k - t == t * (k - 1.0);
  }

  function SelectedDurations(frameCount: nat, maxFrameCount: nat,
                             propertiesAt: nat -> Option<Option<GifInfo>>): (ds: seq<int>)
    ensures |ds| == Min(frameCount, maxFrameCount)
  {
    if maxFrameCount == 0 then []
    else
      seq(Min(frameCount, maxFrameCount), i requires 0 <= i =>
        SelectedDuration(i, frameCount, maxFrameCount, propertiesAt))
  }

  /** Every selected frame could be decoded. */
  predicate AllDecoded<T>(frameCount: nat, maxFrameCount: nat, imageAt: nat -> Option<T>) {
    maxFrameCount > 0 ==>
      forall i :: 0 <= i < Min(frameCount, maxFrameCount) ==> imageAt(SourceIndex(i, frameCount, maxFrameCount)).Some?
  }

  function SelectedImages<T>(frameCount: nat, maxFrameCount: nat, imageAt: nat -> Option<T>): (images: seq<T>)
    requires AllDecoded(frameCount, maxFrameCount, imageAt)
    ensures |images| == Min(frameCount, maxFrameCount)
  {
    if maxFrameCount == 0 then []
    else
      seq(Min(frameCount, maxFrameCount), i requires 0 <= i < Min(frameCount, maxFrameCount) =>
        imageAt(SourceIndex(i, frameCount, maxFrameCount)).value)
  }

  /**
   * `animateGifImage`: a still image when there is no image source or at
   * most one frame; otherwise at most `maxFrameCount` frames spread over the
   * source, each repeated once per GCD of the durations, for the total
   * duration. Decoding and frame properties are `imageAt` and `propertiesAt`.
   */
  method AnimateGif<T>(hasImageSource: bool, frameCount: nat, maxFrameCount: nat,
                       imageAt: nat -> Option<T>, propertiesAt: nat -> Option<Option<GifInfo>>)
    returns (r: GifImage<T>)
    ensures r.StaticImage? <==> !hasImageSource || frameCount <= 1
    ensures r.NoImage? <==> hasImageSource && frameCount > 1 && !AllDecoded(frameCount, maxFrameCount, imageAt)
    ensures r.DivisionByZero? ==>
      maxFrameCount > 0 &&
      forall i :: 0 <= i < Min(frameCount, maxFrameCount) ==>
        propertiesAt(SourceIndex(i, frameCount, maxFrameCount)).None?
    ensures r.Animated? ==>
      var ds := SelectedDurations(frameCount, maxFrameCount, propertiesAt);
      var g := if maxFrameCount == 0 then 1 else GcdAll(ds);
      AllDecoded(frameCount, maxFrameCount, imageAt) &&
      g > 0 &&
      r.durationMs == Sum(ds) &&
      r.frames == Expand(SelectedImages(frameCount, maxFrameCount, imageAt), ds, g) &&
      |r.frames| * g == r.durationMs
  {
    if !hasImageSource || frameCount <= 1 {
      return StaticImage;
    }
    var n := Min(frameCount, maxFrameCount);
    var images: seq<T> := [];
    var frameDurations: seq<int> := [];
    for i := 0 to n
      invariant |images| == i && |frameDurations| == i
      invariant forall k :: 0 <= k < i ==>
        imageAt(SourceIndex(k, frameCount, maxFrameCount)) == Some(images[k]) &&
        frameDurations[k] == SelectedDuration(k, frameCount, maxFrameCount, propertiesAt)
    {
      var index := SourceIndex(i, frameCount, maxFrameCount);
      var imageRef := imageAt(index);
      if imageRef.None? {
        return NoImage;
      }
      var seconds := FrameDurationAt(propertiesAt(index));
      frameDurations := frameDurations + [DurationMs(seconds, DurationScale(frameCount, maxFrameCount))];
      images := images + [imageRef.value];
    }
    assert maxFrameCount > 0 ==> images == SelectedImages(frameCount, maxFrameCount, imageAt);
    assert frameDurations == SelectedDurations(frameCount, maxFrameCount, propertiesAt);
    r := ExpandFrames(images, frameDurations);
    if r.DivisionByZero? {
      forall i | 0 <= i < n
        ensures propertiesAt(SourceIndex(i, frameCount, maxFrameCount)).None?
      {
        SelectedDurationZeroIff(i, frameCount, maxFrameCount, propertiesAt);
      }
    }
  }

  /**
   * As written, once every selected frame decodes, `animateGifImage` traps in
   * `gcdForPair` exactly when some selected frame's properties cannot be read.
   */
  lemma AnimateGifTrapsAsWritten(frameCount: nat, maxFrameCount: nat,
                                 propertiesAt: nat -> Option<Option<GifInfo>>)
    requires maxFrameCount > 0
    ensures GcdForArrayOutcome(SelectedDurations(frameCount, maxFrameCount, propertiesAt)).Trap? <==>
      exists i :: 0 <= i < Min(frameCount, maxFrameCount) && propertiesAt(SourceIndex(i, frameCount, maxFrameCount)).None?
  {
    var ds := SelectedDurations(frameCount, maxFrameCount, propertiesAt);
    forall k | 0 <= k < |ds|
      ensures ds[k] >= 0 && (ds[k] == 0 <==> propertiesAt(SourceIndex(k, frameCount, maxFrameCount)).None?)
    {
      SelectedDurationZeroIff(k, frameCount, maxFrameCount, propertiesAt);
    }
    GcdForArrayTrapsIffZero(ds);
  }

  // ---------------------------------------------------------------- clipImage

  /** Swift's `Int(_: CGFloat)`: truncation toward zero. */
  function Truncate(x: real): (n: int)
    ensures Abs(n) as real <= (if x < 0.0 then -x else x)
    ensures (x >= 0.0 ==> n >= 0) && (x <= 0.0 ==> n <= 0)
  {
    if x >= 0.0 then x.Floor else -((-x).Floor)
  }

  /** `((Int(angle) % 360) - 360) % 360`: the crop angle brought into (-360, 0]. */
  function ClipAngle(angle: real): (a: int)
    ensures -360 < a <= 0
    ensures (a - Truncate(angle)) % 360 == 0
  {
    var t := Truncate(angle);
    var r := TRem(t, 360);
    TRemCongruent(t);
    TRemCongruent(r - 360);
    MultiplesOf360(TRem(r - 360, 360) - (r - 360), r - t);
    TRem(r - 360, 360)
  }

  /** Swift's `%` by 360 differs from its dividend by a multiple of 360. */
  lemma TRemCongruent(x: int)
    ensures (TRem(x, 360) - x) % 360 == 0
  {
    if x >= 0 {
      assert x == 360 * (x / 360) + x % 360;
    } else {
      assert -x == 360 * ((-x) / 360) + (-x) % 360;
    }
  }

  lemma MultiplesOf360(u: int, v: int)
    requires u % 360 == 0 && v % 360 == 0
    ensures (u + v - 360) % 360 == 0
  {
    assert u == 360 * (u / 360) && v == 360 * (v / 360);
    assert u + v - 360 == 360 * (u / 360 + v / 360 - 1);
  }

  datatype Rotation = NoRotation | RotateLeft | RotateDown | RotateRight

  /** The rotation `clipImage` applies before cropping. */
  function ClipRotation(angle: real): Rotation {
    var a := ClipAngle(angle);
    if a == -90 then RotateLeft
    else if a == -180 then RotateDown
    else if a == -270 then RotateRight
    else NoRotation
  }

  /**
   * The rotation depends only on the truncated angle modulo a full turn:
   * 270 degrees turns left, 180 down, 90 right, anything else not at all.
   */
  lemma ClipRotationByQuarterTurns(angle: real)
    ensures var t := Truncate(angle) % 360;
      (ClipRotation(angle) == RotateLeft <==> t == 270) &&
      (ClipRotation(angle) == RotateDown <==> t == 180) &&
      (ClipRotation(angle) == RotateRight <==> t == 90) &&
      (ClipRotation(angle) == NoRotation <==> t != 90 && t != 180 && t != 270)
  {
    var a := ClipAngle(angle);
    var t := Truncate(angle);
    assert a % 360 == t % 360;
    assert a == 0 || a % 360 == a + 360;
  }

  // ---------------------------------------------------------- hasAlphaChannel

  /** Core Graphics' `CGImageAlphaInfo`. */
  datatype AlphaInfo =
    | AlphaNone | PremultipliedLast | PremultipliedFirst | Last | First
    | NoneSkipLast | NoneSkipFirst | AlphaOnly

  /** The raw value Core Graphics gives each case. */
  function RawValue(info: AlphaInfo): nat {
    match info
    case AlphaNone => 0
    case PremultipliedLast => 1
    case PremultipliedFirst => 2
    case Last => 3
    case First => 4
    case NoneSkipLast => 5
    case NoneSkipFirst => 6
    case AlphaOnly => 7
  }

  /** `hasAlphaChannel`: false without a bitmap; true for the four colour-plus-alpha layouts. */
  predicate HasAlphaChannel(alphaInfo: Option<AlphaInfo>) {
    alphaInfo.Some? &&
    (alphaInfo.value == First || alphaInfo.value == Last ||
     alphaInfo.value == PremultipliedFirst || alphaInfo.value == PremultipliedLast)
  }

  /** Exactly the layouts with raw values 1 to 4 count as having alpha; alpha-only does not. */
  lemma HasAlphaChannelIff(alphaInfo: Option<AlphaInfo>)
    ensures HasAlphaChannel(alphaInfo) <==> alphaInfo.Some? && 1 <= RawValue(alphaInfo.value) <= 4
    ensures !HasAlphaChannel(Some(AlphaOnly)) && !HasAlphaChannel(None)
  {
  }
}
