/**
 * Shared constants and pure helpers of the runner: the enumerations, the
 * track's lane geometry, axis-aligned rectangle overlap, interpolation and
 * easing curves, the speed curve, score formatting and the random-range
 * helpers (the random draw is a parameter).
 */
module Utils {

  /** A value that may be absent. */
  datatype Option<T> = None | Some(value: T)

  // ---------------------------------------------------------------------------
  // Enumerations
  // ---------------------------------------------------------------------------

  /** Top-level session phase. */
  datatype GamePhase = Menu | Countdown | Playing | Paused | GameOver

  /** Action state of the runner. */
  datatype PlayerState = Running | Jumping | Sliding

  /** The three obstacle archetypes. */
  datatype ObstacleType = TallHurdle | SmallHurdle | OverheadBarrier

  const LeftLane: int := 0
  const MiddleLane: int := 1
  const RightLane: int := 2

  /** The obstacle types in the order in which they are enumerated for a random pick. */
  const ObstacleTypes: seq<ObstacleType> := [TallHurdle, SmallHurdle, OverheadBarrier]

  /** A keyboard key, after lower-casing its name; only the keys the game reacts to are told apart. */
  datatype Key = KeyA | KeyD | KeyW | KeyS | KeyP | OtherKey

  /**
   * The key a key name stands for once it is lower-cased: only the ten
   * one-letter names of the game's keys, in either case, are told apart.
   */
  function KeyOf(name: string): (k: Key)
    ensures k != OtherKey <==> |name| == 1 && name[0] in "adwspADWSP"
  {
    if name == "a" || name == "A" then KeyA
    else if name == "d" || name == "D" then KeyD
    else if name == "w" || name == "W" then KeyW
    else if name == "s" || name == "S" then KeyS
    else if name == "p" || name == "P" then KeyP
    else OtherKey
  }

  /** A letter and its capital stand for the same key. */
  lemma KeyOfIgnoresCase(c: char)
    requires 'a' <= c <= 'z'
    ensures KeyOf([c]) == KeyOf([(c as int - 32) as char])
  {
  }

  // ---------------------------------------------------------------------------
  // Track geometry
  // ---------------------------------------------------------------------------

  const TrackWidth: real := 10.0
  const LaneCount: int := 3
  const LaneWidth: real := TrackWidth / 3.0

  /** Lateral coordinate of the centre of a lane. */
  function LaneCenter(lane: int): (cx: real)
    ensures lane == MiddleLane ==> cx == 0.0
    ensures 0 <= lane < LaneCount ==>
      -TrackWidth / 2.0 <= cx - LaneWidth / 2.0 && cx + LaneWidth / 2.0 <= TrackWidth / 2.0
  {
    -TrackWidth / 2.0 + (lane as real + 0.5) * LaneWidth
  }

  /** Neighbouring lanes are one lane width apart. */
  lemma LaneCentersSpaced(lane: int)
    ensures LaneCenter(lane + 1) - LaneCenter(lane) == LaneWidth
  {
  }

  // ---------------------------------------------------------------------------
  // Axis-aligned rectangles
  // ---------------------------------------------------------------------------

  /** An axis-aligned rectangle: lower-left corner (x, y), width and height. */
  datatype Rect = Rect(x: real, y: real, width: real, height: real)

  /**
   * Overlap test with strict inequalities on both axes. Overlapping
   * rectangles have a positive combined width and height.
   */
  predicate CheckCollision(a: Rect, b: Rect)
    ensures CheckCollision(a, b) ==> a.width + b.width > 0.0 && a.height + b.height > 0.0
  {
    a.x < b.x + b.width &&
    a.x + a.width > b.x &&
    a.y < b.y + b.height &&
    a.y + a.height > b.y
  }

  lemma CollisionSymmetric(a: Rect, b: Rect)
    ensures CheckCollision(a, b) == CheckCollision(b, a)
  {
  }

  /** Rectangles separated (or only touching) along x or along y never collide. */
  lemma SeparatedNeverCollide(a: Rect, b: Rect)
    requires a.x + a.width <= b.x || b.x + b.width <= a.x ||
             a.y + a.height <= b.y || b.y + b.height <= a.y
    ensures !CheckCollision(a, b)
  {
  }

  /** A rectangle collides with itself exactly when it has positive width and height. */
  lemma SelfCollision(a: Rect)
    ensures CheckCollision(a, a) <==> a.width > 0.0 && a.height > 0.0
  {
  }

  // ---------------------------------------------------------------------------
  // Interpolation and easing
  // ---------------------------------------------------------------------------

  function Min(a: real, b: real): real { if a <= b then a else b }
  function Max(a: real, b: real): real { if a <= b then b else a }

  /** Linear interpolation from start (t = 0) to end (t = 1). */
  function Lerp(start: real, end: real, t: real): (r: real)
    ensures t == 0.0 ==> r == start
    ensures t == 1.0 ==> r == end
    ensures start == end ==> r == start
    ensures r - start == (end - start) * t
  {
    start * (1.0 - t) + end * t
  }

  /** For t in [0, 1] the interpolated value lies between the two end points. */
  lemma LerpBetween(start: real, end: real, t: real)
    requires 0.0 <= t <= 1.0
    ensures Min(start, end) <= Lerp(start, end, t) <= Max(start, end)
  {
    var d := end - start;
    var r := Lerp(start, end, t);
    assert r - start == d * t;
    if d >= 0.0 {
      MulMonotone(0.0, t, d);
      MulMonotone(t, 1.0, d);
      assert 0.0 <= t * d <= d;
    } else {
      MulMonotone(0.0, t, -d);
      MulMonotone(t, 1.0, -d);
      assert 0.0 <= t * -d <= -d;
      assert d <= d * t <= 0.0;
    }
  }

  /** One interpolation step with factor t leaves a (1 - t) fraction of the gap to the target. */
  lemma LerpShrinksGap(start: real, end: real, t: real)
    ensures end - Lerp(start, end, t) == (1.0 - t) * (end - start)
  {
  }

  /** Quadratic ease-in/ease-out curve. */
  function EaseInOut(t: real): (r: real)
    ensures t == 0.0 ==> r == 0.0
    ensures t == 0.5 ==> r == 0.5
    ensures t == 1.0 ==> r == 1.0
  {
    if t < 0.5 then 2.0 * t * t else -1.0 + (4.0 - 2.0 * t) * t
  }

  /** On [0, 1] the curve stays in [0, 1]. */
  lemma EaseInOutRange(t: real)
    requires 0.0 <= t <= 1.0
    ensures 0.0 <= EaseInOut(t) <= 1.0
  {
    if t < 0.5 {
      assert 2.0 * t * t <= 2.0 * 0.5 * t;
    } else {
      var u := 1.0 - t;
      assert EaseInOut(t) == 1.0 - 2.0 * u * u;
      assert 2.0 * u * u <= 2.0 * 0.5 * u;
    }
  }

  /** On [0, 1] the curve is non-decreasing. */
  lemma EaseInOutMonotone(s: real, t: real)
    requires 0.0 <= s <= t <= 1.0
    ensures EaseInOut(s) <= EaseInOut(t)
  {
    if t < 0.5 {
      SquareMonotone(s, t);
      assert EaseInOut(s) == 2.0 * (s * s) && EaseInOut(t) == 2.0 * (t * t);
    } else if s >= 0.5 {
      EaseInOutUpperHalf(s);
      EaseInOutUpperHalf(t);
      SquareMonotone(1.0 - t, 1.0 - s);
    } else {
      SquareMonotone(s, 0.5);
      assert EaseInOut(s) == 2.0 * (s * s);
      EaseInOutUpperHalf(t);
      SquareMonotone(1.0 - t, 0.5);
    }
  }

  /** On the upper half the curve is 1 - 2(1 - t)^2. */
  lemma EaseInOutUpperHalf(t: real)
    requires t >= 0.5
    ensures EaseInOut(t) == 1.0 - 2.0 * ((1.0 - t) * (1.0 - t))
  {
  }

  lemma SquareMonotone(a: real, b: real)
    requires 0.0 <= a <= b
    ensures a * a <= b * b
  {
    MulMonotone(a, b, a);
    MulMonotone(a, b, b);
  }

  lemma MulMonotone(a: real, b: real, c: real)
    requires a <= b && c >= 0.0
    ensures a * c <= b * c
  {
    assert b * c - a * c == (b - a) * c;
  }

  /** The curve is point-symmetric about (0.5, 0.5). */
  lemma EaseInOutSymmetric(t: real)
    requires 0.0 <= t <= 1.0
    ensures EaseInOut(1.0 - t) == 1.0 - EaseInOut(t)
  {
    if t < 0.5 {
      assert EaseInOut(1.0 - t) == -1.0 + (4.0 - 2.0 * (1.0 - t)) * (1.0 - t);
    } else if t > 0.5 {
      assert EaseInOut(t) == -1.0 + (4.0 - 2.0 * t) * t;
    }
  }

  // ---------------------------------------------------------------------------
  // Speed curve
  // ---------------------------------------------------------------------------

  const BaseSpeed: real := 5.0
  const MaxSpeedIncrease: real := 10.0

  /** Base speed plus one unit per 1000 points, saturating ten units above the base. */
  function CalculateGameSpeed(score: int): (speed: real)
    ensures speed == BaseSpeed <==> score == 0
    ensures score >= 0 ==> BaseSpeed <= speed <= BaseSpeed + MaxSpeedIncrease
    ensures score >= 10000 ==> speed == BaseSpeed + MaxSpeedIncrease
    ensures 0 <= score <= 10000 ==> speed == BaseSpeed + score as real / 1000.0
  {
    var increase := score as real / 1000.0;
    BaseSpeed + (if increase < MaxSpeedIncrease then increase else MaxSpeedIncrease)
  }

  lemma GameSpeedMonotone(s: int, t: int)
    requires s <= t
    ensures CalculateGameSpeed(s) <= CalculateGameSpeed(t)
  {
  }

  // ---------------------------------------------------------------------------
  // Score formatting
  // ---------------------------------------------------------------------------

  predicate IsDigit(c: char) { '0' <= c <= '9' }

  predicate AllDigits(s: string) { forall i :: 0 <= i < |s| ==> IsDigit(s[i]) }

  function DigitChar(d: int): (c: char)
    requires 0 <= d <= 9
    ensures IsDigit(c)
  {
    "0123456789"[d]
  }

  function DigitValue(c: char): (d: nat)
    requires IsDigit(c)
    ensures d <= 9
  {
    (c as int - '0' as int) as nat
  }

  /** The decimal representation of a non-negative integer, without leading zeros. */
  function DecimalString(n: nat): (s: string)
    ensures |s| >= 1 && AllDigits(s)
    ensures s[0] == '0' ==> n == 0
    ensures n < 10 ==> |s| == 1
    ensures n < 100 ==> |s| <= 2
    ensures n < 1000 ==> |s| <= 3
    decreases n
  {
    if n < 10 then [DigitChar(n)] else DecimalString(n / 10) + [DigitChar(n % 10)]
  }

  /** The number a digit string denotes. */
  function DecimalValue(s: string): nat
    requires AllDigits(s)
  {
    if s == [] then 0 else DecimalValue(s[..|s| - 1]) * 10 + DigitValue(s[|s| - 1])
  }

  /** Reading back the decimal representation gives the number. */
  lemma {:induction false} DecimalRoundTrip(n: nat)
    ensures DecimalValue(DecimalString(n)) == n
    decreases n
  {
    var s := DecimalString(n);
    if n < 10 {
      assert s[..0] == [];
    } else {
      DecimalRoundTrip(n / 10);
      assert s[..|s| - 1] == DecimalString(n / 10);
    }
  }

  /** Inserts a comma before every group of three digits counted from the right. */
  function GroupThousands(ds: string): string
    decreases |ds|
  {
    if |ds| <= 3 then ds else GroupThousands(ds[..|ds| - 3]) + "," + ds[|ds| - 3..]
  }

  /** The score with its digits grouped in threes. */
  function FormatScore(score: nat): (r: string)
    ensures |r| >= 1
    ensures score < 1000 ==> r == DecimalString(score)
  {
    GroupThousands(DecimalString(score))
  }

  /** The string with every comma deleted. */
  function RemoveCommas(s: string): string
  {
    if s == [] then []
    else (if s[0] == ',' then [] else [s[0]]) + RemoveCommas(s[1..])
  }

  lemma {:induction false} RemoveCommasAppend(a: string, b: string)
    ensures RemoveCommas(a + b) == RemoveCommas(a) + RemoveCommas(b)
    decreases |a|
  {
    if a == [] {
      assert a + b == b;
    } else {
      assert (a + b)[1..] == a[1..] + b;
      RemoveCommasAppend(a[1..], b);
    }
  }

  lemma {:induction false} RemoveCommasNone(s: string)
    requires ',' !in s
    ensures RemoveCommas(s) == s
    decreases |s|
  {
    if s != [] {
      RemoveCommasNone(s[1..]);
    }
  }

  /** A digit string holds no comma. */
  lemma DigitsHaveNoComma(ds: string)
    requires AllDigits(ds)
    ensures ',' !in ds
  {
    forall i | 0 <= i < |ds| ensures ds[i] != ',' {
      assert IsDigit(ds[i]);
    }
  }

  /** Joining two pieces with a comma and then deleting the commas joins the pieces' comma-free forms. */
  lemma RemoveCommasJoin(g: string, lo: string)
    requires ',' !in lo
    ensures RemoveCommas(g + "," + lo) == RemoveCommas(g) + lo
  {
    var gc := g + ",";
    var none := RemoveCommas(",");
    assert none == [];
    RemoveCommasAppend(g, ",");
    assert RemoveCommas(gc) == RemoveCommas(g) + none;
    assert RemoveCommas(gc) == RemoveCommas(g);
    RemoveCommasAppend(gc, lo);
    RemoveCommasNone(lo);
  }

  /** Both halves of a digit string are digit strings. */
  lemma DigitsSplit(ds: string, k: nat)
    requires AllDigits(ds) && k <= |ds|
    ensures AllDigits(ds[..k]) && AllDigits(ds[k..])
  {
    assert forall i :: 0 <= i < k ==> ds[..k][i] == ds[i];
    assert forall i :: 0 <= i < |ds| - k ==> ds[k..][i] == ds[k + i];
  }

  lemma {:induction false} GroupThousandsUngroups(ds: string)
    requires AllDigits(ds)
    ensures RemoveCommas(GroupThousands(ds)) == ds
    decreases |ds|
  {
    DigitsHaveNoComma(ds);
    if |ds| <= 3 {
      RemoveCommasNone(ds);
    } else {
      var hi, lo := ds[..|ds| - 3], ds[|ds| - 3..];
      DigitsSplit(ds, |ds| - 3);
      DigitsHaveNoComma(lo);
      GroupThousandsUngroups(hi);
      RemoveCommasJoin(GroupThousands(hi), lo);
      assert hi + lo == ds;
    }
  }

  /** Deleting the commas of a formatted score gives back its plain decimal string. */
  lemma FormatScoreRemoveCommas(n: nat)
    ensures RemoveCommas(FormatScore(n)) == DecimalString(n)
  {
    GroupThousandsUngroups(DecimalString(n));
  }

  /**
   * Layout of a grouped digit string: counting from the right, every fourth
   * character is a comma and every other one a digit, and the string never
   * starts with a comma; so the first group has one to three digits and every
   * later group exactly three.
   */
  predicate GroupedLayout(r: string)
  {
    |r| % 4 != 0 &&
    forall i :: 0 <= i < |r| ==> (r[i] == ',' <==> (|r| - i) % 4 == 0) && (r[i] != ',' ==> IsDigit(r[i]))
  }

  lemma {:induction false} GroupThousandsLayout(ds: string)
    requires |ds| >= 1 && AllDigits(ds)
    ensures GroupedLayout(GroupThousands(ds))
    ensures |GroupThousands(ds)| == |ds| + (|ds| - 1) / 3
    decreases |ds|
  {
    if |ds| > 3 {
      var hi, lo := ds[..|ds| - 3], ds[|ds| - 3..];
      GroupThousandsLayout(hi);
      assert GroupThousands(ds) == GroupThousands(hi) + "," + lo;
      GroupedLayoutAppend(GroupThousands(hi), lo);
    }
  }

  /** A grouped string followed by a comma and three digits is still grouped. */
  lemma GroupedLayoutAppend(g: string, lo: string)
    requires GroupedLayout(g) && |lo| == 3 && AllDigits(lo)
    ensures GroupedLayout(g + "," + lo)
  {
    var r := g + "," + lo;
    assert |r| == |g| + 4;
    forall i | 0 <= i < |r|
      ensures (r[i] == ',' <==> (|r| - i) % 4 == 0) && (r[i] != ',' ==> IsDigit(r[i]))
    {
      if i < |g| {
        assert r[i] == g[i];
        assert (|r| - i) % 4 == (|g| - i) % 4;
      } else if i > |g| {
        assert r[i] == lo[i - |g| - 1];
      }
    }
  }

  /** A formatted score is grouped in threes from the right, the first group holding one to three digits. */
  lemma FormatScoreLayout(n: nat)
    ensures GroupedLayout(FormatScore(n))
  {
    GroupThousandsLayout(DecimalString(n));
  }

  /** Scores below one thousand are not changed by formatting. */
  lemma FormatScoreSmall(n: nat)
    requires n < 1000
    ensures FormatScore(n) == DecimalString(n)
  {
  }

  // ---------------------------------------------------------------------------
  // Random-range helpers (the random draw is a parameter)
  // ---------------------------------------------------------------------------

  /** A value that a uniform random draw can produce: a real in [0, 1). */
  type Draw = r: real | 0.0 <= r < 1.0

  /** The integer in [min, max] that the draw r selects. */
  function RandomInt(min: int, max: int, r: Draw): (k: int)
    ensures min <= max ==> min <= k <= max
  {
    var n := max - min + 1;
    if n > 0 then
      assert 0.0 <= r * n as real < n as real by {
        assert r * n as real < 1.0 * n as real;
      }
      (r * n as real).Floor + min
    else
      (r * n as real).Floor + min
  }

  /** Every integer of [min, max] is selected by some draw. */
  lemma RandomIntReachesAll(min: int, max: int, k: int)
    requires min <= k <= max
    ensures var n := max - min + 1; RandomInt(min, max, (k - min) as real / n as real) == k
  {
    var n := max - min + 1;
    var r: real := (k - min) as real / n as real;
    assert r * n as real == (k - min) as real;
  }

  function RandomLane(r: Draw): (lane: int)
    ensures LeftLane <= lane <= RightLane
  {
    RandomInt(0, 2, r)
  }

  /** The obstacle type a draw picks: the draw's integer in [0, 2] indexes the types in their enumeration order. */
  function RandomObstacleType(r: Draw): (t: ObstacleType)
    ensures t == ObstacleTypes[RandomInt(0, 2, r)]
    ensures r < 1.0 / 3.0 ==> t == TallHurdle
    ensures 2.0 / 3.0 <= r ==> t == OverheadBarrier
  {
    ObstacleTypes[RandomInt(0, |ObstacleTypes| - 1, r)]
  }

  /** Every obstacle type is picked by some draw. */
  lemma RandomObstacleTypeReachesAll(t: ObstacleType)
    ensures exists r: Draw :: RandomObstacleType(r) == t
  {
    var k := if t == TallHurdle then 0 else if t == SmallHurdle then 1 else 2;
    RandomIntReachesAll(0, 2, k);
    var r: Draw := k as real / 3.0;
    assert RandomObstacleType(r) == t;
  }

  // ---------------------------------------------------------------------------
  // Arithmetic as the host language does it
  // ---------------------------------------------------------------------------

  /** Rounds towards zero. */
  function Trunc(a: real): int
  {
    if a >= 0.0 then a.Floor else -((-a).Floor)
  }

  /** Remainder that takes the sign of the dividend, as the `%` operator on numbers does. */
  function JsMod(a: real, m: real): real
    requires m != 0.0
  {
    a - m * Trunc(a / m) as real
  }

  /** For a non-negative dividend and positive modulus the remainder lies in [0, m). */
  lemma JsModRange(a: real, m: real)
    requires a >= 0.0 && m > 0.0
    ensures 0.0 <= JsMod(a, m) < m
  {
    var q := a / m;
    assert q * m == a;
    var f := q.Floor;
    assert Trunc(q) == f;
    var frac := q - f as real;
    assert 0.0 <= frac < 1.0;
    assert JsMod(a, m) == frac * m;
    MulMonotone(0.0, frac, m);
    assert (1.0 - frac) * m > 0.0;
  }
}
