/** The two computations of `getContent` that decide what each page shows. */
module Content {

  /** The window test: a page more than one away from the shown one is an empty placeholder. */
  predicate IsLivePage(current: int, index: int)
    ensures IsLivePage(current, index) <==> -1 <= index - current <= 1
  {
    !(current > index + 1 || current < index - 1)
  }

  /** How many of the pages 0 .. n - 1 are rendered live. */
  function LiveCount(current: int, n: nat): nat {
    if n == 0 then 0 else LiveCount(current, n - 1) + (if IsLivePage(current, n - 1) then 1 else 0)
  }

  function Max(a: int, b: int): int { if a < b then b else a }

  function Min(a: int, b: int): int { if a < b then a else b }

  /** The live pages are exactly those of current - 1 .. current + 1 that exist. */
  lemma {:induction false} LiveCountIsWindow(current: int, n: nat)
    ensures LiveCount(current, n) == Max(0, Min(n, current + 2) - Max(0, current - 1))
  {
    if n > 0 {
      LiveCountIsWindow(current, n - 1);
    }
  }

  /** At most three pages are live; an existing current page is one of them, and an interior one has both neighbours live. */
  lemma LiveWindowBounds(current: int, n: nat)
    ensures LiveCount(current, n) <= 3
    ensures 0 <= current < n ==> LiveCount(current, n) >= 1 && IsLivePage(current, current)
    ensures 1 <= current < n - 1 ==> LiveCount(current, n) == 3
  {
    LiveCountIsWindow(current, n);
  }

  /** The factor by which fitting `side` under `bound` scales an image. */
  function ShrinkFactor(side: real, bound: real): (k: real)
    requires bound >= 0.0
    ensures 0.0 <= k <= 1.0
    ensures side <= bound ==> k == 1.0
    ensures side > bound ==> side * k == bound
  {
    if side > bound then bound / side else 1.0
  }

  /** Multiplying by a factor in [0, 1] keeps a value between itself and zero. */
  lemma ShrinkBetween(x: real, k: real)
    requires 0.0 <= k <= 1.0
    ensures x >= 0.0 ==> 0.0 <= x * k <= x
    ensures x < 0.0 ==> x <= x * k <= 0.0
  {
  }

  /**
   * One step of the fit: when `side` exceeds `bound`, both sides are scaled
   * by bound / side, so that `side` becomes `bound`.
   */
  function Shrink(side: real, other: real, bound: real): (r: (real, real))
    requires bound >= 0.0
    ensures r.0 == side * ShrinkFactor(side, bound) && r.1 == other * ShrinkFactor(side, bound)
    ensures r.0 <= bound
    ensures side <= bound ==> r == (side, other)
    ensures side > bound ==> r.0 == bound
  {
    var k := ShrinkFactor(side, bound);
    if side > bound then (side * k, other * k)
    else
      assert side * k == side && other * k == other;
      (side, other)
  }

  /** Two factors in [0, 1] keep a non-negative value between zero and itself. */
  lemma TwoShrinksBetween(x: real, k1: real, k2: real)
    requires x >= 0.0 && 0.0 <= k1 <= 1.0 && 0.0 <= k2 <= 1.0
    ensures 0.0 <= (x * k1) * k2 <= x
  {
    ShrinkBetween(x, k1);
    ShrinkBetween(x * k1, k2);
  }

  /** Scaling twice by uniform factors keeps the aspect ratio. */
  lemma TwoScalesKeepRatio(w: real, h: real, k1: real, k2: real)
    ensures ((w * k1) * k2) * h == ((h * k1) * k2) * w
  {
  }

  /** The algebra of the two shrink steps, over the factors and intermediate sizes as plain reals. */
  lemma FitFacts(width: real, height: real, sw: real, sh: real,
                 k1: real, k2: real, w1: real, h1: real, w2: real, h2: real)
    requires sw >= 0.0 && 0.0 <= k1 <= 1.0 && 0.0 <= k2 <= 1.0
    requires w1 == width * k1 && h1 == height * k1 && w2 == w1 * k2 && h2 == h1 * k2
    requires w1 <= sw && h2 <= sh
    requires width <= sw ==> k1 == 1.0
    requires h1 <= sh ==> k2 == 1.0
    requires width > sw ==> w1 == sw
    requires h1 > sh ==> h2 == sh
    ensures w2 <= sw && h2 <= sh
    ensures w2 * height == h2 * width
    ensures width <= sw && height <= sh ==> w2 == width && h2 == height
    ensures width >= 0.0 && height >= 0.0 ==> 0.0 <= w2 <= width && 0.0 <= h2 <= height
    ensures width >= 0.0 && height >= 0.0 && (width > sw || height > sh) ==> w2 == sw || h2 == sh
  {
    ShrinkBetween(w1, k2);
    TwoScalesKeepRatio(width, height, k1, k2);
    assert w2 * height == h2 * width;
    if width >= 0.0 && height >= 0.0 {
      TwoShrinksBetween(width, k1, k2);
      TwoShrinksBetween(height, k1, k2);
    }
  }

  /**
   * The fit-to-screen scaling (exact arithmetic): an image wider than the
   * screen is scaled to the screen width, then one still taller than the
   * screen to the screen height.
   */
  function FitToScreen(width: real, height: real, screenWidth: real, screenHeight: real): (r: (real, real))
    requires screenWidth >= 0.0 && screenHeight >= 0.0
    ensures r.0 <= screenWidth && r.1 <= screenHeight
    ensures r.0 * height == r.1 * width
    ensures width <= screenWidth && height <= screenHeight ==> r == (width, height)
    ensures width >= 0.0 && height >= 0.0 ==> 0.0 <= r.0 <= width && 0.0 <= r.1 <= height
    ensures width >= 0.0 && height >= 0.0 && (width > screenWidth || height > screenHeight) ==>
      r.0 == screenWidth || r.1 == screenHeight
  {
    var (w1, h1) := Shrink(width, height, screenWidth);
    var (h2, w2) := Shrink(h1, w1, screenHeight);
    FitFacts(width, height, screenWidth, screenHeight,
             ShrinkFactor(width, screenWidth), ShrinkFactor(h1, screenHeight), w1, h1, w2, h2);
    (w2, h2)
  }
}
