/** The price curve without machine arithmetic: what a move between two prices must cost, what it may
    pay out, and the inequalities that hold whatever the rounding. `S` stands for 2^64 throughout. */
module CurveBounds {
  import opened Rounding

  /** `n` lies on the way from `p` in the given direction. */
  predicate Onward(aToB: bool, p: nat, n: nat) {
    if aToB then n <= p else p <= n
  }

  function Gap(p: nat, n: nat): nat {
    if p <= n then n - p else p - n
  }

  /** `amount` of the input token covers a move from `p` to `n` at this liquidity. */
  predicate Covers(aToB: bool, p: nat, n: nat, liquidity: nat, amount: nat, S: nat) {
    if aToB then liquidity * Gap(p, n) * S <= amount * (p * n) else liquidity * Gap(p, n) <= amount * S
  }

  /** `amount` of the output token is no more than a move from `p` to `n` releases. */
  predicate Affordable(aToB: bool, p: nat, n: nat, liquidity: nat, amount: nat, S: nat) {
    if aToB then amount * S <= liquidity * Gap(p, n) else amount * (p * n) <= liquidity * Gap(p, n) * S
  }

  /** The least input that covers the move. */
  function InputFor(aToB: bool, p: nat, n: nat, liquidity: nat, S: nat): nat
    requires p > 0 && n > 0 && S > 0
  {
    if aToB then
      assert p * n > 0;
      Ceil(liquidity * Gap(p, n) * S, p * n)
    else
      Ceil(liquidity * Gap(p, n), S)
  }

  /** The greatest output the move can pay. */
  function OutputFor(aToB: bool, p: nat, n: nat, liquidity: nat, S: nat): nat
    requires p > 0 && n > 0 && S > 0
  {
    if aToB then Floor(liquidity * Gap(p, n), S)
    else
      assert p * n > 0;
      Floor(liquidity * Gap(p, n) * S, p * n)
  }

  lemma InputIsLeast(aToB: bool, p: nat, n: nat, liquidity: nat, amount: nat, S: nat)
    requires p > 0 && n > 0 && S > 0
    ensures InputFor(aToB, p, n, liquidity, S) <= amount <==> Covers(aToB, p, n, liquidity, amount, S)
  {
    if aToB {
      assert p * n > 0;
      CeilGalois(liquidity * Gap(p, n) * S, p * n, amount);
    } else {
      CeilGalois(liquidity * Gap(p, n), S, amount);
    }
  }

  lemma OutputIsGreatest(aToB: bool, p: nat, n: nat, liquidity: nat, amount: nat, S: nat)
    requires p > 0 && n > 0 && S > 0
    ensures amount <= OutputFor(aToB, p, n, liquidity, S) <==> Affordable(aToB, p, n, liquidity, amount, S)
  {
    if aToB {
      FloorGalois(liquidity * Gap(p, n), S, amount);
    } else {
      assert p * n > 0;
      FloorGalois(liquidity * Gap(p, n) * S, p * n, amount);
    }
  }

  /** The price an exact input reaches, rounded against the trader. */
  function PriceAfterInput(aToB: bool, p: nat, liquidity: nat, amount: nat, S: nat): nat
    requires liquidity > 0 && S > 0
  {
    if aToB then
      assert liquidity * S > 0;
      Ceil(p * (liquidity * S), liquidity * S + p * amount)
    else p + Floor(amount * S, liquidity)
  }

  /** The price an exact output needs, rounded against the trader. */
  function PriceAfterOutput(aToB: bool, p: nat, liquidity: nat, amount: nat, S: nat): int
    requires liquidity > 0 && S > 0
    requires !aToB ==> p * amount < liquidity * S
  {
    if aToB then p - Ceil(amount * S, liquidity)
    else Ceil(p * (liquidity * S), liquidity * S - p * amount)
  }

  // ---------------------------------------------------------------- forms on the 1/price side

  /** Where the token priced at 1/price^2 is involved, both relations become one comparison of products:
      with X = liquidity * S, a downward move is covered when p*X <= n*(X + p*amount). */
  lemma DownForm(p: nat, n: nat, liquidity: nat, amount: nat, S: nat)
    requires n <= p
    ensures Covers(true, p, n, liquidity, amount, S) <==> p * (liquidity * S) <= n * (liquidity * S + p * amount)
  {
    Spread(p, n, liquidity, S);
    Distribute(n, liquidity * S, p * amount);
    Rotate(n, p, amount);
  }

  /** An upward move affords its output when p*X <= n*(X - p*amount). */
  lemma UpForm(p: nat, n: nat, liquidity: nat, amount: nat, S: nat)
    requires p <= n
    ensures Affordable(false, p, n, liquidity, amount, S) <==> p * (liquidity * S) <= n * (liquidity * S - p * amount)
  {
    Spread(n, p, liquidity, S);
    Distribute(n, liquidity * S, -(p * amount));
    Rotate(n, p, amount);
    Negate(n, p * amount);
  }

  lemma Spread(high: nat, low: nat, liquidity: nat, S: nat)
    requires low <= high
    ensures liquidity * (high - low) * S == high * (liquidity * S) - low * (liquidity * S)
  {
    var X := liquidity * S;
    assert X * (high - low) == high * X - low * X;
    assert liquidity * (high - low) * S == X * (high - low);
  }

  lemma Negate(x: int, y: int)
    ensures x * (-y) == -(x * y)
  {
  }

  lemma Rotate(n: nat, p: nat, amount: nat)
    ensures n * (p * amount) == amount * (p * n)
  {
  }

  // ---------------------------------------------------------------- where an amount takes the price

  /** The price an input reaches is the farthest price that input covers. */
  lemma FarthestCovered(aToB: bool, p: nat, n: nat, liquidity: nat, amount: nat, S: nat)
    requires p > 0 && n > 0 && liquidity > 0 && S > 0 && Onward(aToB, p, n)
    ensures Covers(aToB, p, n, liquidity, amount, S)
            <==> Onward(aToB, n, PriceAfterInput(aToB, p, liquidity, amount, S))
  {
    if aToB {
      DownForm(p, n, liquidity, amount, S);
      assert liquidity * S > 0;
      CeilGalois(p * (liquidity * S), liquidity * S + p * amount, n);
    } else {
      FloorGalois(amount * S, liquidity, n - p);
    }
  }

  lemma InputMovesOnward(aToB: bool, p: nat, liquidity: nat, amount: nat, S: nat)
    requires p > 0 && liquidity > 0 && S > 0
    ensures var n := PriceAfterInput(aToB, p, liquidity, amount, S); n > 0 && Onward(aToB, p, n)
  {
    if aToB {
      var X := liquidity * S;
      assert X > 0 && p * X > 0;
      Distribute(p, X, p * amount);
      CeilGalois(p * X, X + p * amount, p);
      CeilGalois(p * X, X + p * amount, 0);
    }
  }

  /** An input too small to cover the move to `t` stops strictly short of `t`, and covers the move it makes. */
  lemma InputStopsShort(aToB: bool, p: nat, t: nat, liquidity: nat, amount: nat, S: nat)
    requires p > 0 && t > 0 && liquidity > 0 && S > 0
    requires Onward(aToB, p, t) && !Covers(aToB, p, t, liquidity, amount, S)
    ensures var n := PriceAfterInput(aToB, p, liquidity, amount, S);
            n > 0 && Onward(aToB, p, n) && n != t && Onward(aToB, n, t) && Covers(aToB, p, n, liquidity, amount, S)
  {
    InputMovesOnward(aToB, p, liquidity, amount, S);
    FarthestCovered(aToB, p, t, liquidity, amount, S);
    FarthestCovered(aToB, p, PriceAfterInput(aToB, p, liquidity, amount, S), liquidity, amount, S);
  }

  lemma NearestBelow(p: nat, n: nat, liquidity: nat, amount: nat, S: nat)
    requires liquidity > 0 && S > 0 && n <= p
    ensures Affordable(true, p, n, liquidity, amount, S) <==> n <= PriceAfterOutput(true, p, liquidity, amount, S)
  {
    CeilGalois(amount * S, liquidity, p - n);
    hide Ceil;
  }

  lemma NearestAbove(p: nat, n: nat, liquidity: nat, amount: nat, S: nat)
    requires liquidity > 0 && S > 0 && p <= n && p * amount < liquidity * S
    ensures Affordable(false, p, n, liquidity, amount, S) <==> PriceAfterOutput(false, p, liquidity, amount, S) <= n
  {
    hide Ceil, Affordable;
    UpForm(p, n, liquidity, amount, S);
    CeilGalois(p * (liquidity * S), liquidity * S - p * amount, n);
  }

  /** The price an output needs is the nearest price that affords it. */
  lemma NearestAffording(aToB: bool, p: nat, n: nat, liquidity: nat, amount: nat, S: nat)
    requires p > 0 && n > 0 && liquidity > 0 && S > 0 && Onward(aToB, p, n)
    requires !aToB ==> p * amount < liquidity * S
    ensures Affordable(aToB, p, n, liquidity, amount, S)
            <==> if aToB then n <= PriceAfterOutput(aToB, p, liquidity, amount, S)
                 else PriceAfterOutput(aToB, p, liquidity, amount, S) <= n
  {
    hide Affordable, PriceAfterOutput;
    if aToB {
      NearestBelow(p, n, liquidity, amount, S);
    } else {
      NearestAbove(p, n, liquidity, amount, S);
    }
  }

  /** An output that the move to `t` affords is reached no later than `t`, and the move made affords it. */
  lemma OutputStopsInside(aToB: bool, p: nat, t: nat, liquidity: nat, amount: nat, S: nat)
    requires p > 0 && t > 0 && liquidity > 0 && S > 0
    requires Onward(aToB, p, t) && Affordable(aToB, p, t, liquidity, amount, S)
    ensures aToB || p * amount < liquidity * S
    ensures var n := PriceAfterOutput(aToB, p, liquidity, amount, S);
            n > 0 && Onward(aToB, p, n) && Onward(aToB, n, t) && Affordable(aToB, p, n, liquidity, amount, S)
  {
    if !aToB {
      ReserveLasts(p, t, liquidity, amount, S);
    }
    NearestAffording(aToB, p, t, liquidity, amount, S);
    NearestAffording(aToB, p, PriceAfterOutput(aToB, p, liquidity, amount, S), liquidity, amount, S);
  }

  /** Going up, an affordable output leaves a positive reserve, so the price it needs is no lower than the start. */
  lemma ReserveLasts(p: nat, t: nat, liquidity: nat, amount: nat, S: nat)
    requires p > 0 && t > 0 && liquidity > 0 && S > 0 && p <= t
    requires Affordable(false, p, t, liquidity, amount, S)
    ensures p * amount < liquidity * S && PriceAfterOutput(false, p, liquidity, amount, S) >= p
  {
    var X := liquidity * S;
    assert X > 0 && p * X > 0;
    UpForm(p, t, liquidity, amount, S);
    Positive(t, X - p * amount);
    PriceNotBelow(p, X, X - p * amount);
  }

  lemma Positive(t: nat, d: int)
    requires t * d > 0
    ensures d > 0
  {
  }

  lemma PriceNotBelow(p: nat, X: nat, d: nat)
    requires p > 0 && 0 < d <= X
    ensures Ceil(p * X, d) >= p
  {
    CeilGalois(p * X, d, p - 1);
    MulMono(d, X, p - 1);
    Distribute(X, p, -1);
  }

  /** What a move can pay, a longer move in the same direction can pay. */
  lemma LongerMoveAffords(aToB: bool, p: nat, n: nat, m: nat, liquidity: nat, y: nat, S: nat)
    requires p > 0 && n > 0 && m > 0 && S > 0
    requires Onward(aToB, p, n) && Onward(aToB, n, m) && Affordable(aToB, p, n, liquidity, y, S)
    ensures Affordable(aToB, p, m, liquidity, y, S)
  {
    if aToB {
      MulMono(p - n, p - m, liquidity);
    } else {
      UpForm(p, n, liquidity, y, S);
      UpForm(p, m, liquidity, y, S);
      NotNegative(p * (liquidity * S), n, liquidity * S - p * y);
      MulMono(n, m, liquidity * S - p * y);
    }
  }

  lemma NotNegative(low: nat, n: nat, d: int)
    requires n > 0 && low <= n * d
    ensures d >= 0
  {
  }

  // ---------------------------------------------------------------- the pool is never the loser

  /** Trading `amountIn` for `amountOut` is no better than trading at the price whose square root is `p`. */
  predicate NoBetterThan(aToB: bool, p: nat, amountIn: nat, amountOut: nat, S: nat) {
    if aToB then amountOut * (S * S) <= amountIn * (p * p) else amountOut * (p * p) <= amountIn * (S * S)
  }

  lemma Scaled(x: nat, y: nat, S: nat)
    requires x * S <= y
    ensures x * (S * S) <= y * S
  {
    MulMono(x * S, y, S);
  }

  lemma ScaledBelow(x: nat, y: nat, S: nat)
    requires y <= x * S
    ensures y * S <= x * (S * S)
  {
    MulMono(y, x * S, S);
  }

  /** A move that is covered on one side and affordable on the other never beats the price it started from. */
  lemma MoveNeverBeatsStart(aToB: bool, p: nat, n: nat, liquidity: nat, amountIn: nat, amountOut: nat, S: nat)
    requires p > 0 && n > 0 && S > 0 && Onward(aToB, p, n)
    requires Covers(aToB, p, n, liquidity, amountIn, S) && Affordable(aToB, p, n, liquidity, amountOut, S)
    ensures NoBetterThan(aToB, p, amountIn, amountOut, S)
  {
    MulMono(if aToB then n else p, if aToB then p else n, p);
    if aToB {
      Scaled(amountOut, liquidity * Gap(p, n), S);
      MulMono(p * n, p * p, amountIn);
    } else {
      ScaledBelow(amountIn, liquidity * Gap(p, n), S);
      MulMono(p * p, p * n, amountOut);
    }
  }

  /** Swapping back what a move paid out can neither pass the starting price nor return more than the move cost. */
  lemma ReturnTripLoses(aToB: bool, p: nat, n: nat, back: nat, liquidity: nat, spent: nat, got: nat, returned: nat,
                        S: nat)
    requires p > 0 && n > 0 && back > 0 && liquidity > 0 && S > 0
    requires Onward(aToB, p, n) && Onward(!aToB, n, back)
    requires Covers(aToB, p, n, liquidity, spent, S) && Affordable(aToB, p, n, liquidity, got, S)
    requires Covers(!aToB, n, back, liquidity, got, S) && Affordable(!aToB, n, back, liquidity, returned, S)
    ensures Onward(!aToB, back, p) && returned <= spent
  {
    if aToB {
      ReturnUp(p, n, back, liquidity, spent, got, returned, S);
    } else {
      ReturnDown(p, n, back, liquidity, spent, got, returned, S);
    }
  }

  lemma NoFurther(x: nat, y: nat, liquidity: nat, paid: nat)
    requires liquidity > 0 && liquidity * x <= paid <= liquidity * y
    ensures x <= y
  {
    MulCancel(x, y, liquidity);
  }

  lemma ReturnNoMore(p: nat, n: nat, spent: nat, returned: nat, worth: nat)
    requires p > 0 && n > 0 && returned * (n * p) <= worth <= spent * (p * n)
    ensures returned <= spent
  {
    assert p * n == n * p > 0;
    MulCancel(returned, spent, p * n);
  }

  lemma ReturnUp(p: nat, n: nat, back: nat, liquidity: nat, spent: nat, got: nat, returned: nat, S: nat)
    requires 0 < n <= p && n <= back && liquidity > 0 && S > 0
    requires Covers(true, p, n, liquidity, spent, S) && Affordable(true, p, n, liquidity, got, S)
    requires Covers(false, n, back, liquidity, got, S) && Affordable(false, n, back, liquidity, returned, S)
    ensures back <= p && returned <= spent
  {
    NoFurther(back - n, p - n, liquidity, got * S);
    LongerMoveAffords(false, n, back, p, liquidity, returned, S);
    ReturnNoMore(p, n, spent, returned, liquidity * (p - n) * S);
  }

  /** An output that a move from `p` up to `n` affords cannot pay for a move back past `p`; `g` is got * n. */
  lemma CannotOvershoot(p: nat, n: nat, back: nat, X: nat, g: nat)
    requires X > 0 && g * p + X * p <= X * n && X * n <= g * back + X * back
    ensures p <= back
  {
    Distribute(p, g, X);
    Distribute(back, g, X);
    MulCancel(p, back, g + X);
  }

  lemma Regroup(got: nat, n: nat, p: nat)
    ensures got * (n * p) == (got * n) * p == got * (p * n)
  {
  }

  lemma CheaperReturn(n: nat, p: nat, back: nat, liquidity: nat, paid: nat, refund: nat)
    requires p <= back <= n && liquidity * (n - p) <= paid && refund <= liquidity * (n - back)
    ensures refund <= paid
  {
    MulMono(n - back, n - p, liquidity);
  }

  lemma ReturnDown(p: nat, n: nat, back: nat, liquidity: nat, spent: nat, got: nat, returned: nat, S: nat)
    requires 0 < p <= n && 0 < back <= n && liquidity > 0 && S > 0
    requires Covers(false, p, n, liquidity, spent, S) && Affordable(false, p, n, liquidity, got, S)
    requires Covers(true, n, back, liquidity, got, S) && Affordable(true, n, back, liquidity, returned, S)
    ensures p <= back && returned <= spent
  {
    var X, g := liquidity * S, got * n;
    assert X > 0;
    Spread(n, p, liquidity, S);
    Spread(n, back, liquidity, S);
    Regroup(got, n, p);
    Regroup(got, n, back);
    CannotOvershoot(p, n, back, X, g);
    CheaperReturn(n, p, back, liquidity, spent * S, returned * S);
    MulCancel(returned, spent, S);
  }

  /** Payouts of consecutive moves add up: together they are affordable at any larger liquidity. */
  lemma MovesCompose(aToB: bool, p: nat, m: nat, n: nat, large: nat, liquidity: nat, first: nat, second: nat, S: nat)
    requires p > 0 && m > 0 && n > 0 && S > 0 && liquidity <= large
    requires Onward(aToB, p, m) && Onward(aToB, m, n)
    requires Affordable(aToB, p, m, large, first, S) && Affordable(aToB, m, n, liquidity, second, S)
    ensures Affordable(aToB, p, n, large, first + second, S)
  {
    MoreLiquidityAffords(aToB, m, n, large, liquidity, second, S);
    if aToB {
      Distribute(large, p - m, m - n);
      Distribute(S, first, second);
    } else {
      UpForm(p, m, large, first, S);
      UpForm(m, n, large, second, S);
      UpForm(p, n, large, first + second, S);
      UpwardCompose(p, m, n, large * S, first, second);
    }
  }

  lemma MoreLiquidityAffords(aToB: bool, m: nat, n: nat, large: nat, liquidity: nat, y: nat, S: nat)
    requires liquidity <= large && Affordable(aToB, m, n, liquidity, y, S)
    ensures Affordable(aToB, m, n, large, y, S)
  {
    MulMono(liquidity, large, Gap(m, n));
    MulMono(liquidity * Gap(m, n), large * Gap(m, n), S);
  }

  lemma UpwardCompose(p: nat, m: nat, n: nat, X: nat, first: nat, second: nat)
    requires p > 0 && m > 0 && n > 0
    requires p * X <= m * (X - p * first) && m * X <= n * (X - m * second)
    ensures p * X <= n * (X - p * (first + second))
  {
    var a := X - p * first;
    var k := n * (p * second);
    Distribute(n, X, -(m * second));
    Negate(n, m * second);
    // p * (m * X) <= p * (n * X) - p * n * m * second, and n * (p * X) <= n * (m * a)
    ScaleUp(m * X, n * X - n * (m * second), p);
    ScaleUp(p * X, m * a, n);
    assert p * (n * (m * second)) == m * k;
    assert p * (n * X) == n * (p * X);
    assert p * (m * X) == m * (p * X);
    assert n * (m * a) == m * (n * a);
    Distribute(p, n * X, -(n * (m * second)));
    Negate(p, n * (m * second));
    Distribute(m, n * a, -k);
    Negate(m, k);
    CancelScale(p * X, n * a - k, m);
    Distribute(p, first, second);
    Distribute(n, a, -(p * second));
    Negate(n, p * second);
  }

  lemma ScaleUp(x: int, y: int, k: nat)
    requires x <= y
    ensures k * x <= k * y
  {
  }

  lemma CancelScale(x: int, y: int, k: nat)
    requires k > 0 && k * x <= k * y
    ensures x <= y
  {
    if y < x {
      ScaleUp(y + 1, x, k);
      Distribute(k, y, 1);
    }
  }
}
