/** Soft expiry of mutable entries: the XFetch draw on top of the hard TTL cliff.
    Instants and durations are reals in nanoseconds, and the logarithm is a parameter
    of which only monotonicity and sign are used. */
module SoftExpiry {

  const NEVER_REVALIDATE := -1
  const ALWAYS_REVALIDATE := 0
  const SECOND := 1_000_000_000.0
  const MIN_DELTA := 100_000_000.0
  const TINY := 0.000000001

  type Log = real -> real

  /** Strictly increasing on the positive reals and negative on (0, 1). */
  ghost predicate LogLike(ln: Log)
  {
    && (forall x, y :: 0.0 < x < y ==> ln(x) < ln(y))
    && (forall x :: 0.0 < x < 1.0 ==> ln(x) < 0.0)
  }

  function Expiry(fetched: real, ttl: int): real { fetched + ttl as real * SECOND }

  /** One percent of the TTL, at least 100 ms. */
  function Delta(ttl: int): (d: real)
    ensures d >= MIN_DELTA
  {
    var d := ttl as real * SECOND / 100.0;
    if d < MIN_DELTA then MIN_DELTA else d
  }

  /** Keeps the draw inside (0, 1). Draws strictly between 0 and 1e-9 pass unchanged. */
  function ClampDraw(u: real): (r: real)
    ensures 0.0 < r < 1.0
  {
    if u <= 0.0 then TINY else if u >= 1.0 then 1.0 - TINY else u
  }

  /** The instant from which a request with draw `u` refreshes. */
  function Threshold(fetched: real, ttl: int, u: real, ln: Log): real
  {
    Expiry(fetched, ttl) + Delta(ttl) * ln(ClampDraw(u))
  }

  predicate ShouldRefresh(fetched: real, ttl: int, now: real, u: real, ln: Log)
  {
    ttl <= 0 || now >= Expiry(fetched, ttl) || now >= Threshold(fetched, ttl, u, ln)
  }

  predicate IsFresh(fetched: real, ttl: int, now: real, u: real, ln: Log)
  {
    if ttl == NEVER_REVALIDATE then true
    else if ttl == ALWAYS_REVALIDATE then false
    else !ShouldRefresh(fetched, ttl, now, u, ln)
  }

  predicate IsHardExpired(fetched: real, ttl: int, now: real)
  {
    if ttl == NEVER_REVALIDATE then false
    else if ttl == ALWAYS_REVALIDATE then true
    else now >= Expiry(fetched, ttl)
  }

  lemma ScaledLess(d: real, x: real, y: real)
    requires d > 0.0 && x < y
    ensures d * x < d * y
  {
    assert d * (y - x) > 0.0;
  }

  lemma RefreshAt(fetched: real, ttl: int, now: real, u: real, ln: Log)
    requires LogLike(ln) && ttl > 0
    ensures ShouldRefresh(fetched, ttl, now, u, ln) <==> now >= Threshold(fetched, ttl, u, ln)
    ensures Threshold(fetched, ttl, u, ln) < Expiry(fetched, ttl)
  {
    ScaledLess(Delta(ttl), ln(ClampDraw(u)), 0.0);
  }

  /** Past the cliff no draw makes an entry fresh; and once a draw asks for a refresh,
      it does at every later instant. */
  lemma ExpiryIsFinal(fetched: real, ttl: int, now: real, later: real, u: real, v: real, ln: Log)
    requires LogLike(ln) && now <= later
    ensures IsHardExpired(fetched, ttl, now) ==> !IsFresh(fetched, ttl, later, v, ln)
    ensures !IsFresh(fetched, ttl, now, u, ln) ==> !IsFresh(fetched, ttl, later, u, ln)
    ensures ttl > 0 && !IsFresh(fetched, ttl, now, u, ln) && !IsHardExpired(fetched, ttl, now) ==>
              Threshold(fetched, ttl, u, ln) <= now < Expiry(fetched, ttl)
  {
    if ttl > 0 { RefreshAt(fetched, ttl, now, u, ln); }
  }

  lemma ThresholdOrder(fetched: real, ttl: int, u: real, v: real, ln: Log)
    requires LogLike(ln)
    ensures Threshold(fetched, ttl, u, ln) <= Threshold(fetched, ttl, v, ln) <==> ClampDraw(u) <= ClampDraw(v)
  {
    var a, b := ClampDraw(u), ClampDraw(v);
    if a < b { ScaledLess(Delta(ttl), ln(a), ln(b)); }
    if b < a { ScaledLess(Delta(ttl), ln(b), ln(a)); }
  }

  /** A smaller draw refreshes at least as early, EXCEPT that a draw of zero is lifted
      to 1e-9 while draws between 0 and 1e-9 are not, and likewise at the other end: the
      decision is antitone in the draw exactly when no such pair is compared. */
  lemma RefreshAntitoneInDraw(fetched: real, ttl: int, u: real, v: real, ln: Log)
    requires LogLike(ln) && ttl > 0 && u <= v
    ensures (forall now :: ShouldRefresh(fetched, ttl, now, v, ln) ==> ShouldRefresh(fetched, ttl, now, u, ln))
            <==> !(u <= 0.0 < v < TINY) && !(1.0 - TINY < u < 1.0 <= v)
  {
    ThresholdOrder(fetched, ttl, u, v, ln);
    forall now ensures ShouldRefresh(fetched, ttl, now, u, ln) <==> now >= Threshold(fetched, ttl, u, ln)
               ensures ShouldRefresh(fetched, ttl, now, v, ln) <==> now >= Threshold(fetched, ttl, v, ln)
    {
      RefreshAt(fetched, ttl, now, u, ln);
      RefreshAt(fetched, ttl, now, v, ln);
    }
    var at := Threshold(fetched, ttl, v, ln);
    assert ShouldRefresh(fetched, ttl, at, v, ln);
    assert ShouldRefresh(fetched, ttl, at, u, ln) <==> Threshold(fetched, ttl, u, ln) <= at;
  }

  /** No refresh comes earlier than delta * ln(1e9) before expiry, again exactly for the
      draws the clamp bounds: a positive draw below 1e-9 refreshes earlier than that. */
  lemma EarlyRefreshBound(fetched: real, ttl: int, u: real, ln: Log)
    requires LogLike(ln) && ttl > 0
    ensures (forall now :: ShouldRefresh(fetched, ttl, now, u, ln) ==>
                             now >= Expiry(fetched, ttl) + Delta(ttl) * ln(TINY))
            <==> (u <= 0.0 || u >= TINY)
  {
    ThresholdOrder(fetched, ttl, TINY, u, ln);
    forall now ensures ShouldRefresh(fetched, ttl, now, u, ln) <==> now >= Threshold(fetched, ttl, u, ln) {
      RefreshAt(fetched, ttl, now, u, ln);
    }
    var at := Threshold(fetched, ttl, u, ln);
    assert ShouldRefresh(fetched, ttl, at, u, ln);
    assert Threshold(fetched, ttl, TINY, ln) == Expiry(fetched, ttl) + Delta(ttl) * ln(TINY);
  }

  /** Fresh, in numbers: never for a zero TTL and always for -1; else up to the draw's
      distance before the cliff, one percent of the TTL or 100 ms times the logarithm of
      the clamped draw. And the cliff itself. */
  lemma FreshExactly(fetched: real, ttl: int, now: real, u: real, ln: Log)
    requires LogLike(ln)
    ensures ttl == -1 ==> IsFresh(fetched, ttl, now, u, ln) && !IsHardExpired(fetched, ttl, now)
    ensures ttl == 0 ==> !IsFresh(fetched, ttl, now, u, ln) && IsHardExpired(fetched, ttl, now)
    ensures ttl > 0 ==>
              var cliff := fetched + 1_000_000_000.0 * ttl as real;
              var delta := if ttl < 10 then 100_000_000.0 else 10_000_000.0 * ttl as real;
              var draw := if u <= 0.0 then 0.000000001 else if u >= 1.0 then 0.999999999 else u;
              && (IsFresh(fetched, ttl, now, u, ln) <==> now < cliff + delta * ln(draw))
              && (IsHardExpired(fetched, ttl, now) <==> now >= cliff)
    ensures ttl < -1 ==>
              !IsFresh(fetched, ttl, now, u, ln) &&
              (IsHardExpired(fetched, ttl, now) <==> now >= fetched + 1_000_000_000.0 * ttl as real)
  {
    if ttl > 0 { RefreshAt(fetched, ttl, now, u, ln); }
  }
}
