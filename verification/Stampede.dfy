/** Cross-replica stampede protection: a double-checked fetch under a TTL lock, as the
    atomic steps of any number of flights on any number of replicas, for one key.
    Nothing is assumed about how many flights a process has in the air. */
module Stampede {
  import opened Wrappers

  /** A call of FetchLocked is named by the token its Acquire draws, which is unique. */
  type Flight = nat

  /** How a call ended. */
  datatype How = FromCache | FromUpstream | Failed

  /** Where one call of FetchLocked is. */
  datatype Pc =
    | Start
    | Waiting               // inside Acquire; the token is drawn before waiting
    | Holding               // lock acquired, recheck still to come
    | Fetching              // recheck missed, upstream fetch running
    | Releasing(how: How)   // deferred release still to come
    | Returned(how: How)

  /** What one call does next, and what came of it. */
  datatype Effect =
    | Draw
    | AcquireFailed
    | Acquired
    | RecheckHit
    | RecheckMiss
    | RecheckFailed
    | NoRecheck
    | FetchOk
    | FetchFailed
    | Released

  /** The program order of FetchLocked, with or without a recheck closure. */
  function Advance(recheck: bool, pc: Pc, e: Effect): Option<Pc>
  {
    match (pc, e)
    case (Start, Draw) => Some(Waiting)
    case (Waiting, AcquireFailed) => Some(Returned(Failed))
    case (Waiting, Acquired) => Some(Holding)
    case (Holding, RecheckHit) => if recheck then Some(Releasing(FromCache)) else None
    case (Holding, RecheckFailed) => if recheck then Some(Releasing(Failed)) else None
    case (Holding, RecheckMiss) => if recheck then Some(Fetching) else None
    case (Holding, NoRecheck) => if recheck then None else Some(Fetching)
    case (Fetching, FetchOk) => Some(Releasing(FromUpstream))
    case (Fetching, FetchFailed) => Some(Releasing(Failed))
    case (Releasing(how), Released) => Some(Returned(how))
    case _ => None
  }

  /** Where a call is after the effects `t`. */
  function Walk(recheck: bool, t: seq<Effect>): Option<Pc>
  {
    if t == [] then Some(Start)
    else match Walk(recheck, t[..|t| - 1])
      case None => None
      case Some(pc) => Advance(recheck, pc, t[|t| - 1])
  }

  // ------------------------------------------------------ one call, as code

  datatype Outcome<T> = Value(value: T) | Error

  /** The world one call runs in: whatever the lock, the recheck and the fetch do is
      recorded in order. */
  class World {
    ghost var trace: seq<Effect>

    constructor ()
      ensures trace == []
    {
      trace := [];
    }

    method Acquire() returns (ok: bool)
      modifies this
      ensures trace == old(trace) + [Draw] + [if ok then Acquired else AcquireFailed]
    {
      trace := trace + [Draw];
      if * {
        trace := trace + [Acquired];
        return true;
      }
      trace := trace + [AcquireFailed];
      return false;
    }

    method Recheck() returns (hit: bool, failed: bool)
      modifies this
      ensures !(hit && failed)
      ensures trace == old(trace) + [if failed then RecheckFailed else if hit then RecheckHit else RecheckMiss]
    {
      if {
        case true => trace := trace + [RecheckFailed]; return false, true;
        case true => trace := trace + [RecheckHit]; return true, false;
        case true => trace := trace + [RecheckMiss]; return false, false;
      }
    }

    method Fetch() returns (ok: bool)
      modifies this
      ensures trace == old(trace) + [if ok then FetchOk else FetchFailed]
    {
      if * {
        trace := trace + [FetchOk];
        return true;
      }
      trace := trace + [FetchFailed];
      return false;
    }

    method Release()
      modifies this
      ensures trace == old(trace) + [Released]
    {
      trace := trace + [Released];
    }

    /** The body the in-process leader runs when a locker is configured; `cached` is what
        a recheck would find and `upstream` what a fetch would bring. Started with an
        empty trace, it follows the program order to the end, so the lock it acquired is
        released on every path. */
    method FetchLocked<T>(recheck: bool, cached: T, upstream: T) returns (r: Outcome<T>)
      requires trace == []
      modifies this
      ensures |trace| > 0 && trace[0] == Draw
      ensures Walk(recheck, trace).Some? && Walk(recheck, trace).value.Returned?
      ensures match Walk(recheck, trace).value.how
              case FromCache => r == Value(cached)
              case FromUpstream => r == Value(upstream)
              case Failed => r == Error
    {
      hide Walk;
      WalkOn(recheck, [], Draw);
      assert [] + [Draw] == [Draw];
      var acquired := Acquire();
      WalkOn(recheck, [Draw], if acquired then Acquired else AcquireFailed);
      if !acquired { return Error; }
      if recheck {
        ghost var before := trace;
        var hit, failed := Recheck();
        WalkOn(recheck, before, trace[|before|]);
        if failed || hit {
          before := trace;
          Release();
          WalkOn(recheck, before, Released);
          return if failed then Error else Value(cached);
        }
      } else {
        WalkOn(recheck, trace, NoRecheck);
        trace := trace + [NoRecheck];
      }
      ghost var missed := trace;
      var ok := Fetch();
      WalkOn(recheck, missed, if ok then FetchOk else FetchFailed);
      ghost var fetched := trace;
      Release();
      WalkOn(recheck, fetched, Released);
      return if ok then Value(upstream) else Error;
    }
  }

  lemma WalkOn(recheck: bool, t: seq<Effect>, e: Effect)
    ensures Walk(recheck, []) == Some(Start)
    ensures Walk(recheck, t + [e]) ==
            match Walk(recheck, t) case None => None case Some(pc) => Advance(recheck, pc, e)
  {
    assert (t + [e])[..|t + [e]| - 1] == t;
  }

  // ------------------------------------------------- all flights of all replicas

  datatype State = State(
    pcs: map<Flight, Pc>,     // every call so far
    lock: Option<Flight>,     // the shared lock, by its holder's token
    cached: bool,             // whether a recheck would hit
    fetches: nat,             // successful upstream fetches
    expiries: nat,            // lock expiries under a holder that had not finished its fetch
    losses: nat)              // times a cached entry was lost

  datatype Step =
    | Call(f: Flight, e: Effect)
    | Crash(f: Flight)        // the replica dies; its lock stays until the TTL
    | Expire                  // the TTL of the current holder runs out
    | Lose                    // eviction or an operator removes the entry

  const INIT := State(map[], None, false, 0, 0, 0)

  function PcOf(s: State, f: Flight): Pc
  {
    if f in s.pcs then s.pcs[f] else Start
  }

  /** Past the lock and not done with the fetch. */
  predicate Pending(pc: Pc) { pc.Holding? || pc.Fetching? }

  predicate HolderPending(s: State) { s.lock.Some? && Pending(PcOf(s, s.lock.value)) }

  /** What the shared state demands of a step. */
  predicate Enabled(s: State, recheck: bool, step: Step)
  {
    match step
    case Call(f, e) =>
      && Advance(recheck, PcOf(s, f), e).Some?
      && (e.Acquired? ==> s.lock.None?)
      && (e.RecheckHit? ==> s.cached)
      && (e.RecheckMiss? ==> !s.cached)
    case Crash(f) => f in s.pcs
    case Expire => s.lock.Some?
    case Lose => s.cached
  }

  function Do(s: State, recheck: bool, step: Step): State
    requires Enabled(s, recheck, step)
  {
    match step
    case Call(f, e) =>
      var moved := s.(pcs := s.pcs[f := Advance(recheck, PcOf(s, f), e).value]);
      (match e
       case Acquired => moved.(lock := Some(f))
       case FetchOk => moved.(cached := true, fetches := s.fetches + 1)
       case Released => if s.lock == Some(f) then moved.(lock := None) else moved
       case _ => moved)
    case Crash(f) => s.(pcs := s.pcs[f := Returned(Failed)])
    case Expire => s.(lock := None, expiries := s.expiries + if HolderPending(s) then 1 else 0)
    case Lose => s.(cached := false, losses := s.losses + 1)
  }

  /** `end` is reached from `s` by the steps of `run`. */
  predicate Run(s: State, recheck: bool, run: seq<Step>, end: State)
    decreases |run|
  {
    if run == [] then s == end
    else Enabled(s, recheck, run[0]) && Run(Do(s, recheck, run[0]), recheck, run[1..], end)
  }

  // ------------------------------------------------------------------ the bound

  /** Pending but no longer holding the lock: each such flight cost an expiry. */
  ghost function Stale(s: State): set<Flight>
  {
    set f | f in s.pcs && Pending(s.pcs[f]) && s.lock != Some(f)
  }

  predicate OwnerFetching(s: State) { s.lock.Some? && PcOf(s, s.lock.value).Fetching? }

  ghost predicate Inv(s: State)
  {
    && (s.lock.Some? ==> PcOf(s, s.lock.value) != Start && PcOf(s, s.lock.value) != Waiting)
    && |Stale(s)| <= s.expiries
    && s.fetches + |Stale(s)| + (if s.cached && OwnerFetching(s) then 1 else 0)
         <= s.expiries + s.losses + (if s.cached then 1 else 0)
  }

  /** How a step moves the set of stale flights. */
  lemma StaleAfter(s: State, recheck: bool, step: Step)
    requires Inv(s) && Enabled(s, recheck, step)
    ensures var s' := Do(s, recheck, step);
            Stale(s') ==
            match step
            case Call(f, _) => if Pending(s'.pcs[f]) then Stale(s) else Stale(s) - {f}
            case Crash(f) => Stale(s) - {f}
            case Expire => if HolderPending(s) then Stale(s) + {s.lock.value} else Stale(s)
            case Lose => Stale(s)
  {
    hide Stale, Inv;
    match step
    case Call(f, e) => StaleAfterCall(s, recheck, f, e);
    case Crash(f) => StaleAfterMove(s, Do(s, recheck, step), f);
    case Expire => StaleAfterExpiry(s, Do(s, recheck, step));
    case Lose => StaleSame(s, Do(s, recheck, step));
  }

  lemma StaleSame(s: State, s': State)
    requires s'.pcs == s.pcs && s'.lock == s.lock
    ensures Stale(s') == Stale(s)
  {
  }

  /** One flight moves; if the lock changes, it is that flight's. */
  lemma StaleAfterMove(s: State, s': State, f: Flight)
    requires f in s'.pcs && s'.pcs == s.pcs[f := s'.pcs[f]]
    requires s'.lock == s.lock || (s'.lock == Some(f) && s.lock.None?) || (s'.lock.None? && s.lock == Some(f))
    ensures Stale(s') == if Pending(s'.pcs[f]) && s'.lock != Some(f) then Stale(s) + {f} else Stale(s) - {f}
  {
    forall g ensures g in Stale(s') <==> if g == f then Pending(s'.pcs[f]) && s'.lock != Some(f) else g in Stale(s) {
    }
  }

  lemma StaleAfterCall(s: State, recheck: bool, f: Flight, e: Effect)
    requires Inv(s) && Enabled(s, recheck, Call(f, e))
    ensures var s' := Do(s, recheck, Call(f, e));
            Stale(s') == if Pending(s'.pcs[f]) then Stale(s) else Stale(s) - {f}
  {
    hide Stale;
    var s' := Do(s, recheck, Call(f, e));
    StaleAfterMove(s, s', f);
    StaleIs(s, f);
  }

  lemma StaleIs(s: State, f: Flight)
    ensures f in Stale(s) <==> Pending(PcOf(s, f)) && s.lock != Some(f)
  {
  }

  lemma StaleAfterExpiry(s: State, s': State)
    requires s.lock.Some? && s'.lock.None? && s'.pcs == s.pcs
    ensures Stale(s') == if HolderPending(s) then Stale(s) + {s.lock.value} else Stale(s)
  {
  }

  /** A successful fetch: a stale flight pays with its staleness, the owner with the
      entry it caches or with the surplus it carried for fetching over a cached one. */
  lemma FetchOkKeepsInv(s: State, f: Flight)
    requires Inv(s) && PcOf(s, f) == Fetching
    ensures Inv(Do(s, true, Call(f, FetchOk)))
  {
    StaleAfter(s, true, Call(f, FetchOk));
    assert f in Stale(s) <==> s.lock != Some(f);
  }

  lemma CallKeepsInv(s: State, f: Flight, e: Effect)
    requires Inv(s) && Enabled(s, true, Call(f, e)) && e != FetchOk
    ensures Inv(Do(s, true, Call(f, e)))
  {
    hide Stale;
    StaleAfter(s, true, Call(f, e));
    OwnerAfter(s, f, e);
    var s' := Do(s, true, Call(f, e));
    assert |Stale(s')| <= |Stale(s)|;
  }

  /** A recheck that found the entry keeps its caller from fetching. */
  lemma OwnerAfter(s: State, f: Flight, e: Effect)
    requires Inv(s) && Enabled(s, true, Call(f, e)) && e != FetchOk
    ensures var s' := Do(s, true, Call(f, e));
            && s'.fetches == s.fetches && s'.expiries == s.expiries && s'.losses == s.losses && s'.cached == s.cached
            && (s'.lock.Some? ==> PcOf(s', s'.lock.value) != Start && PcOf(s', s'.lock.value) != Waiting)
            && (s'.cached && OwnerFetching(s') ==> OwnerFetching(s))
  {
    hide Stale;
  }

  lemma StepKeepsInv(s: State, step: Step)
    requires Inv(s) && Enabled(s, true, step)
    ensures Inv(Do(s, true, step))
  {
    match step
    case Call(f, FetchOk) => FetchOkKeepsInv(s, f);
    case Call(f, e) => CallKeepsInv(s, f, e);
    case _ => StaleAfter(s, true, step);
  }

  lemma {:induction false} RunKeepsInv(s: State, run: seq<Step>, end: State)
    requires Inv(s) && Run(s, true, run, end)
    ensures Inv(end)
    decreases |run|
  {
    if run != [] {
      StepKeepsInv(s, run[0]);
      RunKeepsInv(Do(s, true, run[0]), run[1..], end);
    }
  }

  /** In every interleaving, successful fetches never exceed one, plus the lock expiries
      under a holder that had not finished, plus the losses of the cached entry; and at
      most one flight more than there were such expiries is past the lock at a time. */
  lemma FetchBound(run: seq<Step>, end: State)
    requires Run(INIT, true, run, end)
    ensures end.fetches <= 1 + end.expiries + end.losses
    ensures |set f | f in end.pcs && Pending(end.pcs[f])| <= 1 + end.expiries
  {
    assert Stale(INIT) == {};
    RunKeepsInv(INIT, run, end);
    var pending := set f | f in end.pcs && Pending(end.pcs[f]);
    if HolderPending(end) {
      assert pending == Stale(end) + {end.lock.value};
    } else {
      assert pending == Stale(end);
    }
  }

  // --------------------------------------------- the bound cannot be improved

  lemma {:induction false} RunConcat(s: State, recheck: bool, a: seq<Step>, mid: State, b: seq<Step>, end: State)
    requires Run(s, recheck, a, mid) && Run(mid, recheck, b, end)
    ensures Run(s, recheck, a + b, end)
    decreases |a|
  {
    if a == [] {
      assert a + b == b;
    } else {
      RunConcat(Do(s, recheck, a[0]), recheck, a[1..], mid, b, end);
      assert (a + b)[1..] == a[1..] + b;
    }
  }

  /** One more step at the end of a run. */
  lemma RunOn(s: State, recheck: bool, run: seq<Step>, end: State, step: Step)
    requires Run(s, recheck, run, end) && Enabled(end, recheck, step)
    ensures Run(s, recheck, run + [step], Do(end, recheck, step))
  {
    assert [step][1..] == [];
    assert Run(end, recheck, [step], Do(end, recheck, step));
    RunConcat(s, recheck, run, end, [step], Do(end, recheck, step));
  }

  /** A call finds the lock free and the entry absent, and starts to fetch. */
  lemma StartFetch(run: seq<Step>, recheck: bool, s: State, f: Flight) returns (run': seq<Step>, s': State)
    requires Run(INIT, recheck, run, s) && f !in s.pcs && s.lock == None && (recheck ==> !s.cached)
    ensures Run(INIT, recheck, run', s')
    ensures s' == s.(pcs := s.pcs[f := Fetching], lock := Some(f))
  {
    hide Run;
    run', s' := Then(run, recheck, s, Call(f, Draw));
    assert s' == s.(pcs := s.pcs[f := Waiting]);
    run', s' := Then(run', recheck, s', Call(f, Acquired));
    assert s' == s.(pcs := s.pcs[f := Holding], lock := Some(f));
    run', s' := Then(run', recheck, s', Call(f, if recheck then RecheckMiss else NoRecheck));
  }

  /** A call that finds the lock free and the entry absent: it fetches and releases. */
  lemma LoneFetch(run: seq<Step>, recheck: bool, s: State, f: Flight) returns (run': seq<Step>, s': State)
    requires Run(INIT, recheck, run, s) && f !in s.pcs && s.lock == None && (recheck ==> !s.cached)
    ensures Run(INIT, recheck, run', s')
    ensures s' == s.(pcs := s.pcs[f := Returned(FromUpstream)], cached := true, fetches := s.fetches + 1)
  {
    hide Run;
    run', s' := StartFetch(run, recheck, s, f);
    run', s' := Then(run', recheck, s', Call(f, FetchOk));
    assert s' == s.(pcs := s.pcs[f := Releasing(FromUpstream)], lock := Some(f),
                    cached := true, fetches := s.fetches + 1);
    run', s' := Then(run', recheck, s', Call(f, Released));
  }

  lemma Then(run: seq<Step>, recheck: bool, s: State, step: Step) returns (run': seq<Step>, s': State)
    requires Run(INIT, recheck, run, s) && Enabled(s, recheck, step)
    ensures Run(INIT, recheck, run', s') && s' == Do(s, recheck, step)
  {
    RunOn(INIT, recheck, run, s, step);
    run', s' := run + [step], Do(s, recheck, step);
  }

  /** Each of `e` flights misses, starts to fetch, and then loses the lock to its TTL. */
  lemma {:induction false} OverrunHolders(e: nat) returns (run: seq<Step>, s: State)
    ensures Run(INIT, true, run, s) && s.lock == None && !s.cached
    ensures s.fetches == 0 && s.losses == 0 && s.expiries == e
    ensures forall f: nat :: (f in s.pcs <==> f < e) && (f < e ==> PcOf(s, f) == Fetching)
  {
    if e == 0 {
      run, s := [], INIT;
    } else {
      run, s := OverrunHolders(e - 1);
      hide Run;
      run, s := StartFetch(run, true, s, e - 1);
      run, s := Then(run, true, s, Expire);
    }
  }

  /** The overrun flights come back one by one, each with a successful fetch. */
  lemma {:induction false} OverrunsReturn(run: seq<Step>, s: State, n: nat) returns (run': seq<Step>, s': State)
    requires Run(INIT, true, run, s) && s.lock == None && s.cached
    requires forall f: nat :: f < n ==> PcOf(s, f) == Fetching
    ensures Run(INIT, true, run', s') && s'.lock == None && s'.cached
    ensures s'.fetches == s.fetches + n && s'.losses == s.losses && s'.expiries == s.expiries
    ensures s'.pcs.Keys == s.pcs.Keys
    decreases n
  {
    run', s' := run, s;
    if n > 0 {
      hide Run;
      run', s' := Then(run', true, s', Call(n - 1, FetchOk));
      run', s' := Then(run', true, s', Call(n - 1, Released));
      forall f: nat | f < n - 1 ensures PcOf(s', f) == Fetching { assert PcOf(s', f) == PcOf(s, f); }
      run', s' := OverrunsReturn(run', s', n - 1);
    }
  }

  lemma {:induction false} LoseAndRefetch(run: seq<Step>, s: State, f: Flight, l: nat)
    returns (run': seq<Step>, s': State)
    requires Run(INIT, true, run, s) && s.lock == None && s.cached && forall g :: g in s.pcs ==> g < f
    ensures Run(INIT, true, run', s')
    ensures s'.fetches == s.fetches + l && s'.losses == s.losses + l && s'.expiries == s.expiries
    decreases l
  {
    run', s' := run, s;
    if l > 0 {
      run', s' := Then(run', true, s', Lose);
      run', s' := LoneFetch(run', true, s', f);
      run', s' := LoseAndRefetch(run', s', f + 1, l - 1);
    }
  }

  /** For any number of expiries and losses some run meets the bound exactly. */
  lemma BoundIsMet(e: nat, l: nat) returns (run: seq<Step>, s: State)
    ensures Run(INIT, true, run, s)
    ensures s.expiries == e && s.losses == l && s.fetches == 1 + e + l
  {
    run, s := OverrunHolders(e);
    run, s := LoneFetch(run, true, s, e);
    run, s := OverrunsReturn(run, s, e);
    run, s := LoseAndRefetch(run, s, e + 1, l);
  }

  /** Without the recheck there is no bound at all: any number of fetches, no expiry, no
      loss. */
  lemma {:induction false} RecheckIsNeeded(n: nat) returns (run: seq<Step>, s: State)
    ensures Run(INIT, false, run, s) && s.lock == None
    ensures s.fetches == n && s.expiries == 0 && s.losses == 0
    ensures forall f :: f in s.pcs ==> f < n
  {
    run, s := [], INIT;
    if n > 0 {
      run, s := RecheckIsNeeded(n - 1);
      run, s := LoneFetch(run, false, s, n - 1);
    }
  }

  // ------------------------------------------------------------ a call, from end to end

  /** What a call that got the lock can have done when all that is left is to release it. */
  predicate Done(recheck: bool, t: seq<Effect>, how: How)
  {
    || (recheck && t == [Draw, Acquired, RecheckHit] && how == FromCache)
    || (recheck && t == [Draw, Acquired, RecheckFailed] && how == Failed)
    || (t == [Draw, Acquired, if recheck then RecheckMiss else NoRecheck, FetchOk] && how == FromUpstream)
    || (t == [Draw, Acquired, if recheck then RecheckMiss else NoRecheck, FetchFailed] && how == Failed)
  }

  /** These are all the ways through a call: it gives up without the lock, or does one of
      the above and releases. In particular it fetches only after a recheck that missed (or
      with none to make), never after one that hit or failed, and what it acquired it
      releases, last. */
  lemma CompleteCalls(recheck: bool, t: seq<Effect>, how: How)
    ensures Walk(recheck, t) == Some(Returned(how)) <==>
            || (t == [Draw, AcquireFailed] && how == Failed)
            || (|t| > 0 && t[|t| - 1] == Released && Done(recheck, t[..|t| - 1], how))
  {
    hide Walk, Done;
    WalkBack(recheck, t);
    if t != [] {
      var u := t[..|t| - 1];
      assert t == u + [t[|t| - 1]];
      AtReleasing(recheck, u, how);
      AtWaiting(recheck, u);
    }
  }

  lemma AtWaiting(recheck: bool, t: seq<Effect>)
    ensures Walk(recheck, t) == Some(Waiting) <==> t == [Draw]
  {
    hide Walk;
    WalkBack(recheck, t);
    if t != [] {
      var u := t[..|t| - 1];
      WalkBack(recheck, u);
      assert t == u + [t[|t| - 1]];
      assert Walk(recheck, u) == Some(Start) <==> u == [];
    }
  }

  lemma AtHolding(recheck: bool, t: seq<Effect>)
    ensures Walk(recheck, t) == Some(Holding) <==> t == [Draw, Acquired]
  {
    hide Walk;
    WalkBack(recheck, t);
    if t != [] {
      AtWaiting(recheck, t[..|t| - 1]);
      assert t == t[..|t| - 1] + [t[|t| - 1]];
    }
  }

  lemma AtFetching(recheck: bool, t: seq<Effect>)
    ensures Walk(recheck, t) == Some(Fetching) <==> t == [Draw, Acquired, if recheck then RecheckMiss else NoRecheck]
  {
    hide Walk;
    WalkBack(recheck, t);
    if t != [] {
      AtHolding(recheck, t[..|t| - 1]);
      assert t == t[..|t| - 1] + [t[|t| - 1]];
    }
  }

  lemma AtReleasing(recheck: bool, t: seq<Effect>, how: How)
    ensures Walk(recheck, t) == Some(Releasing(how)) <==> Done(recheck, t, how)
  {
    hide Walk;
    WalkBack(recheck, t);
    if t != [] {
      AtHolding(recheck, t[..|t| - 1]);
      AtFetching(recheck, t[..|t| - 1]);
      assert t == t[..|t| - 1] + [t[|t| - 1]];
    }
  }

  lemma WalkBack(recheck: bool, t: seq<Effect>)
    ensures t == [] ==> Walk(recheck, t) == Some(Start)
    ensures t != [] ==> Walk(recheck, t) == Onward(recheck, Walk(recheck, t[..|t| - 1]), t[|t| - 1])
    ensures t != [] ==> Walk(recheck, t) != Some(Start)
  {
  }

  function Onward(recheck: bool, pc: Option<Pc>, e: Effect): Option<Pc>
  {
    match pc case None => None case Some(p) => Advance(recheck, p, e)
  }

  // -------------------------------------------------------------- what is counted

  /** Nobody is given a lock that is held, and a recheck tells the truth. */
  lemma WhatIsEnabled(s: State, recheck: bool, f: Flight, e: Effect)
    requires Enabled(s, recheck, Call(f, e))
    ensures e == Acquired ==> s.lock == None
    ensures e == RecheckHit ==> s.cached
    ensures e == RecheckMiss ==> !s.cached
  {
  }

  /** The counters: a successful fetch; a lock that runs out under a holder that has yet to
      recheck or is fetching; an entry lost. A fetch caches its entry, a loss uncaches it. */
  lemma WhatIsCounted(s: State, recheck: bool, step: Step)
    requires Enabled(s, recheck, step)
    ensures var r := Do(s, recheck, step);
            && r.fetches == s.fetches + (if step.Call? && step.e == FetchOk then 1 else 0)
            && r.losses == s.losses + (if step.Lose? then 1 else 0)
            && r.expiries == s.expiries +
               (if step.Expire? && s.lock.value in s.pcs && s.pcs[s.lock.value] in {Holding, Fetching} then 1 else 0)
            && r.cached == (if step.Lose? then false else if step.Call? && step.e == FetchOk then true else s.cached)
            && r.lock == (if step.Call? && step.e == Acquired then Some(step.f)
                          else if step.Expire? || (step.Call? && step.e == Released && s.lock == Some(step.f)) then None
                          else s.lock)
  {
  }
}
