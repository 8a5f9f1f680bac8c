/** The in-process lock table is a lock as the stampede protocol wants it: seen through one
    key, every step of the table is an acquisition, a release, an expiry or no step of the
    protocol. */
module LockSimulation {
  import opened Wrappers
  import L = Locker
  import S = Stampede

  function LockOf(l: L.State, key: string): Option<S.Flight>
  {
    match L.HolderOf(l, key)
    case Free => None
    case By(t) => Some(t)
  }

  /** Callers that want `key` wait in the protocol, holders are past its lock, and nobody
      else has started. */
  ghost predicate Matches(l: L.State, key: string, s: S.State)
  {
    && s.lock == LockOf(l, key)
    && (forall t :: t !in l.calls ==> S.PcOf(s, t) == S.Start)
    && (forall t :: t in l.calls && (l.calls[t].Trying? || l.calls[t].Parked?) && l.calls[t].key == key ==>
          S.PcOf(s, t) == S.Waiting)
  }

  /** What a step of the table is to the protocol. */
  function Move(l: L.State, step: L.Step, key: string): Option<S.Step>
    requires L.Enabled(l, step)
  {
    match step
    case Begin(t, k, _) => if k == key then Some(S.Call(t, S.Draw)) else None
    case Try(t) => if l.calls[t].key == key && key !in l.held then Some(S.Call(t, S.Acquired)) else None
    case GiveUp(t) => if l.calls[t].key == key then Some(S.Call(t, S.AcquireFailed)) else None
    case EvictExpired(k, t) => if k == key && LockOf(l, key) == Some(t) then Some(S.Expire) else None
    case Release(t) => if l.calls[t].key == key then Some(S.Call(t, S.Released)) else None
    case _ => None
  }

  /** A flight releases its lock when its program does: deferred, after everything else. */
  predicate InOrder(l: L.State, step: L.Step, key: string, s: S.State)
    requires L.Enabled(l, step)
  {
    step.Release? && l.calls[step.token].key == key ==> S.PcOf(s, step.token).Releasing?
  }

  /** Every step of the table, by whichever caller, timer or holder and on whichever key,
      is matched. */
  lemma TableStep(l: L.State, step: L.Step, key: string, s: S.State, recheck: bool)
    requires L.Enabled(l, step) && Matches(l, key, s) && InOrder(l, step, key, s)
    ensures match Move(l, step, key)
            case None => Matches(L.Do(l, step), key, s)
            case Some(m) => S.Enabled(s, recheck, m) && Matches(L.Do(l, step), key, S.Do(s, recheck, m))
  {
    hide L.Inv, S.Inv, S.Stale, S.HolderPending;
  }

  /** What a flight does between acquiring and releasing, and losing the entry, do not
      concern the table. */
  predicate Private(m: S.Step)
  {
    m.Lose? || (m.Call? && m.e !in {S.Draw, S.AcquireFailed, S.Acquired, S.Released})
  }

  lemma PrivateStep(l: L.State, key: string, s: S.State, recheck: bool, m: S.Step)
    requires Matches(l, key, s) && Private(m) && S.Enabled(s, recheck, m)
    ensures Matches(l, key, S.Do(s, recheck, m))
  {
  }

  // ------------------------------------------------------------------ whole runs

  datatype Event = Table(step: L.Step) | Flight(move: S.Step)

  /** The table and the flights for one key, running together. A step of the table is the
      table's to make; that the protocol allows what it comes to is for the proof. */
  ghost predicate Together(l: L.State, s: S.State, key: string, run: seq<Event>, end: S.State)
    decreases |run|
  {
    if run == [] then s == end
    else match run[0]
      case Table(step) =>
        && L.Enabled(l, step) && InOrder(l, step, key, s)
        && (match Move(l, step, key)
            case None => Together(L.Do(l, step), s, key, run[1..], end)
            case Some(m) =>
              S.Enabled(s, true, m) ==> Together(L.Do(l, step), S.Do(s, true, m), key, run[1..], end))
      case Flight(m) =>
        Private(m) && S.Enabled(s, true, m) && Together(l, S.Do(s, true, m), key, run[1..], end)
  }

  /** A run of the table and the flights is a run of the protocol. */
  lemma {:induction false} TogetherIsRun(l: L.State, s: S.State, key: string, run: seq<Event>, end: S.State)
    returns (steps: seq<S.Step>)
    requires Matches(l, key, s) && Together(l, s, key, run, end)
    ensures S.Run(s, true, steps, end)
    decreases |run|
  {
    hide L.Do, Matches;
    if run == [] { return []; }
    match run[0]
    case Table(step) =>
      TableStep(l, step, key, s, true);
      match Move(l, step, key) {
        case None => steps := TogetherIsRun(L.Do(l, step), s, key, run[1..], end);
        case Some(m) =>
          var rest := TogetherIsRun(L.Do(l, step), S.Do(s, true, m), key, run[1..], end);
          steps := [m] + rest;
      }
    case Flight(m) =>
      PrivateStep(l, key, s, true, m);
      var rest := TogetherIsRun(l, S.Do(s, true, m), key, run[1..], end);
      steps := [m] + rest;
  }

  /** So the bound on fetches holds over the lock table as it is coded. */
  lemma LocalFetchBound(key: string, run: seq<Event>, end: S.State)
    requires Together(L.EMPTY, S.INIT, key, run, end)
    ensures end.fetches <= 1 + end.expiries + end.losses
  {
    var steps := TogetherIsRun(L.EMPTY, S.INIT, key, run, end);
    S.FetchBound(steps, end);
  }
}
