/** The in-process lock table: mutex-guarded entries, one release channel per entry, TTL
    timers, and callers parked on a channel, in every interleaving. */
module Locker {

  /** An Acquire call is named by the token it draws before waiting. */
  type Token = nat
  type Chan = nat

  datatype Entry = Entry(token: Token, release: Chan, timed: bool)

  /** Where an Acquire call, and then its Lock, is. */
  datatype Call =
    | Trying(key: string, timed: bool)               // about to take the mutex
    | Parked(key: string, timed: bool, on: Chan)     // waiting on a release channel
    | Locked(key: string)                            // returned a Lock, to be released at any time
    | GaveUp                                         // ctx was done

  /** A TTL timer that has not run yet; `fired` once its callback is waiting for the mutex
      and can no longer be stopped. */
  datatype Timer = Timer(key: string, token: Token, fired: bool)

  datatype State = State(
    held: map<string, Entry>,
    closes: seq<Chan>,        // every channel close, in order
    chans: nat,               // channels made so far
    calls: map<Token, Call>,
    timers: set<Timer>)

  datatype Step =
    | Begin(token: Token, key: string, timed: bool)
    | Try(token: Token)                              // one pass of Acquire's loop body
    | Wake(token: Token)                             // the channel waited on is closed
    | GiveUp(token: Token)                           // ctx is done
    | Fire(timer: Timer)
    | EvictExpired(key: string, token: Token)
    | Release(token: Token)

  const EMPTY := State(map[], [], 0, map[], {})

  predicate Enabled(s: State, step: Step)
  {
    match step
    case Begin(t, _, _) => t !in s.calls
    case Try(t) => t in s.calls && s.calls[t].Trying?
    case Wake(t) => t in s.calls && s.calls[t].Parked? && s.calls[t].on in s.closes
    case GiveUp(t) => t in s.calls && (s.calls[t].Trying? || s.calls[t].Parked?)
    case Fire(timer) => timer in s.timers && !timer.fired
    case EvictExpired(key, t) => Timer(key, t, true) in s.timers
    case Release(t) => t in s.calls && s.calls[t].Locked?
  }

  /** The entry for `key` leaves the table and its channel is closed. */
  function Drop(s: State, key: string): State
    requires key in s.held
  {
    s.(held := s.held - {key}, closes := s.closes + [s.held[key].release])
  }

  function Do(s: State, step: Step): State
    requires Enabled(s, step)
  {
    match step
    case Begin(t, key, timed) => s.(calls := s.calls[t := Trying(key, timed)])
    case Try(t) =>
      var key, timed := s.calls[t].key, s.calls[t].timed;
      if key in s.held then s.(calls := s.calls[t := Parked(key, timed, s.held[key].release)])
      else s.(held := s.held[key := Entry(t, s.chans, timed)],
              chans := s.chans + 1,
              calls := s.calls[t := Locked(key)],
              timers := if timed then s.timers + {Timer(key, t, false)} else s.timers)
    case Wake(t) => s.(calls := s.calls[t := Trying(s.calls[t].key, s.calls[t].timed)])
    case GiveUp(t) => s.(calls := s.calls[t := GaveUp])
    case Fire(timer) => s.(timers := s.timers - {timer} + {timer.(fired := true)})
    case EvictExpired(key, t) =>
      var s1 := s.(timers := s.timers - {Timer(key, t, true)});
      if key in s.held && s.held[key].token == t then Drop(s1, key) else s1
    case Release(t) =>
      var key := s.calls[t].key;
      if key in s.held && s.held[key].token == t
      then Drop(s.(timers := s.timers - {Timer(key, t, false)}), key)
      else s
  }

  predicate Run(s: State, run: seq<Step>, end: State)
    decreases |run|
  {
    if run == [] then s == end
    else Enabled(s, run[0]) && Run(Do(s, run[0]), run[1..], end)
  }

  // ----------------------------------------------------------------- invariant

  /** Some entry in the table owns channel `c`. */
  ghost predicate Open(s: State, c: Chan)
  {
    exists k :: k in s.held && s.held[k].release == c
  }

  ghost predicate Owned(s: State)
  {
    && (forall k :: k in s.held ==> s.held[k].token in s.calls && s.calls[s.held[k].token] == Locked(k))
    && (forall k :: k in s.held && s.held[k].timed ==>
          Timer(k, s.held[k].token, false) in s.timers || Timer(k, s.held[k].token, true) in s.timers)
  }

  ghost predicate Channels(s: State)
  {
    && (forall k :: k in s.held ==> s.held[k].release < s.chans)
    && (forall j, k :: j in s.held && k in s.held && s.held[j].release == s.held[k].release ==> j == k)
    && (forall i, j :: 0 <= i < j < |s.closes| ==> s.closes[i] != s.closes[j])
    && (forall c: Chan :: c in s.closes <==> c < s.chans && !Open(s, c))
  }

  ghost predicate Waiters(s: State)
  {
    forall t :: t in s.calls && s.calls[t].Parked? ==>
      s.calls[t].on in s.closes ||
      (s.calls[t].key in s.held && s.held[s.calls[t].key].release == s.calls[t].on)
  }

  ghost predicate Inv(s: State) { Owned(s) && Channels(s) && Waiters(s) }

  lemma DropKeeps(s: State, key: string)
    requires Channels(s) && Waiters(s) && key in s.held
    ensures Channels(Drop(s, key)) && Waiters(Drop(s, key))
    ensures s.held[key].release !in s.closes
  {
    var c := s.held[key].release;
    var s' := Drop(s, key);
    assert Open(s, c);
    forall d: Chan ensures d in s'.closes <==> d < s'.chans && !Open(s', d) {
      if Open(s, d) && d != c {
        var k :| k in s.held && s.held[k].release == d;
        assert k in s'.held && s'.held[k].release == d;
      }
    }
  }

  lemma TakeKeeps(s: State, t: Token)
    requires Inv(s) && Enabled(s, Try(t)) && s.calls[t].key !in s.held
    ensures Inv(Do(s, Try(t)))
  {
    var s' := Do(s, Try(t));
    var key := s.calls[t].key;
    forall d: Chan ensures d in s'.closes <==> d < s'.chans && !Open(s', d) {
      if d == s.chans { assert s'.held[key].release == d; }
      if Open(s, d) {
        var k :| k in s.held && s.held[k].release == d;
        assert k in s'.held && s'.held[k].release == d;
      }
    }
  }

  /** Channels and the table are a matter of `held`, `closes` and `chans` alone. */
  lemma SameTable(s: State, s': State)
    requires Channels(s) && s'.held == s.held && s'.closes == s.closes && s'.chans == s.chans
    ensures Channels(s')
  {
    assert forall c: Chan :: Open(s, c) <==> Open(s', c);
  }

  /** A change of timers alone. */
  lemma SameCalls(s: State, s': State)
    requires Waiters(s) && s'.held == s.held && s'.closes == s.closes && s'.calls == s.calls
    ensures Waiters(s')
  {
  }

  /** Steps that leave the table alone. */
  lemma QuietKeeps(s: State, step: Step)
    requires Inv(s) && Enabled(s, step)
    requires Do(s, step).held == s.held
    ensures Inv(Do(s, step))
  {
    hide Channels, Waiters, Owned;
    QuietTable(s, step);
    SameTable(s, Do(s, step));
    QuietOwned(s, step);
    QuietWaiters(s, step);
  }

  lemma QuietTable(s: State, step: Step)
    requires Enabled(s, step) && Do(s, step).held == s.held
    ensures Do(s, step).closes == s.closes && Do(s, step).chans == s.chans
  {
  }

  lemma QuietOwned(s: State, step: Step)
    requires Owned(s) && Enabled(s, step) && Do(s, step).held == s.held
    ensures Owned(Do(s, step))
  {
    hide Channels, Waiters;
  }

  lemma QuietWaiters(s: State, step: Step)
    requires Waiters(s) && Enabled(s, step) && Do(s, step).held == s.held
    ensures Waiters(Do(s, step))
  {
    hide Channels, Owned;
    QuietTable(s, step);
  }

  lemma EvictKeeps(s: State, key: string, t: Token)
    requires Inv(s) && Enabled(s, EvictExpired(key, t)) && key in s.held && s.held[key].token == t
    ensures Inv(Do(s, EvictExpired(key, t)))
  {
    hide Channels, Waiters, Owned;
    var s1 := s.(timers := s.timers - {Timer(key, t, true)});
    SameTable(s, s1);
    SameCalls(s, s1);
    DropKeeps(s1, key);
    DropOwned(s, key, Timer(key, t, true));
  }

  lemma ReleaseKeeps(s: State, t: Token)
    requires Inv(s) && Enabled(s, Release(t)) && s.calls[t].key in s.held && s.held[s.calls[t].key].token == t
    ensures Inv(Do(s, Release(t)))
  {
    hide Channels, Waiters, Owned;
    var key := s.calls[t].key;
    var s1 := s.(timers := s.timers - {Timer(key, t, false)});
    SameTable(s, s1);
    SameCalls(s, s1);
    DropKeeps(s1, key);
    DropOwned(s, key, Timer(key, t, false));
  }

  /** The entry goes together with a timer of its own. */
  lemma DropOwned(s: State, key: string, timer: Timer)
    requires Owned(s) && key in s.held && timer.key == key
    ensures Owned(Drop(s.(timers := s.timers - {timer}), key))
  {
  }

  lemma StepKeepsInv(s: State, step: Step)
    requires Inv(s) && Enabled(s, step)
    ensures Inv(Do(s, step))
  {
    hide Inv;
    if Do(s, step).held == s.held {
      QuietKeeps(s, step);
    } else {
      match step
      case Try(t) => TakeKeeps(s, t);
      case EvictExpired(key, t) => EvictKeeps(s, key, t);
      case Release(t) => ReleaseKeeps(s, t);
    }
  }

  lemma {:induction false} RunKeepsInv(s: State, run: seq<Step>, end: State)
    requires Inv(s) && Run(s, run, end)
    ensures Inv(end)
    decreases |run|
  {
    if run != [] {
      StepKeepsInv(s, run[0]);
      RunKeepsInv(Do(s, run[0]), run[1..], end);
    }
  }

  // ------------------------------------------------------------------ theorems

  /** In every interleaving: each release channel is closed at most once, and is closed
      exactly when its entry has left the table. */
  lemma ClosedExactlyOnce(run: seq<Step>, end: State, c: Chan)
    requires Run(EMPTY, run, end) && c < end.chans
    ensures c in end.closes <==> !(exists k :: k in end.held && end.held[k].release == c)
    ensures forall i, j :: 0 <= i < |end.closes| && 0 <= j < |end.closes| && end.closes[i] == end.closes[j] ==> i == j
  {
    RunKeepsInv(EMPTY, run, end);
    assert Open(end, c) <==> exists k :: k in end.held && end.held[k].release == c;
  }

  /** No lost wake-up: a parked caller can go on at once, unless it waits on the channel
      of the call that holds its key now. */
  lemma NoLostWakeUp(run: seq<Step>, end: State, t: Token)
    requires Run(EMPTY, run, end) && t in end.calls && end.calls[t].Parked?
    ensures var w := end.calls[t];
            Enabled(end, Wake(t)) <==> !(w.key in end.held && end.held[w.key].release == w.on)
  {
    RunKeepsInv(EMPTY, run, end);
    var w := end.calls[t];
    if w.key in end.held && end.held[w.key].release == w.on { assert Open(end, w.on); }
  }

  /** A holder with a TTL cannot keep the key for ever: its timer is still to run, and
      running it frees the key and wakes every caller parked on it. */
  lemma TimerFreesKey(run: seq<Step>, end: State, key: string)
    requires Run(EMPTY, run, end) && key in end.held && end.held[key].timed
    ensures var t := end.held[key].token;
            var s := if Timer(key, t, false) in end.timers then Do(end, Fire(Timer(key, t, false))) else end;
            && Enabled(s, EvictExpired(key, t))
            && key !in Do(s, EvictExpired(key, t)).held
            && forall u :: u in end.calls && end.calls[u].Parked? && end.calls[u].key == key ==>
                 Enabled(Do(s, EvictExpired(key, t)), Wake(u))
  {
    RunKeepsInv(EMPTY, run, end);
  }

  /** Who holds `key`: what the stampede protocol sees of the table. */
  datatype Holder = Free | By(token: Token)

  function HolderOf(s: State, key: string): Holder
  {
    if key in s.held then By(s.held[key].token) else Free
  }

  /** A key changes hands only from free to a caller that was trying for it, and back to
      free by its own holder's release or its own holder's timer: a stale timer or a
      stale holder never removes a successor, and touches nothing else either. */
  lemma HandOver(s: State, step: Step, key: string)
    requires Inv(s) && Enabled(s, step)
    ensures var was, now := HolderOf(s, key), HolderOf(Do(s, step), key);
            && (was != now ==>
                  || (was == Free && step.Try? && now == By(step.token) && s.calls[step.token].key == key)
                  || (was.By? && now == Free && step == EvictExpired(key, was.token))
                  || (was.By? && now == Free && step == Release(was.token) && s.calls[was.token] == Locked(key)))
            && (step.EvictExpired? && HolderOf(s, step.key) != By(step.token) ==>
                  Do(s, step).held == s.held && Do(s, step).closes == s.closes)
            && (step.Release? && HolderOf(s, s.calls[step.token].key) != By(step.token) ==> Do(s, step) == s)
  {
    hide Channels, Waiters;
  }

  // ------------------------------------------------------------------- the code

  class LocalLocker {
    var held: map<string, Entry>
    var closes: seq<Chan>
    var chans: nat
    var timers: set<Timer>
    ghost var calls: map<Token, Call>

    ghost function View(): State
      reads this
    {
      State(held, closes, chans, calls, timers)
    }

    constructor ()
      ensures View() == EMPTY && Inv(View())
    {
      held, closes, chans, timers, calls := map[], [], 0, {}, map[];
    }

    /** close(ch), which panics on a channel that is already closed. */
    method Close(c: Chan)
      requires c !in closes
      modifies this`closes
      ensures closes == old(closes) + [c]
    {
      closes := closes + [c];
    }

    /** The mutex section of one pass of Acquire's loop. */
    method TryAcquire(token: Token, key: string, timed: bool) returns (got: bool, wait: Chan)
      requires Inv(View()) && token in calls && calls[token] == Trying(key, timed)
      modifies this
      ensures View() == Do(old(View()), Try(token)) && Inv(View())
      ensures got <==> key !in old(held)
      ensures !got ==> key in held && wait == held[key].release && wait !in closes
    {
      StepKeepsInv(View(), Try(token));
      if key in held {
        wait, got := held[key].release, false;
        calls := calls[token := Parked(key, timed, wait)];
        assert Open(View(), wait);
      } else {
        wait, got := chans, true;
        held := held[key := Entry(token, chans, timed)];
        chans := chans + 1;
        if timed { timers := timers + {Timer(key, token, false)}; }
        calls := calls[token := Locked(key)];
      }
    }

    method EvictExpired(key: string, token: Token)
      requires Inv(View()) && Timer(key, token, true) in timers
      modifies this
      ensures View() == Do(old(View()), Step.EvictExpired(key, token)) && Inv(View())
    {
      hide Owned, Waiters;
      StepKeepsInv(View(), Step.EvictExpired(key, token));
      timers := timers - {Timer(key, token, true)};
      if key !in held || held[key].token != token { return; }
      NotYetClosed(View(), key);
      Close(held[key].release);
      held := held - {key};
    }

    /** `fenced` is the error for a lock that a later holder has taken over. */
    method Release(key: string, token: Token) returns (fenced: bool)
      requires Inv(View()) && token in calls && calls[token] == Locked(key)
      modifies this
      ensures View() == Do(old(View()), Step.Release(token)) && Inv(View())
      ensures fenced <==> HolderOf(old(View()), key).By? && HolderOf(old(View()), key) != By(token)
    {
      StepKeepsInv(View(), Step.Release(token));
      if key !in held { return false; }
      if held[key].token != token { return true; }
      NotYetClosed(View(), key);
      timers := timers - {Timer(key, token, false)};
      Close(held[key].release);
      held := held - {key};
      return false;
    }
  }

  lemma NotYetClosed(s: State, key: string)
    requires Channels(s) && key in s.held
    ensures s.held[key].release !in s.closes
  {
    assert Open(s, s.held[key].release);
  }
}
