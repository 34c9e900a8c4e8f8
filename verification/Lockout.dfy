/** The account lockout shared by every online-guessing surface: how many wrong guesses can
    be answered on their merits before time t. */
module Lockout {
  import opened Common

  datatype Throttle = Throttle(failed: nat, lockedUntil: Option<Time>)

  const CLEAR := Throttle(0, None)

  /** The threshold and the lockout duration, and whether the store starts a new failure
      window once a lockout has expired. The port's contract does not ask for that; the
      stores of this repository do it. */
  datatype Policy = Policy(threshold: int, duration: Time, restarts: bool) {
    predicate Enabled() { threshold > 0 && duration > 0 }
  }

  datatype Surface = PasswordSignIn | PasswordChange | EmailCode | MagicLink | SecondFactor

  /** A serialized call: its clock readings for the lock check, the failure record and the
      lockout deadline, and whether the secret it presents is right. */
  datatype Event =
    | Attempt(surface: Surface, correct: bool, factorPending: bool, check: Time, at: Time, deadline: Time)
    | Reset(at: Time)

  /** The throttle, and the times of the wrong guesses answered so far as history. */
  datatype Account = Account(throttle: Throttle, wrong: seq<Time>)

  const FRESH := Account(CLEAR, [])

  predicate Locked(t: Throttle, now: Time) {
    t.lockedUntil.Some? && now < t.lockedUntil.value
  }

  /** A wrong secret counts on every surface where it can be guessed; a link cannot. */
  predicate Counts(e: Event) {
    e.Attempt? && !e.correct && !e.surface.MagicLink?
  }

  /** A reset, or a right secret with no second factor left, completes and clears. A right
      current password changes the password but clears nothing. */
  predicate Completes(e: Event) {
    match e
    case Attempt(surface, correct, factorPending, _, _, _) =>
      correct && !surface.PasswordChange? && (surface.SecondFactor? || !factorPending)
    case Reset(_) => true
  }

  function RecordFailure(p: Policy, t: Throttle, at: Time, until: Time): Throttle {
    var base := if p.restarts && t.lockedUntil.Some? && at >= t.lockedUntil.value then CLEAR else t;
    Throttle(base.failed + 1,
             if p.threshold > 0 && base.failed + 1 >= p.threshold then Some(until) else base.lockedUntil)
  }

  function Step(p: Policy, a: Account, e: Event): Account {
    if e.Reset? then a.(throttle := CLEAR)
    else if p.threshold > 0 && Locked(a.throttle, e.check) then a
    else if Completes(e) then a.(throttle := CLEAR)
    else if Counts(e) then
      Account(if p.threshold > 0 then RecordFailure(p, a.throttle, e.at, e.deadline + p.duration) else a.throttle,
              a.wrong + [e.at])
    else a
  }

  function Run(p: Policy, a: Account, events: seq<Event>): Account
    decreases |events|
  {
    if events == [] then a else Run(p, Step(p, a, events[0]), events[1..])
  }

  /** Clock readings in order. */
  predicate Ordered(events: seq<Event>, now: Time)
    decreases |events|
  {
    if events == [] then true
    else if events[0].Reset? then now <= events[0].at && Ordered(events[1..], events[0].at)
    else now <= events[0].check <= events[0].at <= events[0].deadline && Ordered(events[1..], events[0].deadline)
  }

  predicate NoCompletion(events: seq<Event>) {
    forall e | e in events :: !Completes(e)
  }

  /** The last clock reading of a run. */
  function Clock(events: seq<Event>, now: Time): Time
    decreases |events|
  {
    if events == [] then now
    else Clock(events[1..], if events[0].Reset? then events[0].at else events[0].deadline)
  }

  // ----- the bound for a store that restarts the window -----

  /** `q` lockouts have run out since the threshold was first reached, and the window after
      them holds `r` failures: the account is locked exactly when the window is full. */
  predicate Windowed(p: Policy, a: Account, now: Time, q: nat, r: nat)
    requires p.Enabled()
  {
    && |a.wrong| == q * p.threshold + r && r <= |a.wrong| && r <= p.threshold && (r == 0 ==> q == 0)
    && a.throttle.failed == r
    && (a.throttle.lockedUntil.Some? <==> r == p.threshold)
    && (a.wrong != [] ==> a.wrong[|a.wrong| - 1] <= now)
    && (r == p.threshold ==> a.throttle.lockedUntil.value >= a.wrong[|a.wrong| - 1] + p.duration)
    && (|a.wrong| >= p.threshold ==> a.wrong[|a.wrong| - 1] >= a.wrong[p.threshold - 1] + q * p.duration)
  }

  lemma CountsAhead(p: Policy, q: nat, r: nat)
    requires p.Enabled() && r <= p.threshold && (r == 0 ==> q == 0)
    ensures q * p.threshold >= 0 && (q + 1) * p.threshold == q * p.threshold + p.threshold
    ensures (q + 1) * p.duration == q * p.duration + p.duration
    ensures q > 0 ==> q * p.threshold >= p.threshold
  {
  }

  lemma WindowedStep(p: Policy, a: Account, e: Event, now: Time, q: nat, r: nat) returns (q': nat, r': nat)
    requires p.Enabled() && p.restarts && Windowed(p, a, now, q, r)
    requires e.Attempt? && now <= e.check <= e.at <= e.deadline && !Completes(e)
    ensures Windowed(p, Step(p, a, e), e.deadline, q', r')
  {
    CountsAhead(p, q, r);
    if Locked(a.throttle, e.check) || !Counts(e) {
      q', r' := q, r;
    } else if r == p.threshold {
      q', r' := q + 1, 1;
    } else {
      q', r' := q, r + 1;
    }
  }

  lemma {:induction false} RunWindowed(p: Policy, a: Account, events: seq<Event>, now: Time, q: nat, r: nat)
    returns (q': nat, r': nat)
    requires p.Enabled() && p.restarts && Windowed(p, a, now, q, r)
    requires Ordered(events, now) && NoCompletion(events)
    ensures Windowed(p, Run(p, a, events), Clock(events, now), q', r')
    decreases |events|
  {
    if events == [] {
      q', r' := q, r;
    } else {
      var q1, r1 := WindowedStep(p, a, events[0], now, q, r);
      q', r' := RunWindowed(p, Step(p, a, events[0]), events[1..], events[0].deadline, q1, r1);
    }
  }

  lemma ProductGrows(n: int, a: int, b: int)
    requires n >= 0 && a <= b
    ensures n * a <= n * b
  {
  }

  lemma QuotientAtLeast(x: int, d: int, q: nat)
    requires d > 0 && x >= q * d
    ensures x / d >= q
  {
    var k := x / d;
    assert d * (k + 1) == d * k + d > x;
    if k + 1 <= q {
      ProductGrows(d, k + 1, q);
    }
  }

  /** With threshold N and lockout D, at most N(1 + (t - tN)/D) wrong guesses are answered
      by time t, whatever else succeeds in between while a second factor is pending. */
  lemma WrongGuessesBounded(p: Policy, events: seq<Event>, start: Time)
    requires p.Enabled() && p.restarts && Ordered(events, start) && NoCompletion(events)
    ensures var wrong := Run(p, FRESH, events).wrong;
      |wrong| >= p.threshold ==>
        |wrong| <= p.threshold * (1 + (Clock(events, start) - wrong[p.threshold - 1]) / p.duration)
  {
    assert 0 * p.threshold == 0;
    var q, r := RunWindowed(p, FRESH, events, start, 0, 0);
    var wrong := Run(p, FRESH, events).wrong;
    if |wrong| >= p.threshold {
      var elapsed := Clock(events, start) - wrong[p.threshold - 1];
      QuotientAtLeast(elapsed, p.duration, q);
      ProductGrows(p.threshold, 1 + q, 1 + elapsed / p.duration);
    }
  }

  // ----- the bound for a store that never restarts it -----

  predicate Counting(p: Policy, a: Account, now: Time)
    requires p.Enabled()
  {
    var k := |a.wrong|;
    && a.throttle.failed == k && (a.throttle.lockedUntil.Some? <==> k >= p.threshold)
    && (k > 0 ==> a.wrong[k - 1] <= now)
    && (k >= p.threshold ==>
          && a.throttle.lockedUntil.value >= a.wrong[k - 1] + p.duration
          && a.wrong[k - 1] >= a.wrong[p.threshold - 1] + (k - p.threshold) * p.duration)
  }

  lemma {:induction false} RunCounting(p: Policy, a: Account, events: seq<Event>, now: Time)
    requires p.Enabled() && !p.restarts && Counting(p, a, now)
    requires Ordered(events, now) && NoCompletion(events)
    ensures Counting(p, Run(p, a, events), Clock(events, now))
    decreases |events|
  {
    if events != [] {
      var e := events[0];
      var k := |a.wrong|;
      assert (k + 1 - p.threshold) * p.duration == (k - p.threshold) * p.duration + p.duration;
      assert e in events && !Completes(e);
      assert Counting(p, Step(p, a, e), e.deadline);
      RunCounting(p, Step(p, a, e), events[1..], e.deadline);
    }
  }

  /** A store that keeps counting and locks at or above the threshold answers at most
      N + (t - tN)/D wrong guesses by time t. */
  lemma CountingStoreBounded(p: Policy, events: seq<Event>, start: Time)
    requires p.Enabled() && !p.restarts && Ordered(events, start) && NoCompletion(events)
    ensures WithinCountingBound(p, events, start)
  {
    RunCounting(p, FRESH, events, start);
    var wrong := Run(p, FRESH, events).wrong;
    if |wrong| >= p.threshold {
      QuotientAtLeast(Clock(events, start) - wrong[p.threshold - 1], p.duration, |wrong| - p.threshold);
    }
  }

  predicate WithinCountingBound(p: Policy, events: seq<Event>, start: Time)
    requires p.Enabled()
  {
    var wrong := Run(p, FRESH, events).wrong;
    |wrong| >= p.threshold ==>
      |wrong| <= p.threshold + (Clock(events, start) - wrong[p.threshold - 1]) / p.duration
  }

  // ----- when the two agree -----

  function Guess(at: Time): Event {
    Attempt(PasswordSignIn, false, false, at, at, at)
  }

  function Guesses(n: nat, at: Time): seq<Event> {
    if n == 0 then [] else [Guess(at)] + Guesses(n - 1, at)
  }

  lemma {:induction false} GuessesOrdered(n: nat, at: Time, now: Time)
    requires now <= at
    ensures Ordered(Guesses(n, at), now) && NoCompletion(Guesses(n, at))
    ensures Clock(Guesses(n, at), now) == if n == 0 then now else at
  {
    if n > 0 {
      GuessesOrdered(n - 1, at, at);
    }
  }

  lemma {:induction false} RunSplits(p: Policy, a: Account, first: seq<Event>, second: seq<Event>)
    ensures Run(p, a, first + second) == Run(p, Run(p, a, first), second)
    decreases |first|
  {
    if first == [] {
      assert first + second == second;
    } else {
      assert (first + second)[1..] == first[1..] + second;
      RunSplits(p, Step(p, a, first[0]), first[1..], second);
    }
  }

  lemma {:induction false} OrderedSplits(first: seq<Event>, second: seq<Event>, now: Time)
    requires Ordered(first, now) && Ordered(second, Clock(first, now))
    ensures Ordered(first + second, now) && Clock(first + second, now) == Clock(second, Clock(first, now))
    decreases |first|
  {
    if first == [] {
      assert first + second == second;
    } else {
      assert (first + second)[1..] == first[1..] + second;
      OrderedSplits(first[1..], second, if first[0].Reset? then first[0].at else first[0].deadline);
    }
  }

  /** A full window of guesses is answered as soon as the previous lockout has run out. */
  lemma {:induction false} WindowAnswered(p: Policy, a: Account, n: nat, at: Time)
    requires p.Enabled() && p.restarts && !Locked(a.throttle, at)
    requires a.throttle.lockedUntil.None? ==> a.throttle.failed + n <= p.threshold
    requires a.throttle.lockedUntil.Some? ==> n <= p.threshold
    ensures var b := Run(p, a, Guesses(n, at));
      && |b.wrong| == |a.wrong| + n && a.wrong <= b.wrong
      && (forall i | |a.wrong| <= i < |b.wrong| :: b.wrong[i] == at)
      && (n > 0 && (n == p.threshold || (a.throttle.lockedUntil.None? && a.throttle.failed + n == p.threshold)) ==>
            b.throttle.lockedUntil == Some(at + p.duration))
    decreases n
  {
    if n > 0 {
      var b := Step(p, a, Guess(at));
      assert Run(p, a, Guesses(n, at)) == Run(p, b, Guesses(n - 1, at)) by {
        assert Guesses(n, at)[1..] == Guesses(n - 1, at);
      }
      if n > 1 {
        WindowAnswered(p, b, n - 1, at);
      } else {
        assert Run(p, b, Guesses(0, at)) == b;
      }
    }
  }

  /** A full window at the start, and one as each of `q` lockouts runs out. */
  function Windows(p: Policy, q: nat): seq<Event>
    requires p.Enabled()
  {
    if q == 0 then Guesses(p.threshold, 0) else Windows(p, q - 1) + Guesses(p.threshold, q * p.duration)
  }

  lemma {:induction false} WindowsOrdered(p: Policy, q: nat)
    requires p.Enabled()
    ensures Ordered(Windows(p, q), 0) && NoCompletion(Windows(p, q)) && Clock(Windows(p, q), 0) == q * p.duration
  {
    if q == 0 {
      GuessesOrdered(p.threshold, 0, 0);
    } else {
      WindowsOrdered(p, q - 1);
      assert q * p.duration == (q - 1) * p.duration + p.duration;
      GuessesOrdered(p.threshold, q * p.duration, (q - 1) * p.duration);
      OrderedSplits(Windows(p, q - 1), Guesses(p.threshold, q * p.duration), 0);
    }
  }

  lemma {:induction false} WindowsAnswered(p: Policy, q: nat)
    requires p.Enabled() && p.restarts
    ensures var a := Run(p, FRESH, Windows(p, q));
      && |a.wrong| == p.threshold * (q + 1) && |a.wrong| >= p.threshold && a.wrong[p.threshold - 1] == 0
      && a.throttle.lockedUntil == Some(q * p.duration + p.duration)
  {
    if q == 0 {
      WindowAnswered(p, FRESH, p.threshold, 0);
    } else {
      var n, at := p.threshold, q * p.duration;
      WindowsAnswered(p, q - 1);
      var a := Run(p, FRESH, Windows(p, q - 1));
      assert at == (q - 1) * p.duration + p.duration && n * (q + 1) == n * q + n;
      WindowAnswered(p, a, n, at);
      RunSplits(p, FRESH, Windows(p, q - 1), Guesses(n, at));
    }
  }

  /** The restarting bound is reached after any number of lockouts. */
  lemma BoundIsReached(p: Policy, q: nat)
    requires p.Enabled() && p.restarts
    ensures Ordered(Windows(p, q), 0) && NoCompletion(Windows(p, q))
    ensures var wrong, t := Run(p, FRESH, Windows(p, q)).wrong, Clock(Windows(p, q), 0);
      && |wrong| >= p.threshold && (t - wrong[p.threshold - 1]) / p.duration == q
      && |wrong| == p.threshold * (1 + (t - wrong[p.threshold - 1]) / p.duration)
  {
    WindowsOrdered(p, q);
    WindowsAnswered(p, q);
    QuotientOfProduct(q, p.duration);
  }

  lemma QuotientOfProduct(q: nat, d: int)
    requires d > 0
    ensures (q * d) / d == q
  {
    QuotientAtLeast(q * d, d, q);
    var k := q * d / d;
    assert d * k <= q * d;
    if k >= q + 1 {
      ProductGrows(d, q + 1, k);
    }
  }

  /** A restarting store meets the counting bound on every run exactly when one wrong guess
      is enough to lock. */
  lemma CountingBoundIff(p: Policy)
    requires p.Enabled() && p.restarts
    ensures p.threshold == 1 <==>
      forall events, start :: Ordered(events, start) && NoCompletion(events) ==> WithinCountingBound(p, events, start)
  {
    if p.threshold == 1 {
      forall events, start | Ordered(events, start) && NoCompletion(events)
        ensures WithinCountingBound(p, events, start)
      {
        WrongGuessesBounded(p, events, start);
      }
    } else {
      BoundIsReached(p, 1);
      assert !WithinCountingBound(p, Windows(p, 1), 0);
    }
  }

  // ----- clearing and holding -----

  lemma {:induction false} GuessesCount(p: Policy, a: Account, n: nat, at: Time)
    requires p.Enabled() && a.throttle.lockedUntil.None? && a.throttle.failed + n <= p.threshold
    ensures var b := Run(p, a, Guesses(n, at));
      && |b.wrong| == |a.wrong| + n && b.throttle.failed == a.throttle.failed + n
      && b.throttle.lockedUntil == if n > 0 && a.throttle.failed + n == p.threshold then Some(at + p.duration) else None
    decreases n
  {
    if n > 0 {
      var b := Step(p, a, Guess(at));
      assert Guesses(n, at)[1..] == Guesses(n - 1, at);
      if n > 1 {
        GuessesCount(p, b, n - 1, at);
      } else {
        assert Run(p, b, Guesses(0, at)) == b;
      }
    }
  }

  /** A reset, or a completed sign-in of an account that is not locked, gives a fresh window:
      whatever had failed before, the next wrong guesses are answered, and exactly the one
      that fills the threshold locks. */
  lemma CompletionClears(p: Policy, a: Account, e: Event, n: nat, at: Time)
    requires p.Enabled() && Completes(e) && (e.Reset? || !Locked(a.throttle, e.check)) && n <= p.threshold
    ensures var b := Run(p, Step(p, a, e), Guesses(n, at));
      |b.wrong| == |a.wrong| + n && (Locked(b.throttle, at) <==> n == p.threshold)
  {
    GuessesCount(p, Step(p, a, e), n, at);
  }

  /** A locked account stays as it is, right secrets included, until the lockout runs out or
      the password is reset. */
  lemma {:induction false} LockoutHolds(p: Policy, a: Account, events: seq<Event>)
    requires p.Enabled() && a.throttle.lockedUntil.Some?
    requires forall e | e in events :: e.Attempt? && e.check < a.throttle.lockedUntil.value
    ensures Run(p, a, events) == a
    decreases |events|
  {
    if events != [] {
      assert events[0] in events && forall e | e in events[1..] :: e in events;
      assert Step(p, a, events[0]) == a;
      LockoutHolds(p, a, events[1..]);
    }
  }

  /** What neither counts nor clears: a wrong link, and a right secret that does not complete
      a sign-in. */
  lemma OthersChangeNothing(p: Policy, a: Account, e: Event)
    requires e.Attempt?
    requires if e.correct then e.surface.PasswordChange? || (e.factorPending && !e.surface.SecondFactor?)
             else e.surface.MagicLink?
    ensures Step(p, a, e) == a
  {
  }

  // ----- the store's record, updated in place -----

  class Record {
    var failed: nat
    var lockedUntil: Option<Time>

    function View(): Throttle
      reads this
    {
      Throttle(failed, lockedUntil)
    }

    constructor ()
      ensures View() == CLEAR
    {
      failed, lockedUntil := 0, None;
    }

    /** Counts a failure, restarting the window after an expired lockout. */
    method RecordLoginFailure(p: Policy, at: Time, until: Time)
      modifies this
      ensures View() == RecordFailure(p, old(View()), at, until)
    {
      if p.restarts && lockedUntil.Some? && at >= lockedUntil.value {
        failed, lockedUntil := 0, None;
      }
      failed := failed + 1;
      if p.threshold > 0 && failed >= p.threshold {
        lockedUntil := Some(until);
      }
    }

    /** One call on any of the surfaces; `answered` if the secret was judged and was wrong. */
    method Serve(p: Policy, e: Event) returns (answered: bool)
      modifies this
      ensures forall wrong :: var after := Step(p, Account(old(View()), wrong), e);
        View() == after.throttle && after.wrong == if answered then wrong + [e.at] else wrong
    {
      answered := false;
      if e.Reset? {
        failed, lockedUntil := 0, None;
        return;
      }
      if p.threshold > 0 && lockedUntil.Some? && e.check < lockedUntil.value {
        return;
      }
      if e.correct {
        if !e.surface.PasswordChange? && (e.surface.SecondFactor? || !e.factorPending) {
          failed, lockedUntil := 0, None;
        }
      } else if !e.surface.MagicLink? {
        if p.threshold > 0 {
          RecordLoginFailure(p, e.at, e.deadline + p.duration);
        }
        answered := true;
      }
    }
  }
}
