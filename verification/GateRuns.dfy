/** Whole runs of the conduit runtime gate: up to K unsuppressed agent runs are in flight at once and
    start and end in any order on a clock that never goes back. `fails` and `mark` are history that
    the code does not keep: the instants of the failures recorded since the last success, and how
    many of them came before the last blocked window that was found over. */
module GateRuns {
  import opened Options
  import opened Gate
  import opened Numbers

  datatype World = World(stored: Option<Record>, inFlight: nat, now: int, fails: seq<int>, mark: nat)

  datatype Event =
    | Arrive(at: int, suppressed: bool)
    | Finish(at: int, outcome: Outcome)

  const Start := World(None, 0, 0, [], 0)

  predicate Legal(s: Settings, k: nat, w: World, e: Event) {
    w.now <= e.at &&
    match e
    case Arrive(at, suppressed) => !suppressed && !Blocks(s, w.stored, at) ==> w.inFlight < k
    case Finish(_, _) => 0 < w.inFlight
  }

  function CheckAt(s: Settings, w: World, at: int): World {
    var lapsed := w.stored.Some? && Lapsed(w.stored.value, at);
    w.(stored := AfterCheck(s, w.stored, at), now := at, mark := if lapsed then |w.fails| else w.mark)
  }

  function FailAt(s: Settings, w: World, at: int): World {
    w.(stored := RecordFailure(s, w.stored, at, true), now := at, fails := w.fails + [at],
       mark := if WindowExpired(Fields(w.stored), at) then |w.fails| else w.mark)
  }

  function ClearAt(s: Settings, w: World, at: int): World {
    w.(stored := ClearIfSet(s, w.stored), now := at, fails := [], mark := 0)
  }

  function Step(s: Settings, k: nat, w: World, e: Event): World
    requires Legal(s, k, w, e)
  {
    match e
    case Arrive(at, suppressed) =>
      var checked := CheckAt(s, w, at);
      if suppressed || Blocks(s, w.stored, at) then checked else checked.(inFlight := w.inFlight + 1)
    case Finish(at, outcome) =>
      var ended := w.(inFlight := w.inFlight - 1);
      match EffectOf(outcome)
      case Clear => ClearAt(s, ended, at)
      case Fail(timeoutLike) => if timeoutLike then FailAt(s, ended, at) else ended.(now := at)
      case Leave => ended.(now := at)
  }

  /** The history in a step never steers the stored record: it changes as the gate's methods say. */
  lemma StepMatchesGate(s: Settings, k: nat, w: World, e: Event)
    requires Legal(s, k, w, e)
    ensures Step(s, k, w, e).stored ==
      match e
      case Arrive(at, _) => AfterCheck(s, w.stored, at)
      case Finish(at, outcome) => ApplyEffect(s, w.stored, EffectOf(outcome), at)
  {
  }

  predicate LegalRun(s: Settings, k: nat, w: World, es: seq<Event>)
    decreases |es|
  {
    es == [] || (Legal(s, k, w, es[0]) && LegalRun(s, k, Step(s, k, w, es[0]), es[1..]))
  }

  function Run(s: Settings, k: nat, w: World, es: seq<Event>): World
    requires LegalRun(s, k, w, es)
    decreases |es|
  {
    if es == [] then w else Run(s, k, Step(s, k, w, es[0]), es[1..])
  }

  // ----- What every reachable state satisfies

  predicate Near(fails: seq<int>, i: nat, ttl: int)
    requires 0 < i < |fails|
  {
    fails[i] - fails[i - 1] <= ttl
  }

  /** The last n failures came after the mark, each at most the failure lifetime after the one before. */
  ghost predicate Streak(fails: seq<int>, mark: nat, ttl: int, n: nat) {
    mark + n <= |fails| &&
    forall i :: |fails| - n < i < |fails| ==> Near(fails, i, ttl)
  }

  /** In every written record: active, a positive end of the window, and a count at the threshold
      coincide, and the window is the backoff for that count. */
  predicate Coherent(s: Settings, r: Record) {
    (r.active <==> r.failures >= s.threshold) &&
    (r.active <==> r.blockedUntil > 0) &&
    (r.failures > 0 <==> r.lastFailureAt.Some?) &&
    (r.active ==> r.lastFailureAt.Some? && r.blockedUntil == r.lastFailureAt.value + Backoff(s, r.failures)) &&
    (!r.active ==> r.blockedUntil == 0)
  }

  /** The stored count is the length of the longest streak that ends the history. */
  ghost predicate Agrees(s: Settings, w: World) {
    var r := Fields(w.stored);
    Streak(w.fails, w.mark, s.ttl, r.failures) &&
    !Streak(w.fails, w.mark, s.ttl, r.failures + 1) &&
    (r.failures > 0 ==> r.lastFailureAt == Some(w.fails[|w.fails| - 1]))
  }

  predicate Timely(w: World) {
    0 <= w.now &&
    (forall i :: 0 <= i < |w.fails| ==> 0 <= w.fails[i] <= w.now) &&
    (forall i, j :: 0 <= i <= j < |w.fails| ==> w.fails[i] <= w.fails[j])
  }

  /** While the gate blocks, only runs that were already in flight can add to the count. */
  predicate CountBounded(s: Settings, k: nat, w: World) {
    var r := Fields(w.stored);
    w.inFlight <= k &&
    r.failures <= s.threshold + k - 1 &&
    (r.active && w.now < r.blockedUntil ==> r.failures + w.inFlight <= s.threshold + k - 1)
  }

  /** The same, counted from failure i, while less than `base` has passed since it. */
  predicate WindowOpen(s: Settings, k: nat, w: World, i: nat)
    requires i < |w.fails|
  {
    var r := Fields(w.stored);
    var n := |w.fails| - i;
    if r.active
    then r.blockedUntil >= w.fails[i] + s.base && n + w.inFlight <= s.threshold + k - 1
    else n <= r.failures
  }

  predicate OpenWindows(s: Settings, k: nat, w: World) {
    forall i :: 0 <= i < |w.fails| && w.now < w.fails[i] + s.base ==> WindowOpen(s, k, w, i)
  }

  /** Fewer than `base` milliseconds never hold more than threshold + K - 1 recorded failures. */
  predicate RateLimited(s: Settings, k: nat, fails: seq<int>) {
    forall i, j :: 0 <= i <= j < |fails| && fails[j] < fails[i] + s.base ==> j - i + 1 <= s.threshold + k - 1
  }

  ghost predicate Invariant(s: Settings, k: nat, w: World) {
    Coherent(s, Fields(w.stored)) && Timely(w) && Agrees(s, w) &&
    CountBounded(s, k, w) && OpenWindows(s, k, w) && RateLimited(s, k, w.fails)
  }

  lemma WaitKeeps(s: Settings, k: nat, w: World, at: int)
    requires Invariant(s, k, w) && w.now <= at
    ensures Invariant(s, k, w.(now := at))
  {
    forall i | 0 <= i < |w.fails| && at < w.fails[i] + s.base
      ensures WindowOpen(s, k, w.(now := at), i)
    {
      assert WindowOpen(s, k, w, i);
    }
  }

  /** A window that is over started at least `base` ago, so no rate window is still open. */
  lemma LapseKeeps(s: Settings, k: nat, w: World)
    requires s.Sane() && Invariant(s, k, w) && Lapsed(Fields(w.stored), w.now)
    ensures Invariant(s, k, w.(stored := Some(Cleared), mark := |w.fails|))
  {
    assert forall i :: 0 <= i < |w.fails| ==> w.fails[i] + s.base <= w.now;
  }

  lemma CheckKeeps(s: Settings, k: nat, w: World, at: int)
    requires s.Sane() && s.Enabled() && Invariant(s, k, w) && w.now <= at
    ensures Invariant(s, k, CheckAt(s, w, at))
    ensures !Blocks(s, w.stored, at) ==> !Fields(CheckAt(s, w, at).stored).active
  {
    WaitKeeps(s, k, w, at);
    if w.stored.Some? && Lapsed(w.stored.value, at) {
      LapseKeeps(s, k, w.(now := at));
    }
  }

  lemma StreakGrows(fails: seq<int>, mark: nat, ttl: int, at: int, n: nat)
    requires 1 <= n
    ensures Streak(fails + [at], mark, ttl, n + 1) <==>
            Streak(fails, mark, ttl, n) && at - fails[|fails| - 1] <= ttl
  {
    var longer, last := fails + [at], |fails|;
    assert forall i :: 0 <= i < last ==> longer[i] == fails[i];
    if Streak(longer, mark, ttl, n + 1) {
      assert Near(longer, last, ttl);
      forall i | last - n < i < last
        ensures Near(fails, i, ttl)
      {
        assert Near(longer, i, ttl);
      }
    }
    if Streak(fails, mark, ttl, n) && at - fails[last - 1] <= ttl {
      forall i | last - n < i <= last
        ensures Near(longer, i, ttl)
      {
        assert i < last ==> Near(fails, i, ttl);
      }
    }
  }

  lemma FailAgrees(s: Settings, w: World, at: int)
    requires s.Sane() && s.Enabled() && w.now <= at && Timely(w) && Agrees(s, w) && Coherent(s, Fields(w.stored))
    ensures Agrees(s, FailAt(s, w, at))
  {
    var v := FailAt(s, w, at);
    var r := Fields(w.stored);
    assert v.fails[|w.fails|] == at;
    if r.failures > 0 {
      StreakGrows(w.fails, w.mark, s.ttl, at, r.failures);
      StreakGrows(w.fails, w.mark, s.ttl, at, r.failures + 1);
    }
    StreakGrows(w.fails, v.mark, s.ttl, at, 1);
    assert Streak(v.fails, v.mark, s.ttl, 1);
  }

  lemma FailCoherent(s: Settings, w: World, at: int)
    requires s.Sane() && s.Enabled() && w.now <= at && Timely(w)
    ensures var v := FailAt(s, w, at); Coherent(s, Fields(v.stored)) && Timely(v)
  {
    var c := Fields(FailAt(s, w, at).stored).failures;
    BackoffBoundedMonotone(s, c, c);
  }

  lemma FailKeepsRate(s: Settings, k: nat, w: World, at: int)
    requires s.Sane() && s.Enabled() && w.now <= at && Invariant(s, k, w) && 0 < w.inFlight
    ensures var v := FailAt(s, w.(inFlight := w.inFlight - 1), at);
      CountBounded(s, k, v) && OpenWindows(s, k, v) && RateLimited(s, k, v.fails)
  {
    var v := FailAt(s, w.(inFlight := w.inFlight - 1), at);
    var r, c := Fields(w.stored), Fields(v.stored).failures;
    BackoffBoundedMonotone(s, c, c);
    forall i | 0 <= i < |v.fails| && at < v.fails[i] + s.base
      ensures WindowOpen(s, k, v, i) && |v.fails| - i <= s.threshold + k - 1
    {
      if i < |w.fails| {
        assert WindowOpen(s, k, w, i);
        assert w.fails[i] <= w.fails[|w.fails| - 1];
      }
    }
  }

  /** The end of a run that leaves the failure count alone, or that clears it. */
  lemma EndKeeps(s: Settings, k: nat, w: World, at: int)
    requires s.Sane() && s.Enabled() && Invariant(s, k, w) && w.now <= at && 0 < w.inFlight
    ensures var ended := w.(inFlight := w.inFlight - 1);
      Invariant(s, k, ended.(now := at)) && Invariant(s, k, ClearAt(s, ended, at))
  {
    var ended := w.(inFlight := w.inFlight - 1);
    forall i | 0 <= i < |w.fails| && w.now < w.fails[i] + s.base
      ensures WindowOpen(s, k, ended, i)
    {
      assert WindowOpen(s, k, w, i);
    }
    WaitKeeps(s, k, ended, at);
  }

  lemma AdmitKeeps(s: Settings, k: nat, w: World)
    requires Invariant(s, k, w) && !Fields(w.stored).active && w.inFlight < k
    ensures Invariant(s, k, w.(inFlight := w.inFlight + 1))
  {
    forall i | 0 <= i < |w.fails| && w.now < w.fails[i] + s.base
      ensures WindowOpen(s, k, w.(inFlight := w.inFlight + 1), i)
    {
      assert WindowOpen(s, k, w, i);
    }
  }

  lemma FailKeeps(s: Settings, k: nat, w: World, at: int)
    requires s.Sane() && s.Enabled() && Invariant(s, k, w) && w.now <= at && 0 < w.inFlight
    ensures Invariant(s, k, FailAt(s, w.(inFlight := w.inFlight - 1), at))
  {
    var ended := w.(inFlight := w.inFlight - 1);
    FailCoherent(s, ended, at);
    FailAgrees(s, ended, at);
    FailKeepsRate(s, k, w, at);
  }

  lemma ArriveKeeps(s: Settings, k: nat, w: World, at: int, suppressed: bool)
    requires s.Sane() && s.Enabled() && Invariant(s, k, w) && Legal(s, k, w, Arrive(at, suppressed))
    ensures Invariant(s, k, Step(s, k, w, Arrive(at, suppressed)))
  {
    var checked := CheckAt(s, w, at);
    CheckKeeps(s, k, w, at);
    if !suppressed && !Blocks(s, w.stored, at) {
      AdmitKeeps(s, k, checked);
    }
  }

  lemma FinishKeeps(s: Settings, k: nat, w: World, at: int, o: Outcome)
    requires s.Sane() && s.Enabled() && Invariant(s, k, w) && Legal(s, k, w, Finish(at, o))
    ensures Invariant(s, k, Step(s, k, w, Finish(at, o)))
  {
    var ended := w.(inFlight := w.inFlight - 1);
    var v := Step(s, k, w, Finish(at, o));
    EndKeeps(s, k, w, at);
    match EffectOf(o)
    case Clear => assert v == ClearAt(s, ended, at);
    case Fail(timeoutLike) =>
      if timeoutLike {
        FailKeeps(s, k, w, at);
        assert v == FailAt(s, ended, at);
      }
    case Leave =>
  }

  lemma StepKeeps(s: Settings, k: nat, w: World, e: Event)
    requires s.Sane() && s.Enabled() && Invariant(s, k, w) && Legal(s, k, w, e)
    ensures Invariant(s, k, Step(s, k, w, e))
  {
    match e
    case Arrive(at, suppressed) => ArriveKeeps(s, k, w, at, suppressed);
    case Finish(at, o) => FinishKeeps(s, k, w, at, o);
  }

  lemma {:induction false} RunKeeps(s: Settings, k: nat, w: World, es: seq<Event>)
    requires s.Sane() && s.Enabled() && Invariant(s, k, w) && LegalRun(s, k, w, es)
    ensures Invariant(s, k, Run(s, k, w, es))
    decreases |es|
  {
    if es != [] {
      StepKeeps(s, k, w, es[0]);
      RunKeeps(s, k, Step(s, k, w, es[0]), es[1..]);
    }
  }

  // ----- Main results: every run from the absent gate file, for every environment. The clock and the
  // ends of the windows it opens stay within what a date can hold: the write of a later end throws.

  /** With at most K unsuppressed runs in flight, the count never passes threshold + K - 1. */
  lemma CountNeverExceeds(env: Environment, k: nat, es: seq<Event>)
    requires var s := Resolve(env); s.Enabled() && LegalRun(s, k, Start, es)
    ensures var s := Resolve(env);
      Fields(Run(s, k, Start, es).stored).failures <= s.threshold + k - 1
  {
    RunKeeps(Resolve(env), k, Start, es);
  }

  /** Runs one at a time are always blocked for exactly the backoff of the threshold itself. */
  lemma SequentialRunsBlockForOneBackoff(env: Environment, es: seq<Event>)
    requires var s := Resolve(env); s.Enabled() && LegalRun(s, 1, Start, es)
    ensures var s := Resolve(env);
      var r := Fields(Run(s, 1, Start, es).stored);
      r.active ==> r.failures == s.threshold && r.lastFailureAt.Some? &&
                   r.blockedUntil == r.lastFailureAt.value + Backoff(s, s.threshold)
  {
    RunKeeps(Resolve(env), 1, Start, es);
  }

  lemma StreakShorter(fails: seq<int>, mark: nat, ttl: int, m: nat, n: nat)
    requires m <= n && Streak(fails, mark, ttl, n)
    ensures Streak(fails, mark, ttl, m)
  {
  }

  // ----- The history by itself

  /** What the events say without the gate: the instants of the timeout-like failures since the last
      success, and how many of them a finished window has put behind. */
  datatype Past = Past(fails: seq<int>, mark: nat)

  /** The failures that end the history, each within the lifetime of the one before. */
  function Longest(fails: seq<int>, mark: nat, ttl: int): nat {
    if |fails| <= mark then 0
    else
      var n := |fails| - 1;
      if n > 0 && fails[n] - fails[n - 1] <= ttl then Longest(fails[..n], mark, ttl) + 1 else 1
  }

  /** The instant up to which such a history blocks. */
  function BlockedUntil(s: Settings, p: Past): Option<int> {
    var n := Longest(p.fails, p.mark, s.ttl);
    if n >= s.threshold && p.fails != [] then Some(p.fails[|p.fails| - 1] + Backoff(s, n)) else None
  }

  predicate WindowOver(s: Settings, p: Past, at: int) {
    BlockedUntil(s, p).Some? && BlockedUntil(s, p).value <= at
  }

  function Remember(s: Settings, p: Past, e: Event): Past {
    match e
    case Arrive(at, _) => if WindowOver(s, p, at) then p.(mark := |p.fails|) else p
    case Finish(at, o) =>
      if Succeeded(o) then Past([], 0)
      else if TimedOut(o) then Past(p.fails + [at], if WindowOver(s, p, at) then |p.fails| else p.mark)
      else p
  }

  function Recall(s: Settings, p: Past, es: seq<Event>): Past
    decreases |es|
  {
    if es == [] then p else Recall(s, Remember(s, p, es[0]), es[1..])
  }

  lemma {:induction false} LongestIsStreak(fails: seq<int>, mark: nat, ttl: int)
    requires mark <= |fails|
    ensures var n := Longest(fails, mark, ttl); Streak(fails, mark, ttl, n) && !Streak(fails, mark, ttl, n + 1)
    decreases |fails|
  {
    if mark < |fails| {
      var last := |fails| - 1;
      var before, at := fails[..last], fails[last];
      var n := Longest(before, mark, ttl);
      LongestIsStreak(before, mark, ttl);
      assert fails == before + [at];
      StreakGrows(before, mark, ttl, at, 1);
      StreakGrows(before, mark, ttl, at, n + 1);
      if n > 0 {
        StreakGrows(before, mark, ttl, at, n);
      }
    }
  }

  /** Two lengths that no longer streak exceeds are the same. */
  lemma StreakUnique(fails: seq<int>, mark: nat, ttl: int, m: nat, n: nat)
    requires Streak(fails, mark, ttl, m) && !Streak(fails, mark, ttl, m + 1)
    requires Streak(fails, mark, ttl, n) && !Streak(fails, mark, ttl, n + 1)
    ensures m == n
  {
    StreakShorter(fails, mark, ttl, if m < n then m + 1 else n, n);
    StreakShorter(fails, mark, ttl, if n < m then n + 1 else m, m);
  }

  /** The gate's record is what the events add up to. */
  ghost predicate Remembered(s: Settings, w: World, p: Past) {
    var r := Fields(w.stored);
    w.fails == p.fails && w.mark == p.mark <= |p.fails| &&
    r.failures == Longest(p.fails, p.mark, s.ttl) &&
    (r.active <==> BlockedUntil(s, p).Some?) &&
    r.blockedUntil == if BlockedUntil(s, p).Some? then BlockedUntil(s, p).value else 0
  }

  lemma RecordIsPast(s: Settings, k: nat, w: World)
    requires s.Sane() && Invariant(s, k, w)
    ensures Remembered(s, w, Past(w.fails, w.mark))
  {
    LongestIsStreak(w.fails, w.mark, s.ttl);
    StreakUnique(w.fails, w.mark, s.ttl, Longest(w.fails, w.mark, s.ttl), Fields(w.stored).failures);
  }

  lemma StepRemembers(s: Settings, k: nat, w: World, e: Event)
    requires s.Sane() && s.Enabled() && Invariant(s, k, w) && Legal(s, k, w, e)
    ensures var v := Step(s, k, w, e); Past(v.fails, v.mark) == Remember(s, Past(w.fails, w.mark), e)
  {
    RecordIsPast(s, k, w);
  }

  lemma {:induction false} RunRemembers(s: Settings, k: nat, w: World, es: seq<Event>)
    requires s.Sane() && s.Enabled() && Invariant(s, k, w) && LegalRun(s, k, w, es)
    ensures Remembered(s, Run(s, k, w, es), Recall(s, Past(w.fails, w.mark), es))
    decreases |es|
  {
    if es == [] {
      RecordIsPast(s, k, w);
    } else {
      StepRemembers(s, k, w, es[0]);
      StepKeeps(s, k, w, es[0]);
      RunRemembers(s, k, Step(s, k, w, es[0]), es[1..]);
    }
  }

  /** No stretch of failures without a success in between that is shorter than `base` holds more
      than threshold + K - 1 of them; blocked windows that end on the way do not matter. */
  lemma FailuresAreRateLimited(env: Environment, k: nat, es: seq<Event>, i: nat, j: nat)
    requires var s := Resolve(env); s.Enabled() && LegalRun(s, k, Start, es)
    requires var s := Resolve(env); var fails := Recall(s, Past([], 0), es).fails;
      i <= j < |fails| && fails[j] < fails[i] + s.base
    ensures j - i + 1 <= Resolve(env).threshold + k - 1
  {
    RunRemembers(Resolve(env), k, Start, es);
    RunKeeps(Resolve(env), k, Start, es);
  }

  /** The stored record is a function of what has happened: the count is the length of the longest streak
      of failures that ends the history, each within the failure lifetime of the one before and none
      followed by a success or a finished window. The gate blocks on nothing else: it is active exactly
      when the last `threshold` failures are such a streak, and blocks up to the backoff after the last. */
  lemma GateAgreesWithHistory(env: Environment, k: nat, es: seq<Event>)
    requires var s := Resolve(env); s.Enabled() && LegalRun(s, k, Start, es)
    ensures var s := Resolve(env);
      var w, p := Run(s, k, Start, es), Recall(s, Past([], 0), es);
      var r := Fields(w.stored);
      && r.failures == Longest(p.fails, p.mark, s.ttl)
      && (forall n: nat :: Streak(p.fails, p.mark, s.ttl, n) <==> n <= r.failures)
      && (r.active <==> Streak(p.fails, p.mark, s.ttl, s.threshold))
      && (r.active ==> p.fails != [] && r.blockedUntil == p.fails[|p.fails| - 1] + Backoff(s, r.failures))
      && forall at :: w.now <= at ==> (Blocks(s, w.stored, at) <==> r.active && at < r.blockedUntil)
  {
    var s := Resolve(env);
    RunKeeps(s, k, Start, es);
    RunRemembers(s, k, Start, es);
    var w := Run(s, k, Start, es);
    var r := Fields(w.stored);
    forall n: nat
      ensures Streak(w.fails, w.mark, s.ttl, n) <==> n <= r.failures
    {
      if n <= r.failures {
        StreakShorter(w.fails, w.mark, s.ttl, n, r.failures);
      }
    }
  }

  /** In particular a success right before leaves nothing, whatever came earlier. */
  lemma SuccessForgets(env: Environment, k: nat, es: seq<Event>, at: int, o: Outcome)
    requires var s := Resolve(env);
      s.Enabled() && LegalRun(s, k, Start, es) && Legal(s, k, Run(s, k, Start, es), Finish(at, o)) && Succeeded(o)
    ensures var s := Resolve(env);
      var w := Step(s, k, Run(s, k, Start, es), Finish(at, o));
      Fields(w.stored) == Cleared && w.fails == [] && forall later :: at <= later ==> !Blocks(s, w.stored, later)
  {
    var s := Resolve(env);
    RunKeeps(s, k, Start, es);
    StepKeeps(s, k, Run(s, k, Start, es), Finish(at, o));
  }

  // ----- Both bounds are reached

  function Burst(s: Settings, c: nat, inFlight: nat): World {
    var active := c >= s.threshold;
    World(if c == 0 then None else Some(Record(c, if active then Backoff(s, c) else 0, Some(0), active)),
          inFlight, 0, seq(c, _ => 0), 0)
  }

  lemma BurstFails(s: Settings, k: nat, c: nat, inFlight: nat)
    requires s.Sane() && s.Enabled() && 0 < inFlight
    ensures var e := Finish(0, Threw(true, false));
      Legal(s, k, Burst(s, c, inFlight), e) &&
      Step(s, k, Burst(s, c, inFlight), e) == Burst(s, c + 1, inFlight - 1)
  {
    BackoffBoundedMonotone(s, c, c);
    assert seq(c, _ => 0) + [0] == seq(c + 1, _ => 0);
  }

  /** Failures at one instant, one run at a time up to the threshold and K at once from there on, until
      `left` of those are still in flight. */
  lemma {:induction false} Climb(s: Settings, k: nat, c: nat, inFlight: nat, left: nat) returns (es: seq<Event>)
    requires s.Sane() && s.Enabled() && left < k && c + inFlight <= s.threshold + k - 1
    requires c + left <= s.threshold + k - 1
    requires c < s.threshold - 1 ==> inFlight <= 1
    requires c >= s.threshold ==> c + inFlight == s.threshold + k - 1
    ensures LegalRun(s, k, Burst(s, c, inFlight), es)
    ensures Run(s, k, Burst(s, c, inFlight), es) == Burst(s, s.threshold + k - 1 - left, left)
    decreases s.threshold + k - c, k - inFlight
  {
    var w := Burst(s, c, inFlight);
    if c == s.threshold + k - 1 - left {
      return [];
    }
    var arrives := if c < s.threshold - 1 then inFlight == 0 else c + inFlight < s.threshold + k - 1;
    var e := if arrives then Arrive(0, false) else Finish(0, Threw(true, false));
    if arrives {
      es := Climb(s, k, c, inFlight + 1, left);
      assert Step(s, k, w, e) == Burst(s, c, inFlight + 1);
    } else {
      BurstFails(s, k, c, inFlight);
      es := Climb(s, k, c + 1, inFlight - 1, left);
    }
    var rest := es;
    es := [e] + rest;
    assert es[1..] == rest;
  }

  /** For every K there is a run that stores a count of exactly threshold + K - 1, all of those
      failures at one instant: neither bound can be lowered. */
  lemma BoundsAreReached(env: Environment, k: nat) returns (es: seq<Event>)
    requires Resolve(env).Enabled() && 1 <= k
    ensures var s := Resolve(env);
      LegalRun(s, k, Start, es) &&
      var w := Run(s, k, Start, es);
      Fields(w.stored).failures == s.threshold + k - 1 && w.fails == seq(s.threshold + k - 1, _ => 0)
  {
    var s := Resolve(env);
    assert Start == Burst(s, 0, 0);
    es := Climb(s, k, 0, 0, 0);
  }

  // ----- A failure can open a blocked gate

  /** After the run, a run that is still in flight fails at `at`, while the gate blocks, and the gate
      that this leaves does not block. */
  predicate OpensEarly(s: Settings, k: nat, es: seq<Event>, at: int) {
    LegalRun(s, k, Start, es) &&
    var w := Run(s, k, Start, es);
    w.now <= at && 0 < w.inFlight && Blocks(s, w.stored, at) &&
    !Blocks(s, FailAt(s, w.(inFlight := w.inFlight - 1), at).stored, at)
  }

  /** It happens exactly when the failure before is older than the failure lifetime and the threshold is
      above one: then the count starts over. */
  lemma StaleFailureOpens(s: Settings, k: nat, es: seq<Event>, at: int)
    requires s.Sane() && s.Enabled() && LegalRun(s, k, Start, es)
    requires var w := Run(s, k, Start, es); w.now <= at && 0 < w.inFlight && Blocks(s, w.stored, at)
    ensures OpensEarly(s, k, es, at) <==> Stale(s, Fields(Run(s, k, Start, es).stored), at) && s.threshold > 1
  {
    RunKeeps(s, k, Start, es);
    var next := NextFailures(s, Fields(Run(s, k, Start, es).stored), at);
    BackoffBoundedMonotone(s, next, next);
  }

  /** The settings under which it can happen at all: two runs in flight, a threshold above one, and a
      backoff for threshold + K - 2 failures that outlasts the failure lifetime by two milliseconds. */
  predicate CanOpenEarly(s: Settings, k: nat) {
    2 <= k && 1 < s.threshold && s.ttl + 2 <= Backoff(s, s.threshold + k - 2)
  }

  /** Some run has a failure that opens a blocked gate if and only if the settings are such. */
  lemma FailureOpensGateExactly(env: Environment, k: nat)
    requires Resolve(env).Enabled()
    ensures CanOpenEarly(Resolve(env), k) <==> exists es, at :: OpensEarly(Resolve(env), k, es, at)
  {
    var s := Resolve(env);
    if CanOpenEarly(s, k) {
      var es := Climb(s, k, 0, 0, 1);
      assert Start == Burst(s, 0, 0);
      BackoffBoundedMonotone(s, s.threshold + k - 2, s.threshold + k - 2);
      StaleFailureOpens(s, k, es, s.ttl + 1);
      assert OpensEarly(s, k, es, s.ttl + 1);
    } else {
      forall es, at
        ensures !OpensEarly(s, k, es, at)
      {
        if OpensEarly(s, k, es, at) {
          StaleFailureOpens(s, k, es, at);
          RunKeeps(s, k, Start, es);
          var r := Fields(Run(s, k, Start, es).stored);
          BackoffBoundedMonotone(s, r.failures, s.threshold + k - 2);
          assert false;
        }
      }
    }
  }

  /** With a threshold of 3, a base of 5 s, a cap of 40 s and a lifetime of 10 s, two runs in flight
      suffice; with the default settings no number of runs does. */
  lemma EarlyOpening()
    ensures exists es, at ::
      OpensEarly(Resolve(Environment(Some(3.0), Some(5000.0), Some(40000.0), Some(10000.0), false, false)), 2, es, at)
    ensures forall k: nat, es, at ::
      !OpensEarly(Resolve(Environment(None, None, None, None, false, false)), k, es, at)
  {
    var tight := Environment(Some(3.0), Some(5000.0), Some(40000.0), Some(10000.0), false, false);
    assert Resolve(tight) == Settings(3, 5000, 40000, 10000, false, false);
    assert Pow2(2) == 4;
    FailureOpensGateExactly(tight, 2);
    var usual := Environment(None, None, None, None, false, false);
    assert Resolve(usual) == Settings(2, 300_000, 1_800_000, 21_600_000, false, false);
    forall k: nat, es, at
      ensures !OpensEarly(Resolve(usual), k, es, at)
    {
      if 2 <= k {
        BackoffBoundedMonotone(Resolve(usual), k, k);
      }
      FailureOpensGateExactly(usual, k);
    }
  }
}
