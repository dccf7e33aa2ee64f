/** The conduit runtime gate: a persisted circuit breaker with a failure threshold, a stale-failure
    lifetime and a capped exponential backoff. `RuntimeGate` keeps the stored record; the functions
    below it are the specification its methods are proved against. */
module Gate {
  import opened Numbers
  import opened Options

  const DEFAULT_BASE_MS := 300_000
  const DEFAULT_MAX_MS := 1_800_000
  const DEFAULT_THRESHOLD := 2
  const DEFAULT_FAILURE_TTL_MS := 21_600_000

  /** The four tunables as the environment gives them: None where the text is not a finite number. */
  datatype Environment = Environment(
    threshold: Option<real>, baseMs: Option<real>, maxMs: Option<real>, ttlMs: Option<real>,
    disabled: bool, forceProbe: bool)

  datatype Settings = Settings(
    threshold: int, base: int, max: int, ttl: int, disabled: bool, forceProbe: bool)
  {
    /** What every environment yields, whatever it contains (see `Resolve`). */
    predicate Sane() {
      1 <= threshold && 5000 <= base <= max && 2 * base <= ttl
    }

    /** The gate is consulted and updated as usual. */
    predicate Enabled() {
      !disabled && !forceProbe
    }
  }

  function ParsePositiveInt(raw: Option<real>, fallback: int): int {
    match raw
    case None => fallback
    case Some(n) => if n <= 0.0 then fallback else n.Floor
  }

  function Resolve(env: Environment): (s: Settings)
    ensures s.Sane()
  {
    var base := Max(5000, ParsePositiveInt(env.baseMs, DEFAULT_BASE_MS));
    Settings(
      Max(1, ParsePositiveInt(env.threshold, DEFAULT_THRESHOLD)),
      base,
      Max(base, ParsePositiveInt(env.maxMs, DEFAULT_MAX_MS)),
      Max(base * 2, ParsePositiveInt(env.ttlMs, DEFAULT_FAILURE_TTL_MS)),
      env.disabled, env.forceProbe)
  }

  function Backoff(s: Settings, failures: int): int {
    if failures <= 1 then s.base
    else Min(s.max, s.base * Pow2(Min(8, Max(0, failures - 1))))
  }

  lemma ScaleMonotone(factor: int, x: int, y: int)
    requires 0 <= factor && x <= y
    ensures factor * x <= factor * y
  {
  }

  /** The wait stays between the base and the cap, and never shrinks as failures accumulate. */
  lemma BackoffBoundedMonotone(s: Settings, m: int, n: int)
    requires s.Sane() && m <= n
    ensures s.base <= Backoff(s, m) <= Backoff(s, n) <= s.max
  {
    var p, q := Min(8, Max(0, m - 1)), Min(8, Max(0, n - 1));
    Pow2Monotone(p, q);
    ScaleMonotone(s.base, 1, Pow2(p));
    ScaleMonotone(s.base, Pow2(p), Pow2(q));
  }

  /** The first failure waits for the base, each further one up to the ninth for twice as long as the one
      before, all within the cap, and from the ninth on the wait stays. */
  lemma BackoffDoubles(s: Settings, n: nat)
    requires s.Sane()
    ensures n <= 1 ==> Backoff(s, n) == s.base
    ensures 1 <= n < 9 ==> Backoff(s, n + 1) == Min(s.max, 2 * Backoff(s, n))
    ensures 9 <= n ==> Backoff(s, n) == Backoff(s, 9)
  {
    if 1 < n < 9 {
      assert Pow2(n) == 2 * Pow2(n - 1);
      DoubleProduct(s.base, Pow2(n - 1));
    } else if n == 1 {
      assert Pow2(1) == 2 * Pow2(0);
    }
  }

  lemma DoubleProduct(base: int, p: int)
    ensures base * (2 * p) == 2 * (base * p)
  {
  }

  /** Each tunable by itself: what a number in the environment sets it to, and what it is otherwise. */
  lemma ResolveReads(env: Environment)
    ensures var s := Resolve(env);
      && s.disabled == env.disabled && s.forceProbe == env.forceProbe
      && (match env.threshold case None => s.threshold == 2 case Some(x) =>
            if x <= 0.0 then s.threshold == 2 else if x < 1.0 then s.threshold == 1 else s.threshold == x.Floor)
      && (match env.baseMs case None => s.base == 300_000 case Some(x) =>
            if x <= 0.0 then s.base == 300_000 else if x < 5000.0 then s.base == 5000 else s.base == x.Floor)
      && (match env.maxMs case None => s.max == Max(s.base, 1_800_000) case Some(x) =>
            if x <= 0.0 then s.max == Max(s.base, 1_800_000) else s.max == Max(s.base, x.Floor))
      && (match env.ttlMs case None => s.ttl == Max(2 * s.base, 21_600_000) case Some(x) =>
            if x <= 0.0 then s.ttl == Max(2 * s.base, 21_600_000) else s.ttl == Max(2 * s.base, x.Floor))
  {
  }

  /** The fields of the stored record that decisions read. Instants are milliseconds. */
  datatype Record = Record(failures: nat, blockedUntil: int, lastFailureAt: Option<int>, active: bool)

  const Cleared := Record(0, 0, None, false)

  /** The stored record as reads see it: an absent file reads as an empty object. */
  function Fields(stored: Option<Record>): Record {
    if stored.Some? then stored.value else Cleared
  }

  /** `clearRuntimeGateIfSet` */
  function ClearIfSet(s: Settings, stored: Option<Record>): Option<Record> {
    if s.disabled || stored.None? then stored
    else if stored.value.failures == 0 && !stored.value.active then stored
    else Some(Cleared)
  }

  /** The blocked window has been entered and is over. */
  predicate Lapsed(r: Record, now: int) {
    r.blockedUntil <= now && (r.active || r.blockedUntil > 0)
  }

  predicate Blocks(s: Settings, stored: Option<Record>, now: int) {
    s.Enabled() && stored.Some? && now < stored.value.blockedUntil
  }

  /** The record after `buildGateActiveError` has looked at it. */
  function AfterCheck(s: Settings, stored: Option<Record>, now: int): Option<Record> {
    if s.Enabled() && stored.Some? && Lapsed(stored.value, now) then ClearIfSet(s, stored) else stored
  }

  predicate Stale(s: Settings, r: Record, now: int) {
    match r.lastFailureAt
    case None => true
    case Some(at) => now - at > s.ttl
  }

  predicate WindowExpired(r: Record, now: int) {
    0 < r.blockedUntil <= now
  }

  function NextFailures(s: Settings, r: Record, now: int): nat {
    if Stale(s, r, now) || WindowExpired(r, now) then 1 else r.failures + 1
  }

  /** `recordRuntimeGateFailure` */
  function RecordFailure(s: Settings, stored: Option<Record>, now: int, timeoutLike: bool): Option<Record> {
    if s.disabled || !timeoutLike then stored
    else
      var failures := NextFailures(s, Fields(stored), now);
      var activate := failures >= s.threshold;
      Some(Record(failures, if activate then now + Backoff(s, failures) else 0, Some(now), activate))
  }

  /** How an admitted run ends. `compat` says that the compatibility fallback produced a result. */
  datatype Outcome =
    | ProbeFailed(timeoutLike: bool, compat: bool)
    | Answered(exitOk: bool, unknownCommand: bool, reasonTimeoutLike: bool, compat: bool)
    | Threw(timeoutLike: bool, compat: bool)

  datatype Effect = Clear | Fail(timeoutLike: bool) | Leave

  function EffectOf(o: Outcome): Effect {
    match o
    case ProbeFailed(timeoutLike, compat) => if compat then Clear else Fail(timeoutLike)
    case Answered(exitOk, unknownCommand, reasonTimeoutLike, compat) =>
      if !exitOk && unknownCommand && compat then Clear
      else if exitOk then Clear
      else if reasonTimeoutLike then Fail(true)
      else Leave
    case Threw(timeoutLike, compat) => if timeoutLike && compat then Clear else Fail(timeoutLike)
  }

  /** The run gave its caller a result: exit 0, or a compatibility fallback that was asked for and
      produced one. It is asked for after a failed probe, an unknown command and a timeout-like error. */
  predicate Succeeded(o: Outcome) {
    match o
    case ProbeFailed(_, compat) => compat
    case Answered(exitOk, unknownCommand, _, compat) => exitOk || (unknownCommand && compat)
    case Threw(timeoutLike, compat) => timeoutLike && compat
  }

  /** The run failed in a way that reads like a timeout. */
  predicate TimedOut(o: Outcome) {
    !Succeeded(o) &&
    match o
    case ProbeFailed(timeoutLike, _) => timeoutLike
    case Answered(_, _, reasonTimeoutLike, _) => reasonTimeoutLike
    case Threw(timeoutLike, _) => timeoutLike
  }

  /** Every way a run can end. */
  lemma EveryEnd(u: bool, t: bool, c: bool)
    ensures Succeeded(Answered(true, u, t, c)) && Succeeded(Answered(false, true, t, true))
    ensures Succeeded(ProbeFailed(t, true)) && Succeeded(Threw(true, true))
    ensures TimedOut(ProbeFailed(true, false)) && TimedOut(Threw(true, false))
    ensures TimedOut(Answered(false, false, true, c)) && TimedOut(Answered(false, true, true, false))
    ensures !Succeeded(ProbeFailed(false, false)) && !TimedOut(ProbeFailed(false, false))
    ensures !Succeeded(Threw(false, c)) && !TimedOut(Threw(false, c))
    ensures !Succeeded(Answered(false, false, false, c)) && !TimedOut(Answered(false, false, false, c))
    ensures !Succeeded(Answered(false, true, false, false)) && !TimedOut(Answered(false, true, false, false))
  {
  }

  function ApplyEffect(s: Settings, stored: Option<Record>, e: Effect, now: int): Option<Record> {
    match e
    case Clear => ClearIfSet(s, stored)
    case Fail(timeoutLike) => RecordFailure(s, stored, now, timeoutLike)
    case Leave => stored
  }

  /** A gate that is switched off reads and writes nothing, and one that is forced to probe never blocks. */
  lemma SwitchedOff(s: Settings, stored: Option<Record>, now: int, o: Outcome)
    ensures s.disabled || s.forceProbe ==> !Blocks(s, stored, now) && AfterCheck(s, stored, now) == stored
    ensures s.disabled ==> ApplyEffect(s, stored, EffectOf(o), now) == stored
    ensures !s.disabled && TimedOut(o) ==>
      Fields(ApplyEffect(s, stored, EffectOf(o), now)).lastFailureAt == Some(now)
  {
  }

  /** How one timeout-like failure is counted: on from the stored count, unless the one before is more
      than the failure lifetime ago or a window that it opened is over. */
  lemma FailureCounts(s: Settings, r: Record, now: int)
    requires !s.disabled && (r.failures > 0 ==> r.lastFailureAt.Some?)
    ensures var after := RecordFailure(s, Some(r), now, true);
      && after.Some? && after.value.lastFailureAt == Some(now)
      && after.value.failures ==
         (if r.failures > 0 && now - r.lastFailureAt.value <= s.ttl && !(0 < r.blockedUntil <= now)
          then r.failures + 1 else 1)
      && (after.value.active <==> after.value.failures >= s.threshold)
      && after.value.blockedUntil == if after.value.active then now + Backoff(s, after.value.failures) else 0
  {
  }

  /** One process's view of the gate file. */
  class RuntimeGate {
    const settings: Settings
    var stored: Option<Record>

    constructor (env: Environment)
      ensures settings == Resolve(env) && stored == None
    {
      settings := Resolve(env);
      stored := None;
    }

    /** None when the gate lets the caller through, otherwise the remaining wait. */
    method BuildActiveError(now: int) returns (remaining: Option<int>)
      modifies this
      ensures stored == AfterCheck(settings, old(stored), now)
      ensures remaining.Some? <==> Blocks(settings, old(stored), now)
      ensures remaining.Some? ==> remaining.value == old(stored).value.blockedUntil - now > 0
    {
      if settings.disabled || settings.forceProbe { return None; }
      if stored.None? { return None; }
      var blockedUntil := stored.value.blockedUntil;
      if blockedUntil <= now {
        if stored.value.active || blockedUntil > 0 {
          ClearStored();
        }
        return None;
      }
      return Some(Max(0, blockedUntil - now));
    }

    method ClearStored()
      modifies this
      ensures stored == ClearIfSet(settings, old(stored))
    {
      if settings.disabled || stored.None? { return; }
      if !(stored.value.failures > 0) && !stored.value.active { return; }
      stored := Some(Record(0, 0, None, false));
    }

    method NoteFailure(now: int, timeoutLike: bool)
      modifies this
      ensures stored == RecordFailure(settings, old(stored), now, timeoutLike)
    {
      if settings.disabled || !timeoutLike { return; }
      var existing := Fields(stored);
      var stale := existing.lastFailureAt.None? || now - existing.lastFailureAt.value > settings.ttl;
      var windowExpired := existing.blockedUntil > 0 && existing.blockedUntil <= now;
      var previous := if stale || windowExpired then 0 else existing.failures;
      var failures := if previous > 0 then previous + 1 else 1;
      var shouldActivate := failures >= settings.threshold;
      var backoff := if shouldActivate then Backoff(settings, failures) else 0;
      stored := Some(Record(failures, if shouldActivate then now + backoff else 0, Some(now), shouldActivate));
    }

    /** The gate's part in the start of a run: true when the run goes on to the daemon. A suppressed
        run passes a blocking gate, but its check still clears a window that is over. */
    method Admit(now: int, suppressed: bool) returns (admitted: bool)
      modifies this
      ensures stored == AfterCheck(settings, old(stored), now)
      ensures admitted <==> suppressed || !Blocks(settings, old(stored), now)
    {
      var wait := BuildActiveError(now);
      return wait.None? || suppressed;
    }

    /** The gate's part in the end of a run that was admitted. */
    method Settle(now: int, suppressed: bool, o: Outcome)
      modifies this
      ensures stored == if suppressed then old(stored) else ApplyEffect(settings, old(stored), EffectOf(o), now)
      ensures !suppressed && Succeeded(o) && !settings.disabled ==>
        Fields(stored).failures == 0 && !Fields(stored).active
      ensures !suppressed && TimedOut(o) && !settings.disabled ==>
        stored == RecordFailure(settings, old(stored), now, true) && Fields(stored).lastFailureAt == Some(now)
      ensures suppressed || settings.disabled || (!Succeeded(o) && !TimedOut(o)) ==> stored == old(stored)
    {
      if suppressed { return; }
      match o {
        case ProbeFailed(timeoutLike, compat) =>
          if compat { ClearStored(); return; }
          NoteFailure(now, timeoutLike);
        case Answered(exitOk, unknownCommand, reasonTimeoutLike, compat) =>
          if !exitOk && unknownCommand && compat { ClearStored(); return; }
          if exitOk {
            ClearStored();
          } else if reasonTimeoutLike {
            NoteFailure(now, reasonTimeoutLike);
          }
        case Threw(timeoutLike, compat) =>
          if timeoutLike && compat { ClearStored(); return; }
          NoteFailure(now, timeoutLike);
      }
    }
  }
}
