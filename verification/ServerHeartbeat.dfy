/** The server's heartbeat on one connection: a check every `interval` milliseconds, which closes a
    socket that has not answered for more than `timeout` and pings it otherwise. */
module ServerHeartbeat {
  datatype Event = Tick(at: int) | Pong(at: int)

  datatype Beat = Beat(open: bool, lastPong: int)

  function OnEvent(timeout: int, b: Beat, e: Event): Beat {
    match e
    case Tick(at) => if b.open && at - b.lastPong > timeout then b.(open := false) else b
    case Pong(at) => b.(lastPong := at)
  }

  function Process(timeout: int, b: Beat, trace: seq<Event>): Beat
    decreases |trace|
  {
    if trace == [] then b else Process(timeout, OnEvent(timeout, b, trace[0]), trace[1..])
  }

  class HeartbeatSocket {
    const timeout: int
    var open: bool
    var lastPing: int
    var lastPong: int
    var pings: seq<int>

    constructor (timeout: int, now: int)
      ensures this.timeout == timeout && View() == Beat(true, now) && pings == []
    {
      this.timeout := timeout;
      open, lastPing, lastPong, pings := true, now, now, [];
    }

    function View(): Beat
      reads this
    {
      Beat(open, lastPong)
    }

    method OnInterval(now: int)
      modifies this
      ensures View() == OnEvent(timeout, old(View()), Tick(now))
      ensures pings == if old(open) && open then old(pings) + [now] else old(pings)
    {
      if !open { return; }
      var timeSinceLastPong := now - lastPong;
      if timeSinceLastPong > timeout {
        open := false;
        return;
      }
      lastPing := now;
      pings := pings + [lastPing];
    }

    method OnPong(now: int)
      modifies `lastPong
      ensures View() == OnEvent(timeout, old(View()), Pong(now))
    {
      lastPong := now;
    }
  }

  /** Checks come exactly every `interval`, the next one at `next`; events come in clock order, and in
      either order at the same instant. */
  predicate WellTimed(interval: int, now: int, next: int, trace: seq<Event>)
    decreases |trace|
  {
    trace == [] ||
    match trace[0]
    case Tick(at) => at == next && WellTimed(interval, at, next + interval, trace[1..])
    case Pong(at) => now <= at <= next && WellTimed(interval, at, next, trace[1..])
  }

  /** The time of the first check after the trace. */
  function NextTick(interval: int, next: int, trace: seq<Event>): int
    decreases |trace|
  {
    if trace == [] then next
    else NextTick(interval, if trace[0].Tick? then next + interval else next, trace[1..])
  }

  datatype Waiting = Nothing | Since(ping: int)

  /** Whenever a check comes more than `delay` after a ping, a pong has come after that ping.
      `waiting` is the first ping since the last pong. */
  predicate Responsive(delay: int, waiting: Waiting, trace: seq<Event>)
    decreases |trace|
  {
    trace == [] ||
    match trace[0]
    case Tick(at) =>
      (waiting.Since? ==> at <= waiting.ping + delay) &&
      Responsive(delay, if waiting.Since? then waiting else Since(at), trace[1..])
    case Pong(_) => Responsive(delay, Nothing, trace[1..])
  }

  lemma {:induction false} OpenIsRecent(interval: int, timeout: int, b: Beat, now: int, next: int, trace: seq<Event>)
    requires 0 <= timeout && WellTimed(interval, now, next, trace)
    requires b.lastPong <= now <= next && 0 < interval && (b.open ==> next <= b.lastPong + timeout + interval)
    ensures var c := Process(timeout, b, trace);
      c.open ==> NextTick(interval, next, trace) <= c.lastPong + timeout + interval
    decreases |trace|
  {
    if trace != [] {
      var tick := trace[0].Tick?;
      OpenIsRecent(interval, timeout, OnEvent(timeout, b, trace[0]), trace[0].at,
                   if tick then next + interval else next, trace[1..]);
    }
  }

  /** A client that falls silent is closed in time: while the socket is open, even the next check is
      due no later than timeout + interval after the last pong. */
  lemma SilentClientIsClosed(interval: int, timeout: int, start: int, trace: seq<Event>)
    requires 0 < interval && 0 <= timeout && WellTimed(interval, start, start + interval, trace)
    ensures var c := Process(timeout, Beat(true, start), trace);
      c.open ==> NextTick(interval, start + interval, trace) <= c.lastPong + timeout + interval
  {
    OpenIsRecent(interval, timeout, Beat(true, start), start, start + interval, trace);
  }

  // ----- When a responsive client is safe

  /** The longest silence that a pong delay of up to `delay` can produce at a check. */
  function WorstSilence(interval: int, delay: nat): int
    requires 0 < interval
  {
    (delay / interval + 1) * interval
  }

  lemma CountWithin(interval: int, delay: nat, m: nat)
    requires 0 < interval
    ensures m * interval <= delay <==> m <= delay / interval
  {
    var q := delay / interval;
    assert delay == q * interval + delay % interval;
    if m <= q {
      assert m * interval <= q * interval;
    } else {
      assert (q + 1) * interval <= m * interval;
    }
  }

  /** One more check after m unanswered ones is within the worst silence. */
  lemma NextSilence(interval: int, delay: nat, m: nat)
    requires 0 < interval && m * interval <= delay
    ensures m * interval + interval == (m + 1) * interval <= WorstSilence(interval, delay)
  {
    CountWithin(interval, delay, m);
    assert (m + 1) * interval <= (delay / interval + 1) * interval;
  }

  lemma {:induction false} StaysOpen(
    interval: int, timeout: int, delay: nat, b: Beat, now: int, next: int, waiting: Waiting, m: nat, trace: seq<Event>)
    requires 0 < interval && WorstSilence(interval, delay) <= timeout && b.open
    requires WellTimed(interval, now, next, trace) && Responsive(delay, waiting, trace)
    requires next - interval <= now
    requires waiting.Nothing? ==> b.lastPong >= next - interval
    requires waiting.Since? ==> next == waiting.ping + m * interval && b.lastPong >= waiting.ping - interval
    ensures Process(timeout, b, trace).open
    decreases |trace|
  {
    if trace != [] {
      var c := OnEvent(timeout, b, trace[0]);
      if trace[0].Pong? {
        StaysOpen(interval, timeout, delay, c, trace[0].at, next, Nothing, 0, trace[1..]);
      } else if waiting.Nothing? {
        NextSilence(interval, delay, 0);
        StaysOpen(interval, timeout, delay, c, next, next + interval, Since(next), 1, trace[1..]);
      } else {
        NextSilence(interval, delay, m);
        StaysOpen(interval, timeout, delay, c, next, next + interval, waiting, m + 1, trace[1..]);
      }
    }
  }

  function Ticks(interval: int, next: int, n: nat): seq<Event>
    decreases n
  {
    if n == 0 then [] else [Tick(next)] + Ticks(interval, next + interval, n - 1)
  }

  /** A client that answers the first ping only after n + 1 checks. */
  lemma {:induction false} TicksClose(
    interval: int, timeout: int, delay: nat, b: Beat, ping: int, m: nat, n: nat)
    requires 0 < interval && m + n == delay / interval + 1
    requires b.open ==> b.lastPong == ping - interval && ((m + n) * interval > timeout)
    requires n == 0 ==> !b.open
    ensures var next := ping + m * interval; var trace := Ticks(interval, next, n);
      WellTimed(interval, next - interval, next, trace) &&
      (m >= 1 ==> Responsive(delay, Since(ping), trace)) && (m == 0 ==> Responsive(delay, Nothing, trace)) &&
      !Process(timeout, b, trace).open
    decreases n
  {
    if n > 0 {
      var next := ping + m * interval;
      CountWithin(interval, delay, m);
      assert (m + 1) * interval == m * interval + interval;
      TicksClose(interval, timeout, delay, OnEvent(timeout, b, Tick(next)), ping, m + 1, n - 1);
    }
  }

  /** The heartbeat never closes any client whose pongs arrive within `delay`, if and only if the
      timeout covers the first multiple of the interval that is greater than `delay`. */
  lemma ResponsiveClientIsSafe(interval: int, timeout: int, delay: nat, start: int)
    requires 0 < interval && 0 <= timeout
    ensures WorstSilence(interval, delay) <= timeout <==>
      forall trace :: WellTimed(interval, start, start + interval, trace) && Responsive(delay, Nothing, trace) ==>
        Process(timeout, Beat(true, start), trace).open
  {
    if WorstSilence(interval, delay) <= timeout {
      forall trace | WellTimed(interval, start, start + interval, trace) && Responsive(delay, Nothing, trace)
        ensures Process(timeout, Beat(true, start), trace).open
      {
        StaysOpen(interval, timeout, delay, Beat(true, start), start, start + interval, Nothing, 0, trace);
      }
    } else {
      TicksClose(interval, timeout, delay, Beat(true, start), start + interval, 0, delay / interval + 1);
    }
  }
}
