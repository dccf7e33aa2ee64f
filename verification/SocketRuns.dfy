/** Whole runs of the reconnecting socket, over any order of timers, opens, closes and sends that the
    browser can produce. */
module SocketRuns {
  import opened Numbers
  import opened ResilientSocket

  datatype Event =
    | TimerFires(created: bool, jitter: real)
    | Opens(subscribeThrows: bool, accepted: nat)
    | Closes(code: int, jitter: real)
    | AppSends(thrown: bool)
    | PingArrives(thrown: bool)
    | AppCloses

  predicate Jitter(j: real) {
    0.0 <= j < 200.0
  }

  predicate Legal(s: State, e: Event) {
    match e
    case TimerFires(_, jitter) => s.timer && Jitter(jitter)
    case Opens(_, _) => s.ws.Connecting?
    case Closes(_, jitter) => s.ws.Live() && Jitter(jitter)
    case _ => true
  }

  function Step(s: State, e: Event): State
    requires Legal(s, e)
  {
    match e
    case TimerFires(created, jitter) => Connect(s.(timer := false), created, jitter)
    case Opens(subscribeThrows, accepted) => OnOpen(s, subscribeThrows, accepted)
    case Closes(code, jitter) => OnClose(s, code, jitter)
    case AppSends(thrown) => Submit(s, thrown)
    case PingArrives(thrown) => Send(s, Pong, thrown)
    case AppCloses => Close(s)
  }

  predicate LegalRun(s: State, es: seq<Event>)
    decreases |es|
  {
    es == [] || (Legal(s, es[0]) && LegalRun(Step(s, es[0]), es[1..]))
  }

  function Run(s: State, es: seq<Event>): State
    requires LegalRun(s, es)
    decreases |es|
  {
    if es == [] then s else Run(Step(s, es[0]), es[1..])
  }

  // ----- Connecting

  predicate Driver(s: State) {
    !(s.ws.Live() && s.timer) &&
    (!s.shouldReconnect ==> !s.timer) &&
    |s.past.waits| == s.attempts <= MAX_ATTEMPTS &&
    (forall i :: 0 <= i < |s.past.waits| ==> Delay(i + 1) as real <= s.past.waits[i] < Delay(i + 1) as real + 200.0) &&
    |s.pending| <= MAX_PENDING
  }

  lemma DriverReconnect(s: State, jitter: real)
    requires Driver(s) && !s.ws.Live() && !s.timer && Jitter(jitter)
    ensures Driver(Reconnect(s, jitter))
  {
  }

  lemma DriverStep(s: State, e: Event)
    requires Driver(s) && Legal(s, e)
    ensures Driver(Step(s, e))
    ensures !s.shouldReconnect ==> !Step(s, e).shouldReconnect && Step(s, e).past.created == s.past.created
  {
    match e
    case TimerFires(_, jitter) => DriverReconnect(s.(timer := false), jitter);
    case Closes(_, jitter) => DriverReconnect(s.(ws := Closed), jitter);
    case _ =>
  }

  lemma {:induction false} DriverRun(s: State, es: seq<Event>)
    requires Driver(s) && LegalRun(s, es)
    ensures Driver(Run(s, es))
    ensures !s.shouldReconnect ==> Run(s, es).past.created == s.past.created
    decreases |es|
  {
    if es != [] {
      DriverStep(s, es[0]);
      DriverRun(Step(s, es[0]), es[1..]);
    }
  }

  /** Before jitter the delays never shrink, and from the sixth attempt on they are at the cap. */
  lemma DelaysGrow(m: nat, n: nat)
    requires 1 <= m <= n
    ensures BASE_DELAY <= Delay(m) <= Delay(n) <= MAX_DELAY && (6 <= m ==> Delay(m) == MAX_DELAY)
  {
    Pow2Monotone(m - 1, n - 1);
    if 6 <= m {
      Pow2Monotone(5, m - 1);
      assert Pow2(5) == 32;
    }
  }

  function Total(waits: seq<real>): real {
    if waits == [] then 0.0 else Total(waits[..|waits| - 1]) + waits[|waits| - 1]
  }

  lemma {:induction false} TotalBelow(waits: seq<real>)
    requires forall i :: 0 <= i < |waits| ==> waits[i] < Delay(i + 1) as real + 200.0
    ensures Total(waits) <= 5200.0 * |waits| as real - if |waits| < 5 then 0.0 else 17250.0
    ensures 5 <= |waits| ==> Total(waits) < 5200.0 * |waits| as real - 17250.0
    decreases |waits|
  {
    var n := |waits|;
    if 0 < n {
      TotalBelow(waits[..n - 1]);
      DelaysGrow(n, n);
      if n == 5 {
        FirstFive(waits);
      }
    }
  }

  lemma FirstFive(waits: seq<real>)
    requires |waits| == 5 && forall i :: 0 <= i < 5 ==> waits[i] < Delay(i + 1) as real + 200.0
    ensures Total(waits) < 8750.0
  {
    assert Delay(1) == 250 && Delay(2) == 500 && Delay(3) == 1000 && Delay(4) == 2000 && Delay(5) == 4000;
    var four, three, two, one := waits[..4], waits[..4][..3], waits[..4][..3][..2], waits[..4][..3][..2][..1];
    assert one[..0] == [];
    assert Total(waits) == Total(four) + waits[4];
    assert Total(four) == Total(three) + waits[3];
    assert Total(three) == Total(two) + waits[2];
    assert Total(two) == Total(one) + waits[1];
    assert Total(one) == waits[0];
  }

  /** In every reachable state a live socket and a pending timer exclude each other, and a streak of
      failed connections makes at most 100 attempts and waits less than 502750 ms in all. */
  lemma ReconnectIsBounded(created: bool, jitter: real, es: seq<Event>)
    requires Jitter(jitter) && LegalRun(Connect(Fresh, created, jitter), es)
    ensures var s := Run(Connect(Fresh, created, jitter), es);
      && !(s.ws.Live() && s.timer)
      && |s.past.waits| == s.attempts <= MAX_ATTEMPTS
      && Total(s.past.waits) < 502750.0
  {
    DriverRun(Connect(Fresh, created, jitter), es);
    TotalBelow(Run(Connect(Fresh, created, jitter), es).past.waits);
  }

  // ----- A dropped connection is retried

  /** A raw socket is alive, or a reconnect is due, or there are to be no more: the application or code
      1000 has ended it, or 100 attempts in a row have been made. */
  predicate Trying(s: State) {
    s.ws.Connecting? || s.ws.Open? || s.ws.Closing? || s.timer || !s.shouldReconnect || s.attempts >= 100
  }

  /** The k-th wait of a streak, 0 the first, without its jitter. */
  function Wait(k: nat): real {
    if k == 0 then 250.0
    else if k == 1 then 500.0
    else if k == 2 then 1000.0
    else if k == 3 then 2000.0
    else if k == 4 then 4000.0
    else 5000.0
  }

  lemma WaitIsDelay(k: nat)
    ensures Delay(k + 1) as real == Wait(k)
  {
    assert Pow2(1) == 2 && Pow2(2) == 4 && Pow2(3) == 8 && Pow2(4) == 16 && Pow2(5) == 32;
    if k >= 5 {
      Pow2Monotone(5, k);
    }
  }

  lemma {:induction false} TryingRun(s: State, es: seq<Event>)
    requires Trying(s) && LegalRun(s, es)
    ensures Trying(Run(s, es))
    decreases |es|
  {
    if es != [] {
      TryingRun(Step(s, es[0]), es[1..]);
    }
  }

  /** In every reachable state the page is connected, or still trying, or done; and the waits of the
      streak it is in are 250, 500, 1000, 2000, 4000 and then 5000 ms, each with a jitter below 200. */
  lemma DroppedConnectionIsRetried(created: bool, jitter: real, es: seq<Event>)
    requires Jitter(jitter) && LegalRun(Connect(Fresh, created, jitter), es)
    ensures var s := Run(Connect(Fresh, created, jitter), es);
      Trying(s) && |s.past.waits| == s.attempts <= 100 &&
      forall k :: 0 <= k < |s.past.waits| ==> Wait(k) <= s.past.waits[k] < Wait(k) + 200.0
  {
    DriverRun(Connect(Fresh, created, jitter), es);
    TryingRun(Connect(Fresh, created, jitter), es);
    var s := Run(Connect(Fresh, created, jitter), es);
    forall k | 0 <= k < |s.past.waits|
      ensures Wait(k) <= s.past.waits[k] < Wait(k) + 200.0
    {
      WaitIsDelay(k);
    }
  }

  /** What the events that do not wait on the network bring about at once: a due timer connects or sets
      the next timer, a dropped connection sets one, an opening forgets the streak, a ping on an open
      socket is answered, and the application's close leaves nothing open or due. */
  lemma StepsTakeEffect(s: State, jitter: real, thrown: bool, code: int)
    requires Driver(s) && s.shouldReconnect && Jitter(jitter)
    ensures s.timer ==>
      Step(s, TimerFires(true, jitter)) == s.(timer := false, ws := Connecting, past := s.past.(created := s.past.created + 1))
    ensures s.timer && s.attempts < 100 ==> Step(s, TimerFires(false, jitter)).timer
    ensures s.ws.Live() && s.attempts < 100 && code != 1000 ==>
      var t := Step(s, Closes(code, jitter)); t.timer && t.shouldReconnect && t.attempts == s.attempts + 1
    ensures s.ws.Live() ==> !Step(s, Closes(1000, jitter)).shouldReconnect
    ensures s.ws.Connecting? ==>
      var t := Step(s, Opens(thrown, 0)); t.ws.Open? && t.attempts == 0 && t.past.waits == []
    ensures s.ws.Open? && !thrown ==> Step(s, PingArrives(thrown)).past.wire == s.past.wire + [Sent(Pong)]
    ensures var t := Step(s, AppCloses); !t.ws.Connecting? && !t.ws.Open? && !t.timer && !t.shouldReconnect
  {
    assert SentAll([Pong]) == [Sent(Pong)];
  }

  /** Once the application has closed the socket, or a connection has closed with code 1000, no raw
      socket is ever created again, whatever happens afterwards. */
  lemma ClosedForGood(created: bool, jitter: real, before: seq<Event>, last: Event, after: seq<Event>)
    requires Jitter(jitter) && LegalRun(Connect(Fresh, created, jitter), before)
    requires var s := Run(Connect(Fresh, created, jitter), before);
      Legal(s, last) && LegalRun(Step(s, last), after)
    requires last.AppCloses? || (last.Closes? && last.code == 1000)
    ensures var s := Run(Connect(Fresh, created, jitter), before);
      Run(Step(s, last), after).past.created == s.past.created
  {
    DriverRun(Connect(Fresh, created, jitter), before);
    var s := Run(Connect(Fresh, created, jitter), before);
    DriverStep(s, last);
    DriverRun(Step(s, last), after);
  }

  // ----- Sending

  /** No raw send throws in this step. */
  predicate Clean(e: Event) {
    match e
    case Opens(subscribeThrows, accepted) => !subscribeThrows && MAX_PENDING <= accepted
    case AppSends(thrown) => !thrown
    case PingArrives(thrown) => !thrown
    case _ => true
  }

  predicate AllClean(es: seq<Event>) {
    forall i :: 0 <= i < |es| ==> Clean(es[i])
  }

  /** The application's messages among the items, in order. */
  function Apps(items: seq<Item>): seq<nat> {
    if items == [] then []
    else if items[0].App? then [items[0].n] + Apps(items[1..])
    else Apps(items[1..])
  }

  function WiredApps(wire: seq<Frame>): seq<nat> {
    if wire == [] then []
    else if wire[0].Sent? && wire[0].item.App? then [wire[0].item.n] + WiredApps(wire[1..])
    else WiredApps(wire[1..])
  }

  lemma {:induction false} AppsConcat(a: seq<Item>, b: seq<Item>)
    ensures Apps(a + b) == Apps(a) + Apps(b)
  {
    if a == [] {
      assert a + b == b;
    } else {
      AppsConcat(a[1..], b);
      assert (a + b)[1..] == a[1..] + b;
    }
  }

  lemma {:induction false} WiredConcat(a: seq<Frame>, b: seq<Frame>)
    ensures WiredApps(a + b) == WiredApps(a) + WiredApps(b)
  {
    if a == [] {
      assert a + b == b;
    } else {
      WiredConcat(a[1..], b);
      assert (a + b)[1..] == a[1..] + b && (a + b)[0] == a[0];
    }
  }

  lemma {:induction false} WiredSentAll(items: seq<Item>)
    ensures WiredApps(SentAll(items)) == Apps(items)
  {
    if items != [] {
      WiredSentAll(items[1..]);
    }
  }

  predicate Increasing(ns: seq<nat>) {
    forall i, j :: 0 <= i < j < |ns| ==> ns[i] < ns[j]
  }

  /** Where the application's messages are. */
  datatype Ledger = Ledger(wired: seq<nat>, queued: seq<nat>, discarded: seq<nat>, submitted: nat)

  function LedgerOf(s: State): Ledger {
    Ledger(WiredApps(s.past.wire), Apps(s.pending), Apps(s.past.discarded), s.past.submitted)
  }

  /** The messages on the wire, followed by those still queued, are in the order of submission. */
  predicate InOrder(l: Ledger) {
    Increasing(l.wired + l.queued) &&
    forall i :: 0 <= i < |l.wired + l.queued| ==> (l.wired + l.queued)[i] < l.submitted
  }

  function Copies(l: Ledger, n: nat): nat {
    multiset(l.wired)[n] + multiset(l.queued)[n] + multiset(l.discarded)[n]
  }

  /** Every message submitted is on the wire, queued or discarded: once, and in one of them only. */
  ghost predicate Accounted(l: Ledger) {
    forall n: nat :: Copies(l, n) == if n < l.submitted then 1 else 0
  }

  ghost predicate Fits(l: Ledger) {
    InOrder(l) && Accounted(l)
  }

  lemma CopiesConcat(a: seq<nat>, b: seq<nat>, n: nat)
    ensures multiset(a + b)[n] == multiset(a)[n] + multiset(b)[n]
  {
    assert multiset(a + b) == multiset(a) + multiset(b);
  }

  lemma IncreasingAppend(line: seq<nat>, n: nat)
    requires Increasing(line) && forall i :: 0 <= i < |line| ==> line[i] < n
    ensures Increasing(line + [n])
  {
  }

  lemma FitsQueue(l: Ledger)
    requires Fits(l)
    ensures Fits(l.(queued := l.queued + [l.submitted], submitted := l.submitted + 1))
  {
    var sent := l.submitted;
    var after := l.(queued := l.queued + [sent], submitted := sent + 1);
    IncreasingAppend(l.wired + l.queued, sent);
    assert after.wired + after.queued == l.wired + l.queued + [sent];
    forall n: nat
      ensures Copies(after, n) == if n < sent + 1 then 1 else 0
    {
      assert Copies(l, n) == if n < sent then 1 else 0;
      CopiesConcat(l.queued, [sent], n);
    }
  }

  lemma FitsWire(l: Ledger)
    requires Fits(l) && l.queued == []
    ensures Fits(l.(wired := l.wired + [l.submitted], submitted := l.submitted + 1))
  {
    var queued := l.(queued := l.queued + [l.submitted], submitted := l.submitted + 1);
    FitsQueue(l);
    FitsFlush(queued);
    assert queued.queued == [l.submitted];
  }

  lemma FitsFlush(l: Ledger)
    requires Fits(l)
    ensures Fits(l.(wired := l.wired + l.queued, queued := []))
  {
    assert (l.wired + l.queued) + [] == l.wired + l.queued;
    forall n: nat
      ensures Copies(l.(wired := l.wired + l.queued, queued := []), n) == if n < l.submitted then 1 else 0
    {
      assert Copies(l, n) == if n < l.submitted then 1 else 0;
      CopiesConcat(l.wired, l.queued, n);
    }
  }

  lemma IncreasingDrop(a: seq<nat>, head: seq<nat>, tail: seq<nat>)
    requires Increasing(a + (head + tail))
    ensures Increasing(a + tail)
  {
    var full, short := a + (head + tail), a + tail;
    forall i, j | 0 <= i < j < |short|
      ensures short[i] < short[j]
    {
      var k := if i < |a| then i else i + |head|;
      var l := if j < |a| then j else j + |head|;
      assert full[k] == short[i] && full[l] == short[j];
    }
  }

  lemma FitsDiscard(l: Ledger, head: seq<nat>, tail: seq<nat>)
    requires Fits(l) && l.queued == head + tail
    ensures Fits(l.(queued := tail, discarded := l.discarded + head))
  {
    IncreasingDrop(l.wired, head, tail);
    var full, short := l.wired + l.queued, l.wired + tail;
    forall i | 0 <= i < |short|
      ensures short[i] < l.submitted
    {
      assert short[i] == full[if i < |l.wired| then i else i + |head|];
    }
    forall n: nat
      ensures Copies(l.(queued := tail, discarded := l.discarded + head), n) == if n < l.submitted then 1 else 0
    {
      assert Copies(l, n) == if n < l.submitted then 1 else 0;
      CopiesConcat(head, tail, n);
      CopiesConcat(l.discarded, head, n);
    }
  }

  /** The frames of every connection begin with its subscribe. */
  predicate SubscribesFirst(wire: seq<Frame>) {
    forall i :: 0 <= i < |wire| && wire[i].Opened? ==> i + 1 < |wire| && wire[i + 1] == Sent(Subscribe)
  }

  predicate Shape(s: State) {
    |s.pending| <= MAX_PENDING && (s.ws.Open? ==> s.pending == []) && SubscribesFirst(s.past.wire)
  }

  ghost predicate Queue(s: State) {
    Shape(s) && Fits(LedgerOf(s))
  }

  lemma WireGrows(s: State, items: seq<Item>)
    ensures WiredApps(Wired(s, items).past.wire) == WiredApps(s.past.wire) + Apps(items)
    ensures SubscribesFirst(s.past.wire) ==> SubscribesFirst(Wired(s, items).past.wire)
  {
    WiredConcat(s.past.wire, SentAll(items));
    WiredSentAll(items);
    var wire, longer := s.past.wire, Wired(s, items).past.wire;
    forall i | SubscribesFirst(wire) && 0 <= i < |longer| && longer[i].Opened?
      ensures i + 1 < |longer| && longer[i + 1] == Sent(Subscribe)
    {
      assert i < |wire| && longer[i] == wire[i];
      assert longer[i + 1] == wire[i + 1];
    }
  }

  /** Queueing pushes out what the oldest entry of a full queue holds, and adds at the end. */
  lemma EnqueueLedger(s: State, item: Item) returns (head: seq<nat>, tail: seq<nat>)
    ensures LedgerOf(s).queued == head + tail
    ensures LedgerOf(Enqueue(s, item)) ==
            LedgerOf(s).(queued := tail + Apps([item]), discarded := LedgerOf(s).discarded + head)
  {
    if |s.pending| >= MAX_PENDING {
      head, tail := Apps(s.pending[..1]), Apps(s.pending[1..]);
      assert s.pending == s.pending[..1] + s.pending[1..];
      AppsConcat(s.pending[..1], s.pending[1..]);
      AppsConcat(s.pending[1..], [item]);
      assert [s.pending[0]] == s.pending[..1];
      AppsConcat(s.past.discarded, [s.pending[0]]);
    } else {
      head, tail := [], Apps(s.pending);
      AppsConcat(s.pending, [item]);
    }
  }

  lemma SendShape(s: State, item: Item)
    requires Shape(s)
    ensures Shape(Send(s, item, false))
  {
    WireGrows(s, [item]);
  }

  lemma SubmitOpen(s: State)
    requires s.ws.Open? && s.pending == []
    ensures var l := LedgerOf(s);
      LedgerOf(Submit(s, false)) == l.(wired := l.wired + [l.submitted], submitted := l.submitted + 1)
  {
    WireGrows(s, [App(s.past.submitted)]);
    AppsOfOne(s.past.submitted);
  }

  lemma SubmitQueued(s: State) returns (head: seq<nat>, tail: seq<nat>)
    requires !s.ws.Open?
    ensures var l := LedgerOf(s);
      l.queued == head + tail &&
      LedgerOf(Submit(s, false)) ==
        l.(queued := tail + [l.submitted], discarded := l.discarded + head, submitted := l.submitted + 1)
  {
    head, tail := EnqueueLedger(s, App(s.past.submitted));
    AppsOfOne(s.past.submitted);
  }

  lemma SubmitLedger(s: State) returns (after: Ledger)
    requires Fits(LedgerOf(s)) && (s.ws.Open? ==> s.pending == [])
    ensures after == LedgerOf(Submit(s, false)) && Fits(after)
  {
    var l := LedgerOf(s);
    if s.ws.Open? {
      after := l.(wired := l.wired + [l.submitted], submitted := l.submitted + 1);
      FitsWire(l);
      SubmitOpen(s);
    } else {
      var head, tail := SubmitQueued(s);
      var left := l.(queued := tail, discarded := l.discarded + head);
      after := left.(queued := tail + [l.submitted], submitted := l.submitted + 1);
      FitsDiscard(l, head, tail);
      FitsQueue(left);
    }
  }

  lemma AppsOfOne(n: nat)
    ensures Apps([App(n)]) == [n]
  {
  }

  lemma SubmitKeeps(s: State)
    requires Queue(s)
    ensures Queue(Submit(s, false))
  {
    var after := SubmitLedger(s);
    SendShape(s, App(s.past.submitted));
  }

  lemma PongKeeps(s: State)
    requires Queue(s)
    ensures Queue(Send(s, Pong, false))
  {
    var l := LedgerOf(s);
    assert Apps([Pong]) == [];
    SendShape(s, Pong);
    if s.ws.Open? {
      WireGrows(s, [Pong]);
      assert l.wired + [] == l.wired;
    } else {
      var head, tail := EnqueueLedger(s, Pong);
      FitsDiscard(l, head, tail);
      assert tail + [] == tail;
    }
  }

  lemma OpenedKeeps(wire: seq<Frame>)
    requires SubscribesFirst(wire)
    ensures var more := wire + [Opened] + SentAll([Subscribe]);
      SubscribesFirst(more) && WiredApps(more) == WiredApps(wire)
  {
    assert SentAll([Subscribe]) == [Sent(Subscribe)];
    WiredConcat(wire + [Opened], [Sent(Subscribe)]);
    WiredConcat(wire, [Opened]);
    var more := wire + [Opened] + [Sent(Subscribe)];
    forall i | 0 <= i < |more| && more[i].Opened?
      ensures i + 1 < |more| && more[i + 1] == Sent(Subscribe)
    {
      assert i < |wire| ==> more[i] == wire[i] && more[i + 1] == wire[i + 1];
    }
  }

  lemma OpenKeeps(s: State, accepted: nat)
    requires Queue(s) && MAX_PENDING <= accepted
    ensures Queue(OnOpen(s, false, accepted))
  {
    OpenedKeeps(s.past.wire);
    var up := s.(ws := Open, attempts := 0, past := s.past.(wire := s.past.wire + [Opened], waits := []));
    WireGrows(Wired(up, [Subscribe]), s.pending);
    assert s.pending[..|s.pending|] == s.pending && s.pending[|s.pending|..] == [];
    assert OnOpen(s, false, accepted) == Wired(Wired(up, [Subscribe]), s.pending).(pending := []);
    FitsFlush(LedgerOf(s));
  }

  /** A step that leaves the queue and the wire alone, and does not open the socket. */
  lemma SilentKeeps(s: State, t: State)
    requires Queue(s) && t.pending == s.pending && (t.ws.Open? ==> s.ws.Open?)
    requires t.past.(waits := s.past.waits, created := s.past.created) == s.past
    ensures Queue(t)
  {
    assert LedgerOf(t) == LedgerOf(s);
  }

  lemma QueueStep(s: State, e: Event)
    requires Queue(s) && Legal(s, e) && Clean(e)
    ensures Queue(Step(s, e))
  {
    match e
    case Opens(_, accepted) => OpenKeeps(s, accepted);
    case AppSends(_) => SubmitKeeps(s);
    case PingArrives(_) => PongKeeps(s);
    case _ => SilentKeeps(s, Step(s, e));
  }

  lemma {:induction false} QueueRun(s: State, es: seq<Event>)
    requires Queue(s) && LegalRun(s, es) && AllClean(es)
    ensures Queue(Run(s, es))
    decreases |es|
  {
    if es != [] {
      QueueStep(s, es[0]);
      assert AllClean(es[1..]);
      QueueRun(Step(s, es[0]), es[1..]);
    }
  }

  /** If no raw send throws, the application's messages reach the wire in the order of submission and
      at most once, whatever is not on the wire is queued or was discarded, nothing stays queued while
      the socket is open, and every connection's subscribe comes before anything else on it. */
  lemma MessagesKeepOrder(created: bool, jitter: real, es: seq<Event>)
    requires LegalRun(Connect(Fresh, created, jitter), es) && AllClean(es)
    ensures var s := Run(Connect(Fresh, created, jitter), es);
      && InOrder(LedgerOf(s)) && Accounted(LedgerOf(s)) && SubscribesFirst(s.past.wire)
      && |s.pending| <= 200 && (s.ws.Open? ==> s.pending == [])
  {
    QueueRun(Connect(Fresh, created, jitter), es);
  }

  lemma StepDiscards(s: State, e: Event)
    requires Driver(s) && Legal(s, e)
    ensures Step(s, e).past.discarded ==
      if (e.AppSends? || e.PingArrives?) && !s.ws.Open? && |s.pending| == MAX_PENDING
      then s.past.discarded + [s.pending[0]] else s.past.discarded
  {
  }

  lemma {:induction false} DiscardedStays(s: State, es: seq<Event>)
    requires Driver(s) && LegalRun(s, es)
    ensures s.past.discarded <= Run(s, es).past.discarded
    decreases |es|
  {
    if es != [] {
      DriverStep(s, es[0]);
      StepDiscards(s, es[0]);
      DiscardedStays(Step(s, es[0]), es[1..]);
    }
  }

  /** At step i of the run a send meets a full queue on a socket that is not open, and what is then the
      oldest entry becomes the k-th discarded one. */
  predicate EvictsAt(s: State, es: seq<Event>, i: nat, k: nat, gone: Item)
    requires LegalRun(s, es)
  {
    i < |es| && LegalRun(s, es[..i]) && (es[i].AppSends? || es[i].PingArrives?) &&
    var t := Run(s, es[..i]);
    !t.ws.Open? && |t.pending| == 200 && |t.past.discarded| == k && t.pending[0] == gone
  }

  lemma EvictsLater(s: State, es: seq<Event>, i: nat, k: nat, gone: Item)
    requires es != [] && LegalRun(s, es) && EvictsAt(Step(s, es[0]), es[1..], i, k, gone)
    ensures EvictsAt(s, es, i + 1, k, gone)
  {
    assert es[..i + 1][1..] == es[1..][..i];
  }

  /** Whatever throws: everything a run has discarded was, at its own moment, the oldest entry of a full
      queue. */
  lemma {:induction false} DiscardedWereOldest(s: State, es: seq<Event>, k: nat) returns (i: nat)
    requires Driver(s) && LegalRun(s, es) && |s.past.discarded| <= k < |Run(s, es).past.discarded|
    ensures EvictsAt(s, es, i, k, Run(s, es).past.discarded[k])
    decreases |es|
  {
    var next := Step(s, es[0]);
    DriverStep(s, es[0]);
    StepDiscards(s, es[0]);
    if k < |next.past.discarded| {
      DiscardedStays(next, es[1..]);
      i := 0;
      assert es[..0] == [];
    } else {
      var later := DiscardedWereOldest(next, es[1..], k);
      EvictsLater(s, es, later, k, Run(s, es).past.discarded[k]);
      i := later + 1;
    }
  }

  /** A send on an open socket keeps the order exactly when the queue holds no message of the
      application. After a flush that was cut short it can hold some, and then the new message
      overtakes them. */
  lemma OvertakesExactly(s: State)
    requires s.ws.Open? && InOrder(LedgerOf(s))
    ensures InOrder(LedgerOf(Submit(s, false))) <==> Apps(s.pending) == []
  {
    var n := s.past.submitted;
    WireGrows(s, [App(n)]);
    AppsOfOne(n);
    Overtake(LedgerOf(s));
  }

  lemma Overtake(l: Ledger)
    requires InOrder(l)
    ensures InOrder(l.(wired := l.wired + [l.submitted], submitted := l.submitted + 1)) <==> l.queued == []
  {
    var before, after := l.wired + l.queued, (l.wired + [l.submitted]) + l.queued;
    if l.queued != [] {
      assert after[|l.wired|] == l.submitted && after[|l.wired| + 1] == before[|l.wired|];
    } else {
      assert after == before + [l.submitted];
    }
  }

  /** Such a state is reached: one message queued while connecting, a flush that throws at once. */
  lemma CutShortFlushLeavesABacklog()
    ensures var es := [AppSends(false), Opens(false, 0)];
      LegalRun(Connect(Fresh, true, 0.0), es) &&
      var s := Run(Connect(Fresh, true, 0.0), es);
      s.ws.Open? && InOrder(LedgerOf(s)) && Apps(s.pending) == [0] && !InOrder(LedgerOf(Submit(s, false)))
  {
    var s1 := Step(Connect(Fresh, true, 0.0), AppSends(false));
    var s2 := Step(s1, Opens(false, 0));
    var es := [AppSends(false), Opens(false, 0)];
    assert es[1..] == [Opens(false, 0)] && es[1..][1..] == [];
    assert s1.pending == [App(0)] && s2.pending == [App(0)];
    assert s2.past.wire == [Opened, Sent(Subscribe)];
    assert LedgerOf(s2) == Ledger([], [0], [], 1);
    OvertakesExactly(s2);
  }
}
