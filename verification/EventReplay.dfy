/** Event replay end to end: one server with its event buffer, one page with one socket, and a link
    that delivers in order but may lose everything undelivered when it drops. The buffer is taken as
    the window of the full log, which is what `EventBuffers.EventBuffer` is proved to hold. */
module EventReplay {
  import opened EventBuffers
  import opened Numbers

  datatype ClientMessage = Subscribe(lastEventId: nat) | Other

  /** How the page's first dispatch of a message to the application ends: well, with a throw of the
      application's handler after it was given the message, or with a throw before anybody was given it,
      because the message is still being dispatched by the raw socket (the DOM standard's
      `dispatchEvent`, step 1). */
  datatype Dispatch = Handled | HandlerThrows | Refused

  /** The page's part: the shared last id, its copy in session storage, the event frames it has read with
      the outcome of their first dispatch, and what the application has been handed. */
  datatype Page = Page(lastEventId: nat, stored: nat, read: seq<Event>, outcomes: seq<Dispatch>, handed: seq<Event>)

  const NewPage := Page(0, 0, [], [], [])

  /** A throw of the first dispatch falls through to the second. */
  function HandOvers(e: Event, d: Dispatch): seq<Event> {
    match d
    case Handled => [e]
    case HandlerThrows => [e, e]
    case Refused => []
  }

  /** What the application is handed in all, for the frames read and how their dispatches ended. */
  function Copies(read: seq<Event>, outcomes: seq<Dispatch>): seq<Event>
    requires |read| == |outcomes|
  {
    if read == [] then []
    else
      var n := |read| - 1;
      Copies(read[..n], outcomes[..n]) + HandOvers(read[n], outcomes[n])
  }

  predicate AllHandled(outcomes: seq<Dispatch>) {
    forall i :: 0 <= i < |outcomes| ==> outcomes[i].Handled?
  }

  /** What the page does with one message of this server. */
  function Receive(p: Page, m: ServerMessage, d: Dispatch): Page {
    match m
    case EventFrame(e) =>
      var seen := if e.id > p.lastEventId then p.(lastEventId := e.id, stored := e.id) else p;
      var kept := if d.Handled? || e.id == 0 then seen else seen.(stored := seen.lastEventId);
      kept.(read := p.read + [e], outcomes := p.outcomes + [d], handed := p.handed + HandOvers(e, d))
    case _ => p
  }

  /** What the page does with the events of one HTTP resync. They reach the application as synthetic
      messages, which are not event frames; a handler that throws on one of them cuts the list short. */
  function Resynced(p: Page, ids: seq<nat>): Page
    decreases |ids|
  {
    if ids == [] then p
    else Resynced(if ids[0] > p.lastEventId then p.(lastEventId := ids[0], stored := ids[0]) else p, ids[1..])
  }

  class ResilientPage {
    var lastEventId: nat
    var stored: nat
    var handed: seq<Event>
    var ponged: nat
    var resyncs: nat
    ghost var read: seq<Event>
    ghost var outcomes: seq<Dispatch>

    /** `fromStorage` is what session storage holds: 0 when it holds nothing. */
    constructor (fromStorage: nat)
      ensures View() == Page(fromStorage, fromStorage, [], [], [])
    {
      lastEventId, stored, handed := fromStorage, fromStorage, [];
      ponged, resyncs := 0, 0;
      read, outcomes := [], [];
    }

    ghost function View(): Page
      reads this
    {
      Page(lastEventId, stored, read, outcomes, handed)
    }

    /** The message goes to the listeners and then to the handler, unless the platform refuses it. */
    method DispatchEvent(e: Event, d: Dispatch) returns (threw: bool)
      modifies this`handed
      ensures handed == old(handed) + if d.Refused? then [] else [e]
      ensures threw <==> !d.Handled?
    {
      if d.Refused? { return true; }
      handed := handed + [e];
      return d.HandlerThrows?;
    }

    method OnMessage(m: ServerMessage, d: Dispatch)
      modifies this
      ensures View() == Receive(old(View()), m, d)
      ensures ponged == old(ponged) + if m.Ping? then 1 else 0
      ensures resyncs == old(resyncs) + if m.ResyncRequired? then 1 else 0
    {
      match m {
        case Ping(_) => ponged := ponged + 1;
        case Connected(_) =>
        case CaughtUp(_) =>
        case ResyncRequired(_) => resyncs := resyncs + 1;
        case EventFrame(e) =>
          read, outcomes := read + [e], outcomes + [d];
          if e.id > lastEventId {
            lastEventId := e.id;
            stored := lastEventId;
          }
          var threw := DispatchEvent(e, d);
          if !threw { return; }
          if e.id != 0 {
            lastEventId := Max(lastEventId, e.id);
            stored := lastEventId;
          }
          threw := DispatchEvent(e, d);
      }
    }

    method OnResync(ids: seq<nat>)
      modifies this
      ensures View() == Resynced(old(View()), ids)
    {
      var rest: seq<nat> := ids;
      while rest != []
        invariant Resynced(View(), rest) == Resynced(old(View()), ids)
        decreases |rest|
      {
        if rest[0] > lastEventId {
          lastEventId := rest[0];
          stored := lastEventId;
        }
        rest := rest[1..];
      }
    }
  }

  // ----- The protocol

  datatype Link = Down | Up(toServer: seq<ClientMessage>, toClient: seq<ServerMessage>)

  datatype World = World(limits: Limits, log: seq<Event>, prunedAt: int, link: Link, page: Page)

  datatype Step =
    | Add(data: string, stampedAt: int, now: int)
    | Open(backlog: nat)
    | ServerReads
    | ServerPings(timestamp: int)
    | ClientReads(dispatch: Dispatch)
    | ClientSends
    | Drop
    | Reload
    | HttpResync(ids: seq<nat>)

  function Start(limits: Limits, now: int): World {
    World(limits, [], now, Down, NewPage)
  }

  function Others(n: nat): seq<ClientMessage> {
    if n == 0 then [] else [Other] + Others(n - 1)
  }

  /** A message is waiting for the page to read it. */
  predicate Arriving(w: World) {
    w.link.Up? && w.link.toClient != []
  }

  predicate Enabled(w: World, s: Step) {
    match s
    case Add(_, stampedAt, now) => w.prunedAt <= stampedAt <= now
    case Open(_) => w.link.Down?
    case ServerReads => w.link.Up? && w.link.toServer != []
    case ServerPings(_) => w.link.Up?
    case ClientReads(_) => Arriving(w)
    case ClientSends => w.link.Up?
    case Drop => w.link.Up?
    case Reload => true
    case HttpResync(_) => true
  }

  function Next(w: World, s: Step): World
    requires Enabled(w, s)
  {
    match s
    case Add(data, stampedAt, now) => w.(log := w.log + [Event(|w.log| + 1, stampedAt, data)], prunedAt := now)
    case Open(backlog) =>
      w.(link := Up([Subscribe(w.page.lastEventId)] + Others(backlog), [Connected(|w.log|)]))
    case ServerReads =>
      var m := w.link.toServer[0];
      var rest := w.link.(toServer := w.link.toServer[1..]);
      if m.Subscribe?
      then w.(link := rest.(toClient := rest.toClient +
                SubscribeReply(Window(w.limits, w.log, w.prunedAt), |w.log|, m.lastEventId)))
      else w.(link := rest)
    case ServerPings(timestamp) => w.(link := w.link.(toClient := w.link.toClient + [Ping(timestamp)]))
    case ClientReads(d) =>
      w.(page := Receive(w.page, w.link.toClient[0], d), link := w.link.(toClient := w.link.toClient[1..]))
    case ClientSends => w.(link := w.link.(toServer := w.link.toServer + [Other]))
    case Drop => w.(link := Down)
    case Reload => w.(link := Down, page := w.page.(lastEventId := w.page.stored))
    case HttpResync(ids) => w.(page := Resynced(w.page, ids))
  }

  predicate Runs(w: World, steps: seq<Step>)
    decreases |steps|
  {
    steps == [] || (Enabled(w, steps[0]) && Runs(Next(w, steps[0]), steps[1..]))
  }

  function After(w: World, steps: seq<Step>): World
    requires Runs(w, steps)
    decreases |steps|
  {
    if steps == [] then w else After(Next(w, steps[0]), steps[1..])
  }

  predicate NoHttpResync(steps: seq<Step>) {
    forall i :: 0 <= i < |steps| ==> !steps[i].HttpResync?
  }

  // ----- What every state of a run without HTTP resyncs satisfies

  /** No addition is held up between its two clock reads for as long as the buffer's age limit. */
  predicate Prompt(limits: Limits, steps: seq<Step>) {
    forall i :: 0 <= i < |steps| && steps[i].Add? ==> steps[i].now < steps[i].stampedAt + limits.ageMs
  }

  /** The frames still on the way continue the log from `last`, and (for prompt runs) each caught-up
      message arrives when the page has exactly the events it speaks of. */
  predicate Continues(prompt: bool, log: seq<Event>, last: nat, q: seq<ServerMessage>)
    decreases |q|
  {
    q == [] ||
    match q[0]
    case EventFrame(e) =>
      1 <= e.id <= |log| && e == log[e.id - 1] && (last == 0 || e.id == last + 1) && Continues(prompt, log, e.id, q[1..])
    case CaughtUp(id) => (prompt ==> id == last) && Continues(prompt, log, last, q[1..])
    case _ => Continues(prompt, log, last, q[1..])
  }

  predicate Quiet(q: seq<ServerMessage>) {
    forall i :: 0 <= i < |q| ==> q[i].Connected? || q[i].Ping?
  }

  predicate LinkFits(prompt: bool, log: seq<Event>, last: nat, link: Link) {
    link.Up? ==>
      (forall i :: 0 < i < |link.toServer| ==> link.toServer[i] == Other) &&
      if link.toServer != [] && link.toServer[0].Subscribe?
      then link.toServer[0].lastEventId == last && Quiet(link.toClient)
      else Continues(prompt, log, last, link.toClient)
  }

  /** What the page has read is a contiguous piece of the log that ends at the last id, and what the
      application has been handed is that, repeated and left out as the dispatches ended. */
  predicate Gapless(log: seq<Event>, p: Page) {
    p.stored == p.lastEventId <= |log| &&
    |p.outcomes| == |p.read| <= p.lastEventId &&
    p.read == log[p.lastEventId - |p.read|..p.lastEventId] &&
    (p.read == [] ==> p.lastEventId == 0) &&
    p.handed == Copies(p.read, p.outcomes)
  }

  predicate LogFits(prompt: bool, w: World) {
    w.limits.Positive() && Numbered(w.log) && Sorted(w.log) &&
    (forall i :: 0 <= i < |w.log| ==> w.log[i].timestamp <= w.prunedAt) &&
    (prompt && w.log != [] ==> Window(w.limits, w.log, w.prunedAt) != [])
  }

  predicate Invariant(prompt: bool, w: World) {
    LogFits(prompt, w) && Gapless(w.log, w.page) && LinkFits(prompt, w.log, w.page.lastEventId, w.link)
  }

  lemma {:induction false} ContinuesInLongerLog(prompt: bool, log: seq<Event>, e: Event, last: nat, q: seq<ServerMessage>)
    requires Continues(prompt, log, last, q)
    ensures Continues(prompt, log + [e], last, q)
    decreases |q|
  {
    if q != [] {
      ContinuesInLongerLog(prompt, log, e, if q[0].EventFrame? then q[0].event.id else last, q[1..]);
    }
  }

  /** A ping slips in anywhere. */
  lemma {:induction false} ContinuesWithPing(prompt: bool, log: seq<Event>, last: nat, q: seq<ServerMessage>, timestamp: int)
    requires Continues(prompt, log, last, q)
    ensures Continues(prompt, log, last, q + [Ping(timestamp)])
    decreases |q|
  {
    if q != [] {
      ContinuesWithPing(prompt, log, if q[0].EventFrame? then q[0].event.id else last, q[1..], timestamp);
      assert (q + [Ping(timestamp)])[1..] == q[1..] + [Ping(timestamp)];
    }
  }

  lemma {:induction false} QuietThen(prompt: bool, log: seq<Event>, last: nat, quiet: seq<ServerMessage>, q: seq<ServerMessage>)
    requires Quiet(quiet) && Continues(prompt, log, last, q)
    ensures Continues(prompt, log, last, quiet + q)
    decreases |quiet|
  {
    if quiet == [] {
      assert quiet + q == q;
    } else {
      QuietThen(prompt, log, last, quiet[1..], q);
      assert (quiet + q)[1..] == quiet[1..] + q;
    }
  }

  /** Frames for the log from `first` on, then caught-up, continue from any state that reaches there. */
  lemma {:induction false} SuffixContinues(prompt: bool, log: seq<Event>, first: nat, last: nat)
    requires Numbered(log) && first <= |log| && (last == first || (last == 0 && first < |log|))
    ensures Continues(prompt, log, last, Frames(log[first..]) + [CaughtUp(|log|)])
    decreases |log| - first
  {
    var q := Frames(log[first..]) + [CaughtUp(|log|)];
    if first < |log| {
      SuffixContinues(prompt, log, first + 1, first + 1);
      assert log[first..][1..] == log[first + 1..];
      assert q[1..] == Frames(log[first + 1..]) + [CaughtUp(|log|)];
      assert q[0] == EventFrame(log[first]);
    } else {
      assert q == [CaughtUp(|log|)];
    }
  }

  lemma {:induction false} SingleContinues(prompt: bool, log: seq<Event>, last: nat, m: ServerMessage)
    requires m.ResyncRequired? || (m.CaughtUp? && !prompt)
    ensures Continues(prompt, log, last, [m])
  {
  }

  lemma {:induction false} FirstReplyContinues(prompt: bool, l: Limits, log: seq<Event>, now: int)
    requires Numbered(log) && Sorted(log) && Window(l, log, now) != []
    ensures Continues(prompt, log, 0, SubscribeReply(Window(l, log, now), |log|, 0))
  {
    WindowIsSuffix(l, log, now);
    FirstReply(l, log, now);
    SuffixContinues(prompt, log, WindowStart(l, log, now), 0);
  }

  lemma {:induction false} ReplyContinues(prompt: bool, l: Limits, log: seq<Event>, now: int, last: nat)
    requires Numbered(log) && Sorted(log) && last <= |log| && (prompt && log != [] ==> Window(l, log, now) != [])
    ensures Continues(prompt, log, last, SubscribeReply(Window(l, log, now), |log|, last))
  {
    if log == [] {
      SuffixContinues(prompt, log, 0, 0);
    } else if Window(l, log, now) == [] {
      EmptyBufferReply(l, log, now, last);
      SingleContinues(prompt, log, last, CaughtUp(|log|));
    } else if last == 0 {
      FirstReplyContinues(prompt, l, log, now);
    } else {
      ResyncIsExact(l, log, now, last);
      SuffixContinues(prompt, log, last, last);
      SingleContinues(prompt, log, last, ResyncRequired(|log|));
    }
  }

  lemma GaplessInLongerLog(log: seq<Event>, e: Event, p: Page)
    requires Gapless(log, p)
    ensures Gapless(log + [e], p)
  {
    assert log[p.lastEventId - |p.read|..p.lastEventId] == (log + [e])[p.lastEventId - |p.read|..p.lastEventId];
  }

  lemma SliceGrows<T>(s: seq<T>, i: nat, n: nat)
    requires i <= n < |s|
    ensures s[i..n + 1] == s[i..n] + [s[n]]
  {
  }

  lemma CopiesGrow(read: seq<Event>, outcomes: seq<Dispatch>, e: Event, d: Dispatch)
    requires |read| == |outcomes|
    ensures Copies(read + [e], outcomes + [d]) == Copies(read, outcomes) + HandOvers(e, d)
  {
    assert (read + [e])[..|read|] == read && (outcomes + [d])[..|read|] == outcomes;
  }

  lemma ReceiveNewFrame(p: Page, e: Event, d: Dispatch)
    requires p.stored == p.lastEventId < e.id
    ensures Receive(p, EventFrame(e), d) ==
            Page(e.id, e.id, p.read + [e], p.outcomes + [d], p.handed + HandOvers(e, d))
  {
  }

  /** `first` is where the piece that has been read begins. */
  lemma PieceGrows(log: seq<Event>, p: Page, first: nat, e: Event, d: Dispatch)
    requires 1 <= e.id <= |log| && e == log[e.id - 1] && first == e.id - 1 - |p.read|
    requires |p.outcomes| == |p.read| && p.read == log[first..e.id - 1] && p.handed == Copies(p.read, p.outcomes)
    ensures Gapless(log, Page(e.id, e.id, p.read + [e], p.outcomes + [d], p.handed + HandOvers(e, d)))
  {
    SliceGrows(log, first, e.id - 1);
    CopiesGrow(p.read, p.outcomes, e, d);
  }

  lemma FrameKeepsGapless(log: seq<Event>, p: Page, e: Event, d: Dispatch)
    requires Gapless(log, p) && 1 <= e.id <= |log| && e == log[e.id - 1]
    requires p.lastEventId == 0 || e.id == p.lastEventId + 1
    ensures Gapless(log, Receive(p, EventFrame(e), d)) && Receive(p, EventFrame(e), d).lastEventId == e.id
  {
    ReceiveNewFrame(p, e, d);
    PieceGrows(log, p, e.id - 1 - |p.read|, e, d);
  }

  lemma AddKeepsLog(prompt: bool, w: World, s: Step)
    requires s.Add? && LogFits(prompt, w) && Enabled(w, s) && (prompt ==> s.now < s.stampedAt + w.limits.ageMs)
    ensures LogFits(prompt, Next(w, s))
  {
    AddKeepsWindow(w.limits, w.log, w.prunedAt, Event(|w.log| + 1, s.stampedAt, s.data), s.now);
  }

  lemma AddKeepsLink(prompt: bool, log: seq<Event>, e: Event, last: nat, link: Link)
    requires LinkFits(prompt, log, last, link)
    ensures LinkFits(prompt, log + [e], last, link)
  {
    if link.Up? && Continues(prompt, log, last, link.toClient) {
      ContinuesInLongerLog(prompt, log, e, last, link.toClient);
    }
  }

  lemma AddKeeps(prompt: bool, w: World, s: Step)
    requires s.Add? && Invariant(prompt, w) && Enabled(w, s) && (prompt ==> s.now < s.stampedAt + w.limits.ageMs)
    ensures Invariant(prompt, Next(w, s))
  {
    var e := Event(|w.log| + 1, s.stampedAt, s.data);
    AddKeepsLog(prompt, w, s);
    GaplessInLongerLog(w.log, e, w.page);
    AddKeepsLink(prompt, w.log, e, w.page.lastEventId, w.link);
  }

  lemma ServerReadsKeeps(prompt: bool, w: World)
    requires Invariant(prompt, w) && Enabled(w, ServerReads)
    ensures Invariant(prompt, Next(w, ServerReads))
  {
    var last := w.page.lastEventId;
    var reply := SubscribeReply(Window(w.limits, w.log, w.prunedAt), |w.log|, last);
    if w.link.toServer[0].Subscribe? {
      ReplyContinues(prompt, w.limits, w.log, w.prunedAt, last);
      QuietThen(prompt, w.log, last, w.link.toClient, reply);
    }
  }

  lemma ArrivalKeeps(prompt: bool, log: seq<Event>, p: Page, q: seq<ServerMessage>, d: Dispatch)
    requires Gapless(log, p) && q != [] && Continues(prompt, log, p.lastEventId, q)
    ensures var after := Receive(p, q[0], d);
      Gapless(log, after) && Continues(prompt, log, after.lastEventId, q[1..])
    ensures prompt && q[0].CaughtUp? ==> q[0].currentEventId == p.lastEventId
  {
    if q[0].EventFrame? {
      FrameKeepsGapless(log, p, q[0].event, d);
    }
  }

  lemma ClientReadsKeeps(prompt: bool, w: World, d: Dispatch)
    requires Invariant(prompt, w) && Arriving(w)
    ensures Invariant(prompt, Next(w, ClientReads(d)))
    ensures prompt && w.link.toClient[0].CaughtUp? ==> w.link.toClient[0].currentEventId == w.page.lastEventId
  {
    if w.link.toServer == [] || !w.link.toServer[0].Subscribe? {
      ArrivalKeeps(prompt, w.log, w.page, w.link.toClient, d);
    }
  }

  lemma StepKeeps(prompt: bool, w: World, s: Step)
    requires Invariant(prompt, w) && Enabled(w, s) && !s.HttpResync? && (prompt ==> Prompt(w.limits, [s]))
    ensures Invariant(prompt, Next(w, s))
  {
    match s
    case Add(_, _, _) =>
      assert [s][0] == s;
      AddKeeps(prompt, w, s);
    case Open(backlog) => OthersAreOther(backlog);
    case ServerReads => ServerReadsKeeps(prompt, w);
    case ServerPings(timestamp) =>
      if Continues(prompt, w.log, w.page.lastEventId, w.link.toClient) {
        ContinuesWithPing(prompt, w.log, w.page.lastEventId, w.link.toClient, timestamp);
      }
    case ClientReads(d) => ClientReadsKeeps(prompt, w, d);
    case _ =>
  }

  lemma OthersAreOther(n: nat)
    ensures forall i :: 0 <= i < |Others(n)| ==> Others(n)[i] == Other
  {
  }

  lemma {:induction false} RunKeeps(prompt: bool, w: World, steps: seq<Step>)
    requires Invariant(prompt, w) && Runs(w, steps) && NoHttpResync(steps) && (prompt ==> Prompt(w.limits, steps))
    ensures Invariant(prompt, After(w, steps))
    decreases |steps|
  {
    if steps != [] {
      StepKeeps(prompt, w, steps[0]);
      assert NoHttpResync(steps[1..]);
      RunKeeps(prompt, Next(w, steps[0]), steps[1..]);
    }
  }

  // ----- Main results

  /** In order and without a gap: over any additions, drops, reconnects, reloads, partial deliveries and
      throwing handlers, the event frames that the page has read are a contiguous piece of the server's
      log, ids and data, that ends at the page's last id, which is also the stored one. */
  lemma ReplayIsGapless(limits: Limits, now: int, steps: seq<Step>)
    requires limits.Positive() && Runs(Start(limits, now), steps) && NoHttpResync(steps)
    ensures var w := After(Start(limits, now), steps);
      var p := w.page;
      && p.stored == p.lastEventId && |p.read| <= p.lastEventId <= |w.log|
      && p.read == w.log[p.lastEventId - |p.read|..p.lastEventId]
      && (forall i :: 0 <= i < |p.read| ==> p.read[i].id == p.lastEventId - |p.read| + 1 + i)
      && (p.read == [] <==> p.lastEventId == 0)
      && |p.outcomes| == |p.read| && p.handed == Copies(p.read, p.outcomes)
  {
    RunKeeps(false, Start(limits, now), steps);
  }

  predicate Increasing(events: seq<Event>) {
    forall i, j :: 0 <= i < j < |events| ==> events[i].id < events[j].id
  }

  lemma {:induction false} CopiesAreOfRead(read: seq<Event>, outcomes: seq<Dispatch>, e: Event)
    requires |read| == |outcomes| && e in Copies(read, outcomes)
    ensures e in read
  {
    if read != [] {
      var n := |read| - 1;
      if e in Copies(read[..n], outcomes[..n]) {
        CopiesAreOfRead(read[..n], outcomes[..n], e);
      }
    }
  }

  /** The hand-overs of a new event complete the ones before it only if there is exactly one of them. */
  lemma LastIsNew(init: seq<Event>, last: Event, before: seq<Event>, d: Dispatch)
    requires last !in init && last !in before
    ensures before + HandOvers(last, d) == init + [last] <==> d.Handled? && before == init
  {
    var left, right := before + HandOvers(last, d), init + [last];
    assert right[|init|] == last && last in right;
    match d
    case Refused => assert left == before;
    case HandlerThrows =>
      assert left[|before|] == last;
      assert |before| < |init| ==> right[|before|] == init[|before|];
    case Handled =>
      assert before == left[..|before|] && init == right[..|init|];
  }

  lemma AllHandledSplit(outcomes: seq<Dispatch>)
    requires outcomes != []
    ensures var n := |outcomes| - 1; AllHandled(outcomes) <==> AllHandled(outcomes[..n]) && outcomes[n].Handled?
  {
  }

  lemma IncreasingSplit(read: seq<Event>)
    requires read != [] && Increasing(read)
    ensures var n := |read| - 1; read == read[..n] + [read[n]] && Increasing(read[..n]) && read[n] !in read[..n]
  {
  }

  lemma {:induction false} NoneRefusedNoneRepeated(read: seq<Event>, outcomes: seq<Dispatch>)
    requires |read| == |outcomes| && Increasing(read)
    ensures Copies(read, outcomes) == read <==> AllHandled(outcomes)
  {
    if read != [] {
      var n := |read| - 1;
      IncreasingSplit(read);
      AllHandledSplit(outcomes);
      NoneRefusedNoneRepeated(read[..n], outcomes[..n]);
      if read[n] in Copies(read[..n], outcomes[..n]) {
        CopiesAreOfRead(read[..n], outcomes[..n], read[n]);
      }
      LastIsNew(read[..n], read[n], Copies(read[..n], outcomes[..n]), outcomes[n]);
    }
  }

  /** Exactly once: the application is handed that piece of the log, each event once and in order, if
      and only if no dispatch of an event frame threw. */
  lemma ReplayIsExactlyOnce(limits: Limits, now: int, steps: seq<Step>)
    requires limits.Positive() && Runs(Start(limits, now), steps) && NoHttpResync(steps)
    ensures var w := After(Start(limits, now), steps);
      var p := w.page;
      |p.read| <= p.lastEventId <= |w.log| &&
      (p.handed == w.log[p.lastEventId - |p.read|..p.lastEventId] <==> AllHandled(p.outcomes))
  {
    ReplayIsGapless(limits, now, steps);
    var p := After(Start(limits, now), steps).page;
    NoneRefusedNoneRepeated(p.read, p.outcomes);
  }

  lemma {:induction false} AllRefusedHandsNothing(read: seq<Event>, outcomes: seq<Dispatch>)
    requires |read| == |outcomes| && forall i :: 0 <= i < |outcomes| ==> outcomes[i].Refused?
    ensures Copies(read, outcomes) == []
  {
    if read != [] {
      AllRefusedHandsNothing(read[..|read| - 1], outcomes[..|read| - 1]);
    }
  }

  /** Every dispatch is refused. */
  predicate AllRefused(steps: seq<Step>) {
    forall i :: 0 <= i < |steps| && steps[i].ClientReads? ==> steps[i].dispatch.Refused?
  }

  lemma {:induction false} OutcomesRefused(w: World, steps: seq<Step>)
    requires Runs(w, steps) && AllRefused(steps)
    requires forall i :: 0 <= i < |w.page.outcomes| ==> w.page.outcomes[i].Refused?
    ensures forall i :: 0 <= i < |After(w, steps).page.outcomes| ==> After(w, steps).page.outcomes[i].Refused?
    decreases |steps|
  {
    if steps != [] {
      if steps[0].HttpResync? {
        ResyncedNeverGoesBack(w.page, steps[0].ids);
      }
      assert AllRefused(steps[1..]);
      OutcomesRefused(Next(w, steps[0]), steps[1..]);
    }
  }

  /** On a platform that keeps to the standard every dispatch is refused, and whatever the page reads,
      the application is handed nothing. */
  lemma RefusedReplayHandsNothing(limits: Limits, now: int, steps: seq<Step>)
    requires limits.Positive() && Runs(Start(limits, now), steps) && NoHttpResync(steps) && AllRefused(steps)
    ensures After(Start(limits, now), steps).page.handed == []
  {
    var p := After(Start(limits, now), steps).page;
    ReplayIsGapless(limits, now, steps);
    OutcomesRefused(Start(limits, now), steps);
    AllRefusedHandsNothing(p.read, p.outcomes);
  }

  lemma {:induction false} RunsConcat(w: World, a: seq<Step>, b: seq<Step>)
    requires Runs(w, a) && Runs(After(w, a), b)
    ensures Runs(w, a + b) && After(w, a + b) == After(After(w, a), b)
    decreases |a|
  {
    if a == [] {
      assert a + b == b;
    } else {
      RunsConcat(Next(w, a[0]), a[1..], b);
      assert (a + b)[1..] == a[1..] + b;
    }
  }

  lemma OneStep(w: World, s: Step)
    requires Enabled(w, s)
    ensures Runs(w, [s]) && After(w, [s]) == Next(w, s)
  {
    assert [s][1..] == [];
    assert Runs(Next(w, s), []) && After(Next(w, s), []) == Next(w, s);
  }

  /** In a prompt run, when a page reads `caught_up` it has read the log from its first event up to the id
      the message names, without a gap, and has handed over just that if no dispatch threw. Where that
      first event stands in the log is up to the buffer that answered the page's first subscription. */
  lemma CaughtUpIsTrue(limits: Limits, now: int, steps: seq<Step>)
    requires limits.Positive() && Runs(Start(limits, now), steps) && NoHttpResync(steps) && Prompt(limits, steps)
    ensures var w := After(Start(limits, now), steps);
      Arriving(w) && w.link.toClient[0].CaughtUp? ==>
        var id, got := w.link.toClient[0].currentEventId, |w.page.read|;
        && id == w.page.lastEventId && got <= id <= |w.log| && w.page.read == w.log[id - got..id]
        && (got == 0 ==> id == 0)
        && (w.page.handed == w.log[id - got..id] <==> AllHandled(w.page.outcomes))
  {
    RunKeeps(true, Start(limits, now), steps);
    ReplayIsExactlyOnce(limits, now, steps);
    var w := After(Start(limits, now), steps);
    if Arriving(w) {
      ClientReadsKeeps(true, w, Handled);
    }
  }

  // ----- Told too early

  /** What a page reads first when it connects and the server has answered. */
  function Connecting(): seq<Step> {
    [Open(0), ServerReads, ClientReads(Handled)]
  }

  lemma Connects(w: World) returns (v: World)
    requires w.link.Down?
    ensures Runs(w, Connecting()) && v == After(w, Connecting())
    ensures v.page == w.page && v.log == w.log && v.link.Up?
    ensures v.link.toClient == SubscribeReply(Window(w.limits, w.log, w.prunedAt), |w.log|, w.page.lastEventId)
  {
    var opening, reading := Next(w, Open(0)), Next(Next(w, Open(0)), ServerReads);
    var reply := SubscribeReply(Window(w.limits, w.log, w.prunedAt), |w.log|, w.page.lastEventId);
    assert opening.link == Up([Subscribe(w.page.lastEventId)], [Connected(|w.log|)]);
    assert reading.link.toClient == [Connected(|w.log|)] + reply;
    v := Next(reading, ClientReads(Handled));
    assert v.link.toClient == reply;
    OneStep(w, Open(0));
    OneStep(opening, ServerReads);
    OneStep(reading, ClientReads(Handled));
    RunsConcat(opening, [ServerReads], [ClientReads(Handled)]);
    RunsConcat(w, [Open(0)], [ServerReads] + [ClientReads(Handled)]);
    assert Connecting() == [Open(0)] + ([ServerReads] + [ClientReads(Handled)]);
  }

  lemma ReplyNotCaughtUp(l: Limits, log: seq<Event>, now: int, last: nat)
    requires Numbered(log) && Sorted(log) && last < |log| && Window(l, log, now) != []
    ensures !SubscribeReply(Window(l, log, now), |log|, last)[0].CaughtUp?
  {
    if last == 0 {
      FirstReply(l, log, now);
    } else {
      ResyncIsExact(l, log, now, last);
    }
  }

  /** Without promptness: a page that lacks events and connects is told at once, and wrongly, that it
      has caught up exactly when the newest event had reached the age limit at the last pruning. */
  lemma FalseCaughtUpExactly(limits: Limits, now: int, steps: seq<Step>)
    requires limits.Positive() && Runs(Start(limits, now), steps) && NoHttpResync(steps)
    ensures var w := After(Start(limits, now), steps);
      w.link.Down? && w.page.lastEventId < |w.log| ==>
        && Runs(w, Connecting())
        && var v := After(w, Connecting());
        && v.link.Up? && v.link.toClient != [] && v.page == w.page && v.log == w.log
        && (v.link.toClient[0] == CaughtUp(|w.log|) <==> w.log[|w.log| - 1].timestamp + w.limits.ageMs <= w.prunedAt)
  {
    RunKeeps(false, Start(limits, now), steps);
    var w := After(Start(limits, now), steps);
    if w.link.Down? && w.page.lastEventId < |w.log| {
      var v := Connects(w);
      WindowEmptyExactly(w.limits, w.log, w.prunedAt);
      if Window(w.limits, w.log, w.prunedAt) == [] {
        EmptyBufferReply(w.limits, w.log, w.prunedAt, w.page.lastEventId);
      } else {
        ReplyNotCaughtUp(w.limits, w.log, w.prunedAt, w.page.lastEventId);
      }
    }
  }

  /** The server adds one event, and a new page connects. */
  lemma OneEvent(limits: Limits, add: Step) returns (v: World)
    requires limits.Positive() && add.Add? && 0 <= add.stampedAt <= add.now
    ensures var start := Start(limits, 0); var steps := [add] + Connecting();
      Runs(start, steps) && NoHttpResync(steps) && v == After(start, steps)
    ensures v.log == [Event(1, add.stampedAt, add.data)] && v.page == NewPage && v.link.Up?
    ensures v.link.toClient == SubscribeReply(Window(limits, v.log, add.now), 1, 0)
  {
    var start := Start(limits, 0);
    var w := Next(start, add);
    assert w.log == [Event(1, add.stampedAt, add.data)];
    OneStep(start, add);
    v := Connects(w);
    RunsConcat(start, [add], Connecting());
  }

  /** It happens: one addition held up past an age limit of one millisecond, and a new page. */
  lemma CaughtUpWithNothing() returns (steps: seq<Step>)
    ensures Runs(Start(Limits(1, 1), 0), steps) && NoHttpResync(steps)
    ensures var w := After(Start(Limits(1, 1), 0), steps);
      |w.log| == 1 && Arriving(w) && w.link.toClient[0] == CaughtUp(1) && w.page == NewPage
  {
    var v := OneEvent(Limits(1, 1), Add("a", 0, 5));
    LateEventReply(v.log[0]);
    assert v.log == [v.log[0]];
    steps := [Add("a", 0, 5)] + Connecting();
  }

  lemma LateEventReply(e: Event)
    requires e.id == 1 && e.timestamp == 0
    ensures SubscribeReply(Window(Limits(1, 1), [e], 5), 1, 0) == [CaughtUp(1)]
  {
    WindowEmptyExactly(Limits(1, 1), [e], 5);
    EmptyBufferReply(Limits(1, 1), [e], 5, 0);
  }

  /** So does this: a handler that throws on the one event there is gets it twice, and an event whose
      dispatch is refused never arrives, although the page counts it as seen. */
  lemma ThrowingDispatch(d: Dispatch) returns (steps: seq<Step>)
    ensures Runs(Start(Limits(1, 1), 0), steps) && NoHttpResync(steps)
    ensures var w := After(Start(Limits(1, 1), 0), steps);
      w.log == [Event(1, 0, "a")] && w.page.read == w.log && w.page.lastEventId == w.page.stored == 1 &&
      w.page.handed == match d case Handled => w.log case HandlerThrows => w.log + w.log case Refused => []
  {
    var start, before := Start(Limits(1, 1), 0), [Add("a", 0, 0)] + Connecting();
    var v := OneEvent(Limits(1, 1), Add("a", 0, 0));
    var e := v.log[0];
    assert v.log == [e];
    OneEventReply(e);
    ReadsFrame(v, e, d);
    steps := before + [ClientReads(d)];
    ThenReads(start, before, v, d);
  }

  lemma ThenReads(start: World, before: seq<Step>, v: World, d: Dispatch)
    requires Runs(start, before) && NoHttpResync(before) && v == After(start, before) && Arriving(v)
    ensures var steps := before + [ClientReads(d)];
      Runs(start, steps) && NoHttpResync(steps) && After(start, steps) == Next(v, ClientReads(d))
  {
    OneStep(v, ClientReads(d));
    RunsConcat(start, before, [ClientReads(d)]);
  }

  lemma ReadsFrame(v: World, e: Event, d: Dispatch)
    requires v.page == NewPage && Arriving(v) && v.link.toClient[0] == EventFrame(e) && e.id == 1
    ensures Next(v, ClientReads(d)).page == Page(1, 1, [e], [d], HandOvers(e, d))
    ensures Next(v, ClientReads(d)).log == v.log
  {
    FirstFrame(e, d);
  }

  lemma OneEventReply(e: Event)
    requires e.id == 1 && e.timestamp == 0
    ensures var reply := SubscribeReply(Window(Limits(1, 1), [e], 0), 1, 0);
      reply != [] && reply[0] == EventFrame(e)
  {
    OneEventWindow(e);
    assert Since([e], 0) == [e];
    assert Frames([e])[0] == EventFrame(e);
  }

  lemma OneEventWindow(e: Event)
    requires e.id == 1 && e.timestamp == 0
    ensures Window(Limits(1, 1), [e], 0) == [e]
  {
    assert [e][1..] == [] && [e][0..] == [e];
  }

  lemma FirstFrame(e: Event, d: Dispatch)
    requires e.id == 1
    ensures Receive(NewPage, EventFrame(e), d) == Page(1, 1, [e], [d], HandOvers(e, d))
  {
    assert NewPage.read + [e] == [e] && NewPage.outcomes + [d] == [d];
    assert NewPage.handed + HandOvers(e, d) == HandOvers(e, d);
  }

  lemma {:induction false} ResyncedNeverGoesBack(p: Page, ids: seq<nat>)
    ensures Resynced(p, ids).lastEventId >= p.lastEventId && Resynced(p, ids).outcomes == p.outcomes
    ensures p.stored == p.lastEventId ==> Resynced(p, ids).stored == Resynced(p, ids).lastEventId
    ensures forall id :: id in ids ==> id <= Resynced(p, ids).lastEventId
    decreases |ids|
  {
    if ids != [] {
      assert ids == [ids[0]] + ids[1..];
      ResyncedNeverGoesBack(if ids[0] > p.lastEventId then p.(lastEventId := ids[0], stored := ids[0]) else p, ids[1..]);
    }
  }

  /** An HTTP resync leaves the page at the greatest of its last id and the fetched ones. */
  lemma {:induction false} ResyncedIsGreatest(p: Page, ids: seq<nat>)
    ensures var id := Resynced(p, ids).lastEventId;
      (id == p.lastEventId || id in ids) && p.lastEventId <= id && forall i :: i in ids ==> i <= id
    ensures p.stored == p.lastEventId ==> Resynced(p, ids).stored == Resynced(p, ids).lastEventId
    decreases |ids|
  {
    ResyncedNeverGoesBack(p, ids);
    if ids != [] {
      ResyncedIsGreatest(if ids[0] > p.lastEventId then p.(lastEventId := ids[0], stored := ids[0]) else p, ids[1..]);
    }
  }

  /** Whatever HTTP resyncs return, and across reloads, the last id never goes back and its stored
      copy is always the same. */
  lemma {:induction false} LastIdNeverGoesBack(w: World, steps: seq<Step>)
    requires w.page.stored == w.page.lastEventId && Runs(w, steps)
    ensures var p := After(w, steps).page; p.stored == p.lastEventId >= w.page.lastEventId
    decreases |steps|
  {
    if steps != [] {
      if steps[0].HttpResync? {
        ResyncedNeverGoesBack(w.page, steps[0].ids);
      }
      LastIdNeverGoesBack(Next(w, steps[0]), steps[1..]);
    }
  }
}
