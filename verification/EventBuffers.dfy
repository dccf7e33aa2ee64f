/** The server's event buffer: every event ever added gets the next id, and the buffer keeps the
    recent ones. The log of all events is the simple thing that the pruned buffer stands for. */
module EventBuffers {
  import opened Numbers

  datatype Event = Event(id: nat, timestamp: int, data: string)

  /** The server's wire messages, in the order it hands them to one socket. */
  datatype ServerMessage =
    | Connected(currentEventId: nat)
    | Ping(timestamp: int)
    | EventFrame(event: Event)
    | ResyncRequired(currentEventId: nat)
    | CaughtUp(currentEventId: nat)

  datatype Limits = Limits(size: nat, ageMs: nat)
  {
    predicate Positive() {
      0 < size && 0 < ageMs
    }
  }

  // ----- What the buffer computes, on values

  function Fresh(events: seq<Event>, cutoff: int): seq<Event> {
    if events == [] then []
    else if events[0].timestamp > cutoff then [events[0]] + Fresh(events[1..], cutoff)
    else Fresh(events[1..], cutoff)
  }

  /** JavaScript's slice(-n) for a positive n. */
  function LastOf<T>(s: seq<T>, n: nat): seq<T> {
    if |s| <= n then s else s[|s| - n..]
  }

  function Pruned(l: Limits, events: seq<Event>, now: int): seq<Event> {
    LastOf(Fresh(events, now - l.ageMs), l.size)
  }

  function FirstAfter(events: seq<Event>, lastId: nat): (i: nat)
    ensures i <= |events|
    ensures i < |events| ==> events[i].id > lastId
    ensures forall j :: 0 <= j < i ==> events[j].id <= lastId
  {
    if events == [] || events[0].id > lastId then 0 else 1 + FirstAfter(events[1..], lastId)
  }

  function Since(events: seq<Event>, lastId: nat): seq<Event> {
    events[FirstAfter(events, lastId)..]
  }

  predicate TooOld(events: seq<Event>, lastId: nat) {
    events != [] && lastId < events[0].id
  }

  function Frames(events: seq<Event>): (frames: seq<ServerMessage>)
    ensures |frames| == |events|
    ensures forall i :: 0 <= i < |events| ==> frames[i] == EventFrame(events[i])
  {
    if events == [] then [] else [EventFrame(events[0])] + Frames(events[1..])
  }

  /** Everything the server sends in answer to one subscribe message. */
  function SubscribeReply(events: seq<Event>, lastEventId: nat, clientId: nat): seq<ServerMessage> {
    if clientId > 0 && TooOld(events, clientId) then [ResyncRequired(lastEventId)]
    else Frames(Since(events, clientId)) + [CaughtUp(lastEventId)]
  }

  // ----- The log

  /** Ids count up from 1 without a gap. */
  predicate Numbered(log: seq<Event>) {
    forall i :: 0 <= i < |log| ==> log[i].id == i + 1
  }

  predicate Sorted(log: seq<Event>) {
    forall i, j :: 0 <= i <= j < |log| ==> log[i].timestamp <= log[j].timestamp
  }

  function Expired(log: seq<Event>, cutoff: int): (n: nat)
    ensures n <= |log|
    ensures forall i :: 0 <= i < n ==> log[i].timestamp <= cutoff
    ensures n < |log| ==> log[n].timestamp > cutoff
  {
    if log == [] || log[0].timestamp > cutoff then 0 else 1 + Expired(log[1..], cutoff)
  }

  /** On a log in clock order, dropping the expired events leaves a suffix. */
  lemma {:induction false} FreshIsSuffix(log: seq<Event>, cutoff: int)
    requires Sorted(log)
    ensures Fresh(log, cutoff) == log[Expired(log, cutoff)..]
  {
    if log != [] {
      FreshIsSuffix(log[1..], cutoff);
      if log[0].timestamp > cutoff {
        assert Expired(log[1..], cutoff) == 0;
      }
    }
  }

  /** The suffix of the log that the buffer should hold when it was last pruned at `now`: the last
      min(size, number of unexpired) events. */
  function Window(l: Limits, log: seq<Event>, now: int): seq<Event> {
    LastOf(log, Min(l.size, |Fresh(log, now - l.ageMs)|))
  }

  /** Where the window begins. */
  function WindowStart(l: Limits, log: seq<Event>, now: int): (i: nat)
    ensures i <= |log|
  {
    var expired := Expired(log, now - l.ageMs);
    if expired + l.size < |log| then |log| - l.size else expired
  }

  lemma {:induction false} WindowIsSuffix(l: Limits, log: seq<Event>, now: int)
    requires Sorted(log)
    ensures Window(l, log, now) == Pruned(l, log, now) == log[WindowStart(l, log, now)..]
  {
    FreshIsSuffix(log, now - l.ageMs);
    WindowOfSuffix(l, log, now);
  }

  /** Event by event: the buffer holds exactly those of the last `size` that are younger than the age
      limit, in the order of the log. */
  lemma WindowHolds(l: Limits, log: seq<Event>, now: int)
    requires Sorted(log)
    ensures var w := Window(l, log, now); var start := |log| - |w|;
      0 <= start && w == log[start..] &&
      forall i :: 0 <= i < |log| ==> (start <= i <==> now - log[i].timestamp < l.ageMs && |log| - i <= l.size)
  {
    WindowIsSuffix(l, log, now);
  }

  lemma {:induction false} WindowOfSuffix(l: Limits, log: seq<Event>, now: int)
    requires Fresh(log, now - l.ageMs) == log[Expired(log, now - l.ageMs)..]
    ensures Window(l, log, now) == Pruned(l, log, now) == log[WindowStart(l, log, now)..]
  {
    var kept := Fresh(log, now - l.ageMs);
    LastOfSuffix(log, kept, Expired(log, now - l.ageMs), l.size);
    assert Window(l, log, now) == LastOf(log, Min(l.size, |kept|));
    assert Pruned(l, log, now) == LastOf(kept, l.size);
  }

  lemma LastOfSuffix(log: seq<Event>, kept: seq<Event>, dropped: nat, size: nat)
    requires dropped <= |log| && kept == log[dropped..]
    ensures LastOf(log, Min(size, |kept|)) == LastOf(kept, size) ==
            log[if dropped + size < |log| then |log| - size else dropped..]
  {
  }

  lemma {:induction false} ExpiredAfterDrop(log: seq<Event>, dropped: nat, cutoff: int)
    requires Sorted(log) && dropped <= |log|
    ensures Expired(log[dropped..], cutoff) + dropped ==
            if dropped <= Expired(log, cutoff) then Expired(log, cutoff) else dropped
  {
    var kept := log[dropped..];
    var x, y := Expired(log, cutoff), Expired(kept, cutoff);
    assert y < |kept| ==> kept[y] == log[y + dropped];
    assert 0 < y ==> kept[y - 1] == log[y - 1 + dropped];
  }

  /** What one pruning dropped, no later pruning of a longer log would keep. */
  lemma {:induction false} WindowMovesForward(l: Limits, log: seq<Event>, prunedAt: int, e: Event, now: int)
    requires Sorted(log + [e]) && prunedAt <= now
    ensures WindowStart(l, log, prunedAt) <= WindowStart(l, log + [e], now)
  {
    assert forall i :: 0 <= i < |log| ==> (log + [e])[i] == log[i];
  }

  /** Pruning once more, after one more event and at a later time, gives the same result as pruning
      the whole log at that time. */
  lemma {:induction false} PruneAgain(l: Limits, log: seq<Event>, prunedAt: int, e: Event, now: int)
    requires Sorted(log + [e]) && prunedAt <= now
    ensures Pruned(l, Window(l, log, prunedAt) + [e], now) == Window(l, log + [e], now)
  {
    var longer, start := log + [e], WindowStart(l, log, prunedAt);
    assert Sorted(log) by {
      assert forall i :: 0 <= i < |log| ==> longer[i] == log[i];
    }
    WindowIsSuffix(l, log, prunedAt);
    assert Window(l, log, prunedAt) + [e] == longer[start..];
    DropThenPrune(l, longer, start, now) by {
      WindowMovesForward(l, log, prunedAt, e, now);
    }
  }

  lemma {:induction false} StartAfterDrop(l: Limits, log: seq<Event>, dropped: nat, now: int)
    requires Sorted(log) && dropped <= WindowStart(l, log, now)
    ensures WindowStart(l, log[dropped..], now) + dropped == WindowStart(l, log, now)
  {
    ExpiredAfterDrop(log, dropped, now - l.ageMs);
  }

  lemma {:induction false} DropThenPrune(l: Limits, log: seq<Event>, dropped: nat, now: int)
    requires Sorted(log) && dropped <= WindowStart(l, log, now)
    ensures Pruned(l, log[dropped..], now) == Window(l, log, now)
  {
    var start := WindowStart(l, log, now);
    calc {
      Pruned(l, log[dropped..], now);
      { SortedSuffix(log, dropped); WindowIsSuffix(l, log[dropped..], now); }
      log[dropped..][WindowStart(l, log[dropped..], now)..];
      { StartAfterDrop(l, log, dropped, now); }
      log[dropped..][start - dropped..];
      log[start..];
      { WindowIsSuffix(l, log, now); }
      Window(l, log, now);
    }
  }

  lemma {:induction false} SortedSuffix(log: seq<Event>, dropped: nat)
    requires Sorted(log) && dropped <= |log|
    ensures Sorted(log[dropped..])
  {
    var kept := log[dropped..];
    forall i, j | 0 <= i <= j < |kept|
      ensures kept[i].timestamp <= kept[j].timestamp
    {
      assert kept[i] == log[dropped + i] && kept[j] == log[dropped + j];
    }
  }

  /** The clock of the last addition and the clock of the pruning that followed it. */
  lemma {:induction false} WindowEmptyExactly(l: Limits, log: seq<Event>, now: int)
    requires 0 < l.size && Sorted(log) && log != []
    ensures Window(l, log, now) == [] <==> log[|log| - 1].timestamp + l.ageMs <= now
  {
    WindowIsSuffix(l, log, now);
    assert log[Expired(log, now - l.ageMs)..] == [] <==> Expired(log, now - l.ageMs) == |log|;
  }

  lemma FirstAfterSuffix(log: seq<Event>, start: nat, lastId: nat)
    requires Numbered(log) && start <= |log|
    ensures start + FirstAfter(log[start..], lastId) ==
            if lastId <= start then start else if lastId <= |log| then lastId else |log|
  {
    var events := log[start..];
    var i := FirstAfter(events, lastId);
    assert i < |events| ==> events[i] == log[start + i];
    assert 0 < i ==> events[i - 1] == log[start + i - 1];
  }

  lemma DropTwice<T>(s: seq<T>, a: nat, b: nat)
    requires a + b <= |s|
    ensures s[a..][b..] == s[a + b..]
  {
  }

  lemma {:induction false} SinceSuffix(log: seq<Event>, start: nat, lastId: nat)
    requires Numbered(log) && start <= |log|
    ensures Since(log[start..], lastId) == log[if lastId <= start then start else if lastId <= |log| then lastId else |log|..]
  {
    FirstAfterSuffix(log, start, lastId);
    DropTwice(log, start, FirstAfter(log[start..], lastId));
  }

  predicate Buffered(events: seq<Event>, id: nat) {
    exists i :: 0 <= i < |events| && events[i].id == id
  }

  /** The reply a client that has everything up to `clientId` needs in order to miss nothing. */
  function CompleteReply(log: seq<Event>, clientId: nat): seq<ServerMessage>
    requires clientId <= |log|
  {
    Frames(log[clientId..]) + [CaughtUp(|log|)]
  }

  lemma {:induction false} BufferedInSuffix(log: seq<Event>, start: nat, id: nat)
    requires Numbered(log) && start <= |log| && 1 <= id <= |log|
    ensures Buffered(log[start..], id) <==> start < id
  {
    var events := log[start..];
    if start < id {
      assert events[id - 1 - start] == log[id - 1];
    } else {
      assert forall i :: 0 <= i < |events| ==> events[i] == log[start + i];
    }
  }

  lemma {:induction false} SuffixReply(log: seq<Event>, start: nat, clientId: nat)
    requires Numbered(log) && start < |log| && 1 <= clientId <= |log|
    ensures SubscribeReply(log[start..], |log|, clientId) ==
            if start < clientId then CompleteReply(log, clientId) else [ResyncRequired(|log|)]
  {
    assert log[start..][0] == log[start];
    SinceSuffix(log, start, clientId);
  }

  /** A client that has seen an event is sent to resync exactly when that event is no longer
      buffered, and otherwise gets precisely the log entries after it. */
  lemma {:induction false} ResyncIsExact(l: Limits, log: seq<Event>, now: int, clientId: nat)
    requires Numbered(log) && Sorted(log) && 1 <= clientId <= |log|
    requires Window(l, log, now) != []
    ensures var events := Window(l, log, now);
      SubscribeReply(events, |log|, clientId) ==
      if Buffered(events, clientId) then CompleteReply(log, clientId) else [ResyncRequired(|log|)]
  {
    WindowIsSuffix(l, log, now);
    SuffixReply(log, WindowStart(l, log, now), clientId);
    BufferedInSuffix(log, WindowStart(l, log, now), clientId);
  }

  /** Outside the rule, first: a client with no id yet is never sent to resync and gets the whole
      buffer, so it lacks what has been dropped from the log. */
  lemma {:induction false} FirstReply(l: Limits, log: seq<Event>, now: int)
    requires Numbered(log) && Sorted(log)
    ensures var events := Window(l, log, now);
      && SubscribeReply(events, |log|, 0) == Frames(events) + [CaughtUp(|log|)]
      && (SubscribeReply(events, |log|, 0) == CompleteReply(log, 0) <==> events == log)
  {
    var events := Window(l, log, now);
    WindowIsSuffix(l, log, now);
    SinceSuffix(log, WindowStart(l, log, now), 0);
    assert log[0..] == log;
    assert |SubscribeReply(events, |log|, 0)| == |events| + 1;
    assert |CompleteReply(log, 0)| == |log| + 1;
  }

  /** Second: when the event just added was already too old at the pruning that followed, the buffer
      is empty and whatever the client has missed is passed over as caught up. */
  lemma {:induction false} EmptyBufferReply(l: Limits, log: seq<Event>, now: int, clientId: nat)
    requires Numbered(log) && clientId <= |log| && Window(l, log, now) == []
    ensures var reply := SubscribeReply(Window(l, log, now), |log|, clientId);
      reply == [CaughtUp(|log|)] && (reply == CompleteReply(log, clientId) <==> clientId == |log|)
  {
    assert |CompleteReply(log, clientId)| == |log| - clientId + 1;
  }

  /** Third: a client whose id is ahead of the log, as after a restart of the server, gets nothing. */
  lemma AheadReply(l: Limits, log: seq<Event>, now: int, clientId: nat)
    requires Numbered(log) && Sorted(log) && |log| < clientId
    ensures SubscribeReply(Window(l, log, now), |log|, clientId) == [CaughtUp(|log|)]
  {
    WindowIsSuffix(l, log, now);
    SinceSuffix(log, WindowStart(l, log, now), clientId);
    assert log[|log|..] == [];
  }

  lemma {:induction false} AddKeepsWindow(l: Limits, log: seq<Event>, prunedAt: int, e: Event, now: int)
    requires l.Positive() && Numbered(log) && Sorted(log) && prunedAt <= e.timestamp <= now && e.id == |log| + 1
    requires forall i :: 0 <= i < |log| ==> log[i].timestamp <= prunedAt
    ensures Numbered(log + [e]) && Sorted(log + [e])
    ensures Pruned(l, Window(l, log, prunedAt) + [e], now) == Window(l, log + [e], now)
    ensures Window(l, log + [e], now) == [] <==> e.timestamp + l.ageMs <= now
  {
    var longer := log + [e];
    forall i, j | 0 <= i <= j < |longer|
      ensures longer[i].timestamp <= longer[j].timestamp
    {
      assert j < |log| ==> longer[j] == log[j];
      assert i < |log| ==> longer[i] == log[i];
    }
    PruneAgain(l, log, prunedAt, e, now);
    WindowEmptyExactly(l, longer, now);
  }

  /** One buffer per server process. `log` and `prunedAt` are history the code does not keep. */
  class EventBuffer {
    const limits: Limits
    var events: seq<Event>
    var lastEventId: nat
    ghost var log: seq<Event>
    ghost var prunedAt: int

    ghost predicate Valid()
      reads this
    {
      limits.Positive() && Numbered(log) && Sorted(log) && lastEventId == |log| &&
      (forall i :: 0 <= i < |log| ==> log[i].timestamp <= prunedAt) &&
      events == Window(limits, log, prunedAt)
    }

    constructor (limits: Limits, ghost now: int)
      requires limits.Positive()
      ensures Valid() && this.limits == limits && log == [] && events == [] && prunedAt == now
    {
      this.limits := limits;
      events, lastEventId := [], 0;
      log, prunedAt := [], now;
    }

    /** `stampedAt` and `now` are the two clock reads of one addition. */
    method Add(data: string, stampedAt: int, now: int) returns (id: nat)
      requires Valid() && prunedAt <= stampedAt <= now
      modifies this
      ensures Valid() && prunedAt == now
      ensures id == |log| && log == old(log) + [Event(id, stampedAt, data)]
      ensures events == [] <==> stampedAt + limits.ageMs <= now
    {
      lastEventId := lastEventId + 1;
      var event := Event(lastEventId, stampedAt, data);
      events := events + [event];
      AddKeepsWindow(limits, log, prunedAt, event, now);
      log, prunedAt := log + [event], now;
      Prune(now);
      return event.id;
    }

    method Prune(now: int)
      modifies `events
      ensures events == Pruned(limits, old(events), now)
    {
      var cutoff := now - limits.ageMs;
      var kept := Fresh(events, cutoff);
      events := LastOf(kept, limits.size);
    }

    method GetSince(lastId: nat) returns (missed: seq<Event>)
      ensures missed == Since(events, lastId)
    {
      var i := FirstAfter(events, lastId);
      if i == |events| { return []; }
      return events[i..];
    }

    method IsIdTooOld(lastId: nat) returns (tooOld: bool)
      ensures tooOld <==> TooOld(events, lastId)
    {
      if |events| == 0 { return false; }
      return lastId < events[0].id;
    }
  }

  /** The server's side of one connection: what it has been told and what it has sent. */
  class ServerSocket {
    var subscribed: bool
    var lastEventId: nat
    var sent: seq<ServerMessage>

    constructor (buffer: EventBuffer)
      ensures !subscribed && lastEventId == 0 && sent == [Connected(buffer.lastEventId)]
    {
      subscribed, lastEventId := false, 0;
      sent := [Connected(buffer.lastEventId)];
    }

    method Subscribe(buffer: EventBuffer, clientId: nat)
      modifies this
      ensures subscribed && lastEventId == clientId
      ensures sent == old(sent) + SubscribeReply(buffer.events, buffer.lastEventId, clientId)
    {
      subscribed, lastEventId := true, clientId;
      var tooOld := buffer.IsIdTooOld(lastEventId);
      if lastEventId > 0 && tooOld {
        sent := sent + [ResyncRequired(buffer.lastEventId)];
      } else {
        var missed := buffer.GetSince(lastEventId);
        Replay(missed);
        sent := sent + [CaughtUp(buffer.lastEventId)];
      }
    }

    method Replay(missed: seq<Event>)
      modifies `sent
      ensures sent == old(sent) + Frames(missed)
    {
      for i := 0 to |missed|
        invariant sent == old(sent) + Frames(missed[..i])
      {
        FramesOfMore(missed, i);
        sent := sent + [EventFrame(missed[i])];
      }
      assert missed[..|missed|] == missed;
    }
  }

  lemma FramesOfMore(events: seq<Event>, i: nat)
    requires i < |events|
    ensures Frames(events[..i + 1]) == Frames(events[..i]) + [EventFrame(events[i])]
  {
  }
}
