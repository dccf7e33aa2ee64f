/** The page's reconnecting socket: when it connects, how long it waits, and what becomes of the
    messages that the application sends. */
module ResilientSocket {
  import opened Numbers

  const BASE_DELAY := 250
  const MAX_DELAY := 5000
  const MAX_ATTEMPTS := 100
  const MAX_PENDING := 200

  datatype Socket = Absent | Connecting | Open | Closing | Closed
  {
    predicate Live() {
      Connecting? || Open? || Closing?
    }
  }

  /** `App(n)` is the n-th message that the application submitted. */
  datatype Item = App(n: nat) | Pong | Subscribe

  datatype Frame = Opened | Sent(item: Item)

  /** What has happened so far; the code keeps none of it. `wire` lists the frames handed to the raw
      socket, `waits` the delays set since the last connection opened. */
  datatype History = History(
    wire: seq<Frame>, submitted: nat, discarded: seq<Item>, waits: seq<real>, created: nat)

  datatype State = State(
    ws: Socket, timer: bool, attempts: nat, shouldReconnect: bool, pending: seq<Item>, past: History)

  const Fresh := State(Absent, false, 0, true, [], History([], 0, [], [], 0))

  function Delay(attempt: nat): int
    requires 1 <= attempt
  {
    Min(BASE_DELAY * Pow2(attempt - 1), MAX_DELAY)
  }

  function Reconnect(s: State, jitter: real): State {
    if !s.shouldReconnect || s.attempts >= MAX_ATTEMPTS then s
    else s.(attempts := s.attempts + 1, timer := true,
            past := s.past.(waits := s.past.waits + [Delay(s.attempts + 1) as real + jitter]))
  }

  /** `created` says that the raw constructor did not throw. */
  function Connect(s: State, created: bool, jitter: real): State {
    if !s.shouldReconnect then s
    else if created then s.(timer := false, ws := Connecting, past := s.past.(created := s.past.created + 1))
    else Reconnect(s.(timer := false), jitter)
  }

  function Wired(s: State, items: seq<Item>): State {
    s.(past := s.past.(wire := s.past.wire + SentAll(items)))
  }

  function SentAll(items: seq<Item>): (frames: seq<Frame>)
    ensures |frames| == |items| && forall i :: 0 <= i < |items| ==> frames[i] == Sent(items[i])
  {
    if items == [] then [] else [Sent(items[0])] + SentAll(items[1..])
  }

  lemma SentAllMore(wire: seq<Frame>, items: seq<Item>, n: nat)
    requires n < |items|
    ensures wire + SentAll(items[..n]) + [Sent(items[n])] == wire + SentAll(items[..n + 1])
  {
    assert SentAll(items[..n]) + [Sent(items[n])] == SentAll(items[..n + 1]);
  }

  function Enqueue(s: State, item: Item): State {
    if |s.pending| >= MAX_PENDING
    then s.(pending := s.pending[1..] + [item], past := s.past.(discarded := s.past.discarded + [s.pending[0]]))
    else s.(pending := s.pending + [item])
  }

  /** `thrown` says that the raw send throws, which hands the frame to nobody. */
  function Send(s: State, item: Item, thrown: bool): State {
    if s.ws.Open? then (if thrown then s else Wired(s, [item])) else Enqueue(s, item)
  }

  /** The raw send accepts the first `accepted` frames and throws on the next one. */
  function Flush(s: State, accepted: nat): State {
    var n := if accepted <= |s.pending| then accepted else |s.pending|;
    if s.ws.Open? then Wired(s, s.pending[..n]).(pending := s.pending[n..]) else s
  }

  function OnOpen(s: State, subscribeThrows: bool, accepted: nat): State {
    var up := s.(ws := Open, attempts := 0, past := s.past.(wire := s.past.wire + [Opened], waits := []));
    if subscribeThrows then up else Flush(Wired(up, [Subscribe]), accepted)
  }

  function OnClose(s: State, code: int, jitter: real): State {
    var closed := s.(ws := Closed);
    if code == 1000 then closed.(shouldReconnect := false) else Reconnect(closed, jitter)
  }

  function Close(s: State): State {
    s.(shouldReconnect := false, timer := false, ws := if s.ws.Live() then Closing else s.ws)
  }

  function Submit(s: State, thrown: bool): State {
    var sent := Send(s, App(s.past.submitted), thrown);
    sent.(past := sent.past.(submitted := s.past.submitted + 1))
  }

  class ResilientWebSocket {
    var ws: Socket
    var reconnectTimer: bool
    var reconnectAttempts: nat
    var shouldReconnect: bool
    var pendingSends: seq<Item>
    ghost var past: History

    ghost function View(): State
      reads this
    {
      State(ws, reconnectTimer, reconnectAttempts, shouldReconnect, pendingSends, past)
    }

    constructor (created: bool, jitter: real)
      ensures View() == Connect(Fresh, created, jitter)
    {
      ws, reconnectTimer, reconnectAttempts, shouldReconnect := Absent, false, 0, true;
      pendingSends, past := [], History([], 0, [], [], 0);
      new;
      DoConnect(created, jitter);
    }

    method DoConnect(created: bool, jitter: real)
      modifies this
      ensures View() == Connect(old(View()), created, jitter)
      ensures !old(shouldReconnect) ==> View() == old(View())
    {
      if !shouldReconnect { return; }
      reconnectTimer := false;
      if created {
        ws := Connecting;
        past := past.(created := past.created + 1);
      } else {
        DoReconnect(jitter);
      }
    }

    method DoReconnect(jitter: real)
      modifies this
      ensures View() == Reconnect(old(View()), jitter)
    {
      if !shouldReconnect { return; }
      if reconnectAttempts >= MAX_ATTEMPTS { return; }
      reconnectAttempts := reconnectAttempts + 1;
      var delay := Min(BASE_DELAY * Pow2(reconnectAttempts - 1), MAX_DELAY) as real + jitter;
      past := past.(waits := past.waits + [delay]);
      reconnectTimer := true;
    }

    method DoSend(item: Item, thrown: bool)
      modifies this
      ensures View() == Send(old(View()), item, thrown)
    {
      if ws == Open {
        if !thrown {
          past := past.(wire := past.wire + [Sent(item)]);
        }
      } else {
        if |pendingSends| >= MAX_PENDING {
          past := past.(discarded := past.discarded + [pendingSends[0]]);
          pendingSends := pendingSends[1..];
        }
        pendingSends := pendingSends + [item];
      }
    }

    method FlushPendingSends(accepted: nat)
      modifies this
      ensures View() == Flush(old(View()), accepted)
    {
      if ws != Open { return; }
      ghost var before := pendingSends;
      var taken := 0;
      while |pendingSends| > 0
        invariant taken <= accepted && taken <= |before| && pendingSends == before[taken..]
        invariant past == old(past).(wire := old(past.wire) + SentAll(before[..taken]))
        invariant ws == old(ws) && reconnectTimer == old(reconnectTimer)
        invariant reconnectAttempts == old(reconnectAttempts) && shouldReconnect == old(shouldReconnect)
        decreases |pendingSends|
      {
        var next := pendingSends[0];
        pendingSends := pendingSends[1..];
        if taken == accepted {
          pendingSends := [next] + pendingSends;
          break;
        }
        past := past.(wire := past.wire + [Sent(next)]);
        SentAllMore(old(past.wire), before, taken);
        taken := taken + 1;
      }
    }

    method HandleOpen(subscribeThrows: bool, accepted: nat)
      modifies this
      ensures View() == OnOpen(old(View()), subscribeThrows, accepted)
    {
      ws, reconnectAttempts := Open, 0;
      past := past.(wire := past.wire + [Opened], waits := []);
      DoSend(Subscribe, subscribeThrows);
      if subscribeThrows { return; }
      FlushPendingSends(accepted);
    }

    method HandleClose(code: int, jitter: real)
      modifies this
      ensures View() == OnClose(old(View()), code, jitter)
    {
      ws := Closed;
      if code == 1000 {
        shouldReconnect := false;
      } else {
        DoReconnect(jitter);
      }
    }

    method DoClose()
      modifies this
      ensures View() == Close(old(View()))
    {
      shouldReconnect, reconnectTimer := false, false;
      if ws.Live() {
        ws := Closing;
      }
    }
  }
}
