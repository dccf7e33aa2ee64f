/** The counting allocator: five shared counters that every operation updates in several separate
    atomic steps before it calls the system allocator. Threads interleave between any two steps. */
module CountingAllocator {
  import opened Numbers

  /** Counters and sizes are machine words, and atomic additions wrap around. */
  const WORD := 0x1_0000_0000_0000_0000

  datatype Counters = Counters(
    allocCalls: int, deallocCalls: int, requested: int, released: int, outstanding: int)
  {
    function Plus(d: Counters): Counters {
      Counters(allocCalls + d.allocCalls, deallocCalls + d.deallocCalls, requested + d.requested,
               released + d.released, outstanding + d.outstanding)
    }

    function Wrapped(): Counters {
      Counters(allocCalls % WORD, deallocCalls % WORD, requested % WORD, released % WORD, outstanding % WORD)
    }
  }

  const Zero := Counters(0, 0, 0, 0, 0)

  /** One call in progress: `done` counts the atomic steps it has taken. */
  datatype Thread =
    | Idle
    | Allocating(size: nat, done: nat)
    | Freeing(size: nat, done: nat)
    | Resizing(was: nat, now: nat, done: nat)

  /** How many counter steps the call takes. */
  function Steps(t: Thread): nat {
    match t
    case Idle => 0
    case Allocating(_, _) => 3
    case Freeing(_, _) => 3
    case Resizing(was, now, _) => if now >= was then 3 else 4
  }

  predicate Sound(t: Thread) {
    t.Idle? || t.done <= Steps(t)
  }

  predicate Counted(t: Thread) {
    !t.Idle? && t.done == Steps(t)
  }

  /** The change that the call's next step makes. */
  function Delta(t: Thread): Counters
    requires !t.Idle? && t.done < Steps(t)
  {
    match t
    case Allocating(size, done) =>
      if done == 0 then Counters(1, 0, 0, 0, 0)
      else if done == 1 then Counters(0, 0, size, 0, 0)
      else Counters(0, 0, 0, 0, size)
    case Freeing(size, done) =>
      if done == 0 then Counters(0, 1, 0, 0, 0)
      else if done == 1 then Counters(0, 0, 0, size, 0)
      else Counters(0, 0, 0, 0, 0 - size)
    case Resizing(was, now, done) =>
      if done == 0 then Counters(1, 0, 0, 0, 0)
      else if done == 1 then Counters(0, 0, now, 0, 0)
      else if now >= was then Counters(0, 0, 0, 0, now - was)
      else if done == 2 then Counters(0, 0, 0, was - now, 0)
      else Counters(0, 0, 0, 0, now - was)
  }

  function Advanced(t: Thread): Thread
    requires !t.Idle?
  {
    t.(done := t.done + 1)
  }

  /** The counters after the rest of one call, when no other thread gets in between. */
  function Alone(c: Counters, t: Thread): Counters
    requires !t.Idle? && t.done <= Steps(t)
    decreases Steps(t) - t.done
  {
    if t.done == Steps(t) then c else Alone(c.Plus(Delta(t)).Wrapped(), Advanced(t))
  }

  predicate Words(c: Counters) {
    c.Wrapped() == c
  }

  lemma WrapAgain(c: Counters, d: Counters)
    ensures c.Wrapped().Plus(d).Wrapped() == c.Plus(d).Wrapped() && Words(c.Plus(d).Wrapped())
  {
  }

  /** What the steps that the call has taken add up to. */
  function Sofar(t: Thread): Counters {
    match t
    case Idle => Zero
    case Allocating(size, done) =>
      Counters(if done < 1 then 0 else 1, 0, if done < 2 then 0 else size, 0, if done < 3 then 0 else size)
    case Freeing(size, done) =>
      Counters(0, if done < 1 then 0 else 1, 0, if done < 2 then 0 else size, if done < 3 then 0 else 0 - size)
    case Resizing(was, now, done) =>
      Counters(if done < 1 then 0 else 1, 0, if done < 2 then 0 else now,
               if now >= was || done < 3 then 0 else was - now,
               if done < Steps(t) then 0 else now - was)
  }

  function Finished(t: Thread): Thread
    requires !t.Idle?
  {
    t.(done := Steps(t))
  }

  lemma SofarAdvances(c: Counters, t: Thread)
    requires !t.Idle? && t.done < Steps(t)
    ensures c.Plus(Sofar(t)).Plus(Delta(t)) == c.Plus(Sofar(Advanced(t)))
    ensures Finished(Advanced(t)) == Finished(t)
  {
  }

  lemma AloneUnfolds(c: Counters, t: Thread)
    requires !t.Idle? && t.done < Steps(t)
    ensures Alone(c, t) == Alone(c.Plus(Delta(t)).Wrapped(), Advanced(t))
  {
  }

  /** Taken step by step with nothing in between, a call changes the counters as one sum. */
  lemma {:induction false} AloneIsSum(c: Counters, t: Thread)
    requires !t.Idle? && t.done <= Steps(t)
    ensures Alone(c.Plus(Sofar(t)).Wrapped(), t) == c.Plus(Sofar(Finished(t))).Wrapped()
    decreases Steps(t) - t.done
  {
    if t.done < Steps(t) {
      calc {
        Alone(c.Plus(Sofar(t)).Wrapped(), t);
        { AloneUnfolds(c.Plus(Sofar(t)).Wrapped(), t); }
        Alone(c.Plus(Sofar(t)).Wrapped().Plus(Delta(t)).Wrapped(), Advanced(t));
        { WrapAgain(c.Plus(Sofar(t)), Delta(t)); }
        Alone(c.Plus(Sofar(t)).Plus(Delta(t)).Wrapped(), Advanced(t));
        { SofarAdvances(c, t); }
        Alone(c.Plus(Sofar(Advanced(t))).Wrapped(), Advanced(t));
        { AloneIsSum(c, Advanced(t)); SofarAdvances(c, t); }
        c.Plus(Sofar(Finished(t))).Wrapped();
      }
    } else {
      assert t == Finished(t);
    }
  }

  /** The shared counters and the four entry points, each run by itself. */
  class Layer0Counters {
    var allocCalls: int
    var deallocCalls: int
    var bytesRequested: int
    var bytesReleased: int
    var bytesOutstanding: int

    constructor ()
      ensures Snapshot() == Zero
    {
      allocCalls, deallocCalls, bytesRequested, bytesReleased, bytesOutstanding := 0, 0, 0, 0, 0;
    }

    function Snapshot(): Counters
      reads this
    {
      Counters(allocCalls, deallocCalls, bytesRequested, bytesReleased, bytesOutstanding)
    }

    method Alloc(size: nat)
      requires Words(Snapshot())
      modifies this
      ensures Words(Snapshot()) && Snapshot() == old(Snapshot()).Plus(Sofar(Allocating(size, 3))).Wrapped()
      ensures allocCalls == (old(allocCalls) + 1) % WORD && deallocCalls == old(deallocCalls)
      ensures bytesRequested == (old(bytesRequested) + size) % WORD && bytesReleased == old(bytesReleased)
      ensures bytesOutstanding == (old(bytesOutstanding) + size) % WORD
    {
      allocCalls := (allocCalls + 1) % WORD;
      bytesRequested := (bytesRequested + size) % WORD;
      bytesOutstanding := (bytesOutstanding + size) % WORD;
    }

    method Dealloc(size: nat)
      requires Words(Snapshot())
      modifies this
      ensures Words(Snapshot()) && Snapshot() == old(Snapshot()).Plus(Sofar(Freeing(size, 3))).Wrapped()
      ensures allocCalls == old(allocCalls) && deallocCalls == (old(deallocCalls) + 1) % WORD
      ensures bytesRequested == old(bytesRequested) && bytesReleased == (old(bytesReleased) + size) % WORD
      ensures bytesOutstanding == (old(bytesOutstanding) - size) % WORD
    {
      deallocCalls := (deallocCalls + 1) % WORD;
      bytesReleased := (bytesReleased + size) % WORD;
      bytesOutstanding := (bytesOutstanding - size) % WORD;
    }

    method AllocZeroed(size: nat)
      requires Words(Snapshot())
      modifies this
      ensures Words(Snapshot()) && Snapshot() == old(Snapshot()).Plus(Sofar(Allocating(size, 3))).Wrapped()
      ensures allocCalls == (old(allocCalls) + 1) % WORD && deallocCalls == old(deallocCalls)
      ensures bytesRequested == (old(bytesRequested) + size) % WORD && bytesReleased == old(bytesReleased)
      ensures bytesOutstanding == (old(bytesOutstanding) + size) % WORD
    {
      allocCalls := (allocCalls + 1) % WORD;
      bytesRequested := (bytesRequested + size) % WORD;
      bytesOutstanding := (bytesOutstanding + size) % WORD;
    }

    method Realloc(oldSize: nat, newSize: nat)
      requires Words(Snapshot())
      modifies this
      ensures Words(Snapshot()) && Snapshot() == old(Snapshot()).Plus(Sofar(Finished(Resizing(oldSize, newSize, 0)))).Wrapped()
      ensures allocCalls == (old(allocCalls) + 1) % WORD && deallocCalls == old(deallocCalls)
      ensures bytesRequested == (old(bytesRequested) + newSize) % WORD && bytesReleased == (old(bytesReleased) + if newSize < oldSize then oldSize - newSize else 0) % WORD
      ensures bytesOutstanding == (old(bytesOutstanding) + newSize - oldSize) % WORD
    {
      allocCalls := (allocCalls + 1) % WORD;
      bytesRequested := (bytesRequested + newSize) % WORD;
      if newSize >= oldSize {
        bytesOutstanding := (bytesOutstanding + (newSize - oldSize)) % WORD;
      } else {
        bytesReleased := (bytesReleased + (oldSize - newSize)) % WORD;
        bytesOutstanding := (bytesOutstanding - (oldSize - newSize)) % WORD;
      }
    }
  }

  // ----- Any number of threads, interleaved

  /** `blocks` lists the sizes of the live blocks that no call is working on. The rest is history:
      `exact` is what the counters would be without wrapping, `reallocs` and `kept` count finished
      reallocations and the sum of min(old, new) over them, `failed` counts null results of alloc, and
      `drift` adds up what null results leave in the outstanding count. */
  datatype World = World(
    counters: Counters, threads: seq<Thread>, blocks: seq<nat>,
    exact: Counters, reallocs: nat, kept: nat, failed: nat, drift: int)

  datatype Event =
    | BeginAlloc(thread: nat, size: nat)
    | BeginDealloc(thread: nat, block: nat)
    | BeginRealloc(thread: nat, block: nat, newSize: nat)
    | Advance(thread: nat)
    | Return(thread: nat, ok: bool)

  function Start(threads: nat): World {
    World(Zero, seq(threads, _ => Idle), [], Zero, 0, 0, 0, 0)
  }

  predicate Legal(w: World, e: Event) {
    e.thread < |w.threads| &&
    var t := w.threads[e.thread];
    match e
    case BeginAlloc(_, size) => t.Idle? && size < WORD
    case BeginDealloc(_, block) => t.Idle? && block < |w.blocks|
    case BeginRealloc(_, block, newSize) => t.Idle? && block < |w.blocks| && newSize < WORD
    case Advance(_) => !t.Idle? && t.done < Steps(t)
    case Return(_, _) => Counted(t)
  }

  function Without(blocks: seq<nat>, i: nat): seq<nat>
    requires i < |blocks|
  {
    blocks[..i] + blocks[i + 1..]
  }

  function Step(w: World, e: Event): World
    requires Legal(w, e)
  {
    var t := w.threads[e.thread];
    match e
    case BeginAlloc(i, size) => w.(threads := w.threads[i := Allocating(size, 0)])
    case BeginDealloc(i, block) =>
      w.(threads := w.threads[i := Freeing(w.blocks[block], 0)], blocks := Without(w.blocks, block))
    case BeginRealloc(i, block, newSize) =>
      w.(threads := w.threads[i := Resizing(w.blocks[block], newSize, 0)], blocks := Without(w.blocks, block))
    case Advance(i) =>
      w.(threads := w.threads[i := Advanced(t)],
         counters := w.counters.Plus(Delta(t)).Wrapped(), exact := w.exact.Plus(Delta(t)))
    case Return(i, ok) =>
      var freed := w.(threads := w.threads[i := Idle]);
      match t
      case Idle => w
      case Freeing(_, _) => freed
      case Resizing(was, now, _) =>
        freed.(blocks := w.blocks + [if ok then now else was], reallocs := w.reallocs + 1,
               kept := w.kept + Min(was, now), drift := w.drift + if ok then 0 else now - was)
      case Allocating(size, _) =>
        if ok then freed.(blocks := w.blocks + [size])
        else freed.(failed := w.failed + 1, drift := w.drift + size)
  }

  predicate LegalRun(w: World, es: seq<Event>)
    decreases |es|
  {
    es == [] || (Legal(w, es[0]) && LegalRun(Step(w, es[0]), es[1..]))
  }

  function Run(w: World, es: seq<Event>): World
    requires LegalRun(w, es)
    decreases |es|
  {
    if es == [] then w else Run(Step(w, es[0]), es[1..])
  }

  // ----- What every reachable state satisfies

  function SumBy<T>(s: seq<T>, f: T -> int): int {
    if s == [] then 0 else f(s[0]) + SumBy(s[1..], f)
  }

  function Size(n: nat): int {
    n
  }

  /** What the call has already put into the outstanding count, or not yet taken out of it. */
  function Held(t: Thread): int {
    match t
    case Idle => 0
    case Allocating(size, done) => if done < 3 then 0 else size
    case Freeing(size, done) => if done < 3 then size else 0
    case Resizing(was, now, done) => if done < Steps(t) then was else now
  }

  /** What the call so far adds to requested - released - outstanding. */
  function Owed(t: Thread): int {
    match t
    case Idle => 0
    case Allocating(size, done) => if done == 2 then size else 0
    case Freeing(size, done) => if done == 2 then 0 - size else 0
    case Resizing(was, now, done) =>
      if done < 2 then 0
      else if done == 2 then now
      else if now >= was then was
      else if done == 3 then now - (was - now)
      else now
  }

  /** What the call so far adds to allocation calls - deallocation calls - live blocks. */
  function Called(t: Thread): int {
    match t
    case Idle => 0
    case Allocating(_, done) => if done == 0 then 0 else 1
    case Freeing(_, done) => if done == 0 then 1 else 0
    case Resizing(_, _, done) => if done == 0 then 1 else 2
  }

  predicate Conserved(w: World) {
    var x := w.exact;
    w.counters == x.Wrapped() &&
    (forall i :: 0 <= i < |w.threads| ==> Sound(w.threads[i])) &&
    x.outstanding == SumBy(w.blocks, Size) + SumBy(w.threads, Held) + w.drift &&
    x.requested == x.released + x.outstanding + w.kept + SumBy(w.threads, Owed) &&
    x.allocCalls == x.deallocCalls + |w.blocks| + w.reallocs + w.failed + SumBy(w.threads, Called)
  }

  lemma {:induction false} SumUpdate<T>(s: seq<T>, i: nat, x: T, f: T -> int)
    requires i < |s|
    ensures SumBy(s[i := x], f) == SumBy(s, f) - f(s[i]) + f(x)
  {
    if i > 0 {
      SumUpdate(s[1..], i - 1, x, f);
      assert s[i := x][1..] == s[1..][i - 1 := x];
    } else {
      assert s[i := x][1..] == s[1..];
    }
  }

  lemma {:induction false} SumConcat<T>(a: seq<T>, b: seq<T>, f: T -> int)
    ensures SumBy(a + b, f) == SumBy(a, f) + SumBy(b, f)
  {
    if a == [] {
      assert a + b == b;
    } else {
      SumConcat(a[1..], b, f);
      assert (a + b)[1..] == a[1..] + b;
    }
  }

  lemma SumWithout(blocks: seq<nat>, i: nat)
    requires i < |blocks|
    ensures SumBy(Without(blocks, i), Size) == SumBy(blocks, Size) - blocks[i]
    ensures |Without(blocks, i)| == |blocks| - 1
  {
    assert blocks == blocks[..i] + ([blocks[i]] + blocks[i + 1..]);
    SumConcat(blocks[..i], [blocks[i]] + blocks[i + 1..], Size);
    SumConcat([blocks[i]], blocks[i + 1..], Size);
    SumConcat(blocks[..i], blocks[i + 1..], Size);
  }

  lemma ThreadChanges(w: World, i: nat, t: Thread)
    requires i < |w.threads|
    ensures var was := w.threads[i]; var threads := w.threads[i := t];
      && SumBy(threads, Held) == SumBy(w.threads, Held) - Held(was) + Held(t)
      && SumBy(threads, Owed) == SumBy(w.threads, Owed) - Owed(was) + Owed(t)
      && SumBy(threads, Called) == SumBy(w.threads, Called) - Called(was) + Called(t)
  {
    SumUpdate(w.threads, i, t, Held);
    SumUpdate(w.threads, i, t, Owed);
    SumUpdate(w.threads, i, t, Called);
  }

  /** One counter step moves exactly what the call's own terms say. */
  lemma DeltaBalances(t: Thread)
    requires !t.Idle? && t.done < Steps(t)
    ensures var d, u := Delta(t), Advanced(t);
      && Held(u) - Held(t) == d.outstanding
      && Owed(u) - Owed(t) == d.requested - d.released - d.outstanding
      && Called(u) - Called(t) == d.allocCalls - d.deallocCalls
  {
  }

  lemma AdvanceConserves(w: World, i: nat)
    requires Conserved(w) && Legal(w, Advance(i))
    ensures Conserved(Step(w, Advance(i)))
  {
    var t := w.threads[i];
    DeltaBalances(t);
    ThreadChanges(w, i, Advanced(t));
    WrapAgain(w.exact, Delta(t));
  }

  lemma BeginConserves(w: World, e: Event)
    requires Conserved(w) && Legal(w, e) && !e.Advance? && !e.Return?
    ensures Conserved(Step(w, e))
  {
    ThreadChanges(w, e.thread, Step(w, e).threads[e.thread]);
    if !e.BeginAlloc? {
      SumWithout(w.blocks, e.block);
    }
  }

  lemma BlockAdded(w: World, v: World, b: nat)
    requires v.blocks == w.blocks + [b]
    ensures SumBy(v.blocks, Size) == SumBy(w.blocks, Size) + b && |v.blocks| == |w.blocks| + 1
  {
    SumConcat(w.blocks, [b], Size);
    assert SumBy([b], Size) == b;
  }

  lemma ReturnConserves(w: World, i: nat, ok: bool)
    requires Conserved(w) && Legal(w, Return(i, ok))
    ensures Conserved(Step(w, Return(i, ok)))
  {
    var v := Step(w, Return(i, ok));
    ThreadChanges(w, i, Idle);
    match w.threads[i]
    case Allocating(size, _) =>
      if ok {
        BlockAdded(w, v, size);
      }
    case Resizing(was, now, _) => BlockAdded(w, v, if ok then now else was);
    case _ =>
  }

  lemma StepConserves(w: World, e: Event)
    requires Conserved(w) && Legal(w, e)
    ensures Conserved(Step(w, e))
  {
    match e
    case Advance(i) => AdvanceConserves(w, i);
    case Return(i, ok) => ReturnConserves(w, i, ok);
    case _ => BeginConserves(w, e);
  }

  lemma {:induction false} RunConserves(w: World, es: seq<Event>)
    requires Conserved(w) && LegalRun(w, es)
    ensures Conserved(Run(w, es)) && |Run(w, es).threads| == |w.threads|
    decreases |es|
  {
    if es != [] {
      StepConserves(w, es[0]);
      RunConserves(Step(w, es[0]), es[1..]);
    }
  }

  /** No thread is inside the allocator. */
  predicate AtRest(w: World) {
    forall i :: 0 <= i < |w.threads| ==> w.threads[i].Idle?
  }

  lemma {:induction false} IdleSums(threads: seq<Thread>, f: Thread -> int)
    requires f(Idle) == 0 && forall i :: 0 <= i < |threads| ==> threads[i].Idle?
    ensures SumBy(threads, f) == 0
  {
    if threads != [] {
      IdleSums(threads[1..], f);
    }
  }

  lemma StartConserves(n: nat)
    ensures Conserved(Start(n))
  {
    var w := Start(n);
    IdleSums(w.threads, Held);
    IdleSums(w.threads, Owed);
    IdleSums(w.threads, Called);
  }

  predicate AllSucceed(es: seq<Event>) {
    forall i :: 0 <= i < |es| && es[i].Return? ==> es[i].ok
  }

  /** No reallocation to a smaller size comes back null. */
  predicate ShrinksSucceed(w: World, es: seq<Event>)
    requires LegalRun(w, es)
    decreases |es|
  {
    es == [] ||
    (var t := w.threads[es[0].thread];
     (es[0].Return? && !es[0].ok && t.Resizing? ==> t.now >= t.was) && ShrinksSucceed(Step(w, es[0]), es[1..]))
  }

  lemma {:induction false} DriftStays(w: World, es: seq<Event>)
    requires LegalRun(w, es)
    ensures AllSucceed(es) ==> Run(w, es).drift == w.drift && Run(w, es).failed == w.failed
    ensures ShrinksSucceed(w, es) ==> Run(w, es).drift >= w.drift
    decreases |es|
  {
    if es != [] {
      DriftStays(Step(w, es[0]), es[1..]);
    }
  }

  lemma {:induction false} SumNonNegative<T>(s: seq<T>, f: T -> int)
    requires forall i :: 0 <= i < |s| ==> f(s[i]) >= 0
    ensures SumBy(s, f) >= 0
  {
    if s != [] {
      SumNonNegative(s[1..], f);
    }
  }

  // ----- Main results, for any number of threads and any interleaving

  lemma WrapTwo(a: int, b: int, c: int)
    ensures (a + b + c) % WORD == (a % WORD + b % WORD + c) % WORD
  {
  }

  lemma WrapOne(a: int, b: int)
    ensures (a + b) % WORD == (a % WORD + b) % WORD
  {
  }

  lemma RestSums(w: World)
    requires AtRest(w)
    ensures SumBy(w.threads, Held) == SumBy(w.threads, Owed) == SumBy(w.threads, Called) == 0
  {
    IdleSums(w.threads, Held);
    IdleSums(w.threads, Owed);
    IdleSums(w.threads, Called);
  }

  /** The laws of one state, with nobody inside the allocator. */
  lemma ConservedAtRest(w: World)
    requires Conserved(w) && AtRest(w)
    ensures var x := w.exact;
      && w.counters == x.Wrapped()
      && x.outstanding == SumBy(w.blocks, Size) + w.drift
      && x.requested == x.released + x.outstanding + w.kept
      && x.allocCalls == x.deallocCalls + (|w.blocks| + w.reallocs + w.failed)
  {
    RestSums(w);
  }

  /** The conservation laws that the shared counters satisfy between calls, modulo the word size. */
  predicate RestLaws(w: World) {
    var c := w.counters;
    && c.outstanding == (SumBy(w.blocks, Size) + w.drift) % WORD
    && c.requested == (c.released + c.outstanding + w.kept) % WORD
    && c.allocCalls == (c.deallocCalls + (|w.blocks| + w.reallocs + w.failed)) % WORD
  }

  lemma WrappedAtRest(w: World)
    requires Conserved(w) && AtRest(w)
    ensures RestLaws(w)
  {
    ConservedAtRest(w);
    WrapTwo(w.exact.released, w.exact.outstanding, w.kept);
    WrapOne(w.exact.deallocCalls, |w.blocks| + w.reallocs + w.failed);
  }

  /** Between calls the conservation laws hold. The drift and the failed count are what null results of
      the system allocator leave behind. */
  lemma CountersAtRest(n: nat, es: seq<Event>)
    requires LegalRun(Start(n), es) && AtRest(Run(Start(n), es))
    ensures var w := Run(Start(n), es);
      RestLaws(w) && (AllSucceed(es) ==> w.drift == 0 && w.failed == 0)
  {
    Reachable(n, es);
    DriftStays(Start(n), es);
    WrappedAtRest(Run(Start(n), es));
  }

  lemma Reachable(n: nat, es: seq<Event>)
    requires LegalRun(Start(n), es)
    ensures Conserved(Run(Start(n), es)) && |Run(Start(n), es).threads| == n
  {
    StartConserves(n);
    RunConserves(Start(n), es);
  }

  // ----- Each counter, from the calls that were made

  /** What the call that begins here owes to each counter. */
  function Owes(w: World, e: Event): Counters
    requires Legal(w, e)
  {
    match e
    case BeginAlloc(_, size) => Counters(1, 0, size, 0, size)
    case BeginDealloc(_, block) =>
      var size: int := w.blocks[block];
      Counters(0, 1, 0, size, -size)
    case BeginRealloc(_, block, newSize) =>
      var was := w.blocks[block];
      Counters(1, 0, newSize, if newSize < was then was - newSize else 0, newSize - was)
    case _ => Zero
  }

  function AllOwed(w: World, es: seq<Event>): Counters
    requires LegalRun(w, es)
    decreases |es|
  {
    if es == [] then Zero else Owes(w, es[0]).Plus(AllOwed(Step(w, es[0]), es[1..]))
  }

  // What a call in progress has still to put on each counter.

  function LeftAllocCalls(t: Thread): int {
    match t
    case Allocating(_, done) => if done < 1 then 1 else 0
    case Resizing(_, _, done) => if done < 1 then 1 else 0
    case _ => 0
  }

  function LeftDeallocCalls(t: Thread): int {
    if t.Freeing? && t.done < 1 then 1 else 0
  }

  function LeftRequested(t: Thread): int {
    match t
    case Allocating(size, done) => if done < 2 then size else 0
    case Resizing(_, now, done) => if done < 2 then now else 0
    case _ => 0
  }

  function LeftReleased(t: Thread): int {
    match t
    case Freeing(size, done) => if done < 2 then size else 0
    case Resizing(was, now, done) => if now < was && done < 3 then was - now else 0
    case _ => 0
  }

  function LeftOutstanding(t: Thread): int {
    match t
    case Idle => 0
    case Allocating(size, done) => if done < 3 then size else 0
    case Freeing(size, done) => if done < 3 then 0 - size else 0
    case Resizing(was, now, done) => if done < (if now >= was then 3 else 4) then now - was else 0
  }

  /** The counters together with what is left to do. */
  predicate Ledger(x: Counters, threads: seq<Thread>, total: Counters) {
    x.allocCalls + SumBy(threads, LeftAllocCalls) == total.allocCalls &&
    x.deallocCalls + SumBy(threads, LeftDeallocCalls) == total.deallocCalls &&
    x.requested + SumBy(threads, LeftRequested) == total.requested &&
    x.released + SumBy(threads, LeftReleased) == total.released &&
    x.outstanding + SumBy(threads, LeftOutstanding) == total.outstanding
  }

  /** Counters that move by d while thread i becomes t, where this adds up to `more`. */
  lemma LedgerChanges(x: Counters, threads: seq<Thread>, total: Counters, i: nat, t: Thread, d: Counters, more: Counters)
    requires Ledger(x, threads, total) && i < |threads|
    requires d.allocCalls + LeftAllocCalls(t) - LeftAllocCalls(threads[i]) == more.allocCalls
    requires d.deallocCalls + LeftDeallocCalls(t) - LeftDeallocCalls(threads[i]) == more.deallocCalls
    requires d.requested + LeftRequested(t) - LeftRequested(threads[i]) == more.requested
    requires d.released + LeftReleased(t) - LeftReleased(threads[i]) == more.released
    requires d.outstanding + LeftOutstanding(t) - LeftOutstanding(threads[i]) == more.outstanding
    ensures Ledger(x.Plus(d), threads[i := t], total.Plus(more))
  {
    SumUpdate(threads, i, t, LeftAllocCalls);
    SumUpdate(threads, i, t, LeftDeallocCalls);
    SumUpdate(threads, i, t, LeftRequested);
    SumUpdate(threads, i, t, LeftReleased);
    SumUpdate(threads, i, t, LeftOutstanding);
  }

  lemma PlusZero(c: Counters)
    ensures c.Plus(Zero) == c
  {
  }

  lemma StepLedger(w: World, e: Event, total: Counters)
    requires Legal(w, e) && Ledger(w.exact, w.threads, total)
    ensures Ledger(Step(w, e).exact, Step(w, e).threads, total.Plus(Owes(w, e)))
  {
    var t, i := w.threads[e.thread], e.thread;
    PlusZero(w.exact);
    match e
    case Advance(_) => LedgerChanges(w.exact, w.threads, total, i, Advanced(t), Delta(t), Zero);
    case _ => LedgerChanges(w.exact, w.threads, total, i, Step(w, e).threads[i], Zero, Owes(w, e));
  }

  lemma PlusTwice(a: Counters, b: Counters, c: Counters)
    ensures a.Plus(b).Plus(c) == a.Plus(b.Plus(c))
  {
  }

  lemma {:induction false} RunLedger(w: World, es: seq<Event>, total: Counters)
    requires LegalRun(w, es) && Ledger(w.exact, w.threads, total)
    ensures Ledger(Run(w, es).exact, Run(w, es).threads, total.Plus(AllOwed(w, es)))
    decreases |es|
  {
    if es == [] {
      PlusZero(total);
    } else {
      StepLedger(w, es[0], total);
      RunLedger(Step(w, es[0]), es[1..], total.Plus(Owes(w, es[0])));
      PlusTwice(total, Owes(w, es[0]), AllOwed(Step(w, es[0]), es[1..]));
    }
  }

  lemma LedgerAtRest(x: Counters, threads: seq<Thread>, total: Counters)
    requires forall i :: 0 <= i < |threads| ==> threads[i].Idle?
    ensures Ledger(x, threads, total) <==> x == total
  {
    IdleSums(threads, LeftAllocCalls);
    IdleSums(threads, LeftDeallocCalls);
    IdleSums(threads, LeftRequested);
    IdleSums(threads, LeftReleased);
    IdleSums(threads, LeftOutstanding);
  }

  lemma ZeroPlus(c: Counters)
    ensures Zero.Plus(c) == c
  {
  }

  lemma StartLedger(n: nat)
    ensures Ledger(Start(n).exact, Start(n).threads, Zero)
  {
    LedgerAtRest(Zero, Start(n).threads, Zero);
  }

  lemma RestLedger(w: World, total: Counters)
    requires AtRest(w) && Ledger(w.exact, w.threads, total)
    ensures w.exact == total
  {
    LedgerAtRest(w.exact, w.threads, total);
  }

  lemma ExactIsOwed(w: World, es: seq<Event>)
    requires LegalRun(w, es) && Ledger(w.exact, w.threads, Zero) && AtRest(Run(w, es))
    ensures Run(w, es).exact == AllOwed(w, es)
  {
    RunLedger(w, es, Zero);
    RestLedger(Run(w, es), Zero.Plus(AllOwed(w, es)));
    ZeroPlus(AllOwed(w, es));
  }

  lemma WrapsExact(w: World, owed: Counters)
    requires Conserved(w) && w.exact == owed
    ensures w.counters == owed.Wrapped()
  {
  }

  /** Between calls every counter is, modulo the word size, the sum over the calls that were made: one
      call each; all allocated and all new sizes requested; all freed sizes and all shrink amounts
      released; and the difference that each call makes to the size of its block outstanding. */
  lemma CountersAreSums(n: nat, es: seq<Event>)
    requires LegalRun(Start(n), es) && AtRest(Run(Start(n), es))
    ensures Run(Start(n), es).counters == AllOwed(Start(n), es).Wrapped()
  {
    Reachable(n, es);
    StartLedger(n);
    ExactIsOwed(Start(n), es);
    WrapsExact(Run(Start(n), es), AllOwed(Start(n), es));
  }

  lemma Covers(w: World)
    requires Conserved(w) && w.drift >= 0
    ensures w.exact.outstanding >= SumBy(w.blocks, Size) + SumBy(w.threads, Held) >= 0
    ensures w.counters.outstanding == w.exact.outstanding % WORD
  {
    SumNonNegative(w.blocks, Size);
    SumNonNegative(w.threads, Held);
  }

  /** In every state of every run in which no shrinking reallocation fails, threads inside the
      allocator or not, the outstanding count has not gone below zero before wrapping: it covers
      every live block and every call that has not yet subtracted. */
  lemma OutstandingNeverUnderflows(n: nat, es: seq<Event>)
    requires LegalRun(Start(n), es) && ShrinksSucceed(Start(n), es)
    ensures var w := Run(Start(n), es);
      w.exact.outstanding >= SumBy(w.blocks, Size) + SumBy(w.threads, Held) >= 0 &&
      w.counters.outstanding == w.exact.outstanding % WORD
  {
    Reachable(n, es);
    DriftStays(Start(n), es);
    Covers(Run(Start(n), es));
  }

  lemma BelowZero(w: World)
    requires Conserved(w)
    ensures w.exact.outstanding < 0 <==> SumBy(w.blocks, Size) + SumBy(w.threads, Held) + w.drift < 0
  {
  }

  /** In every reachable state the outstanding count is below zero, before wrapping, exactly when the
      drift outweighs the live blocks and the calls in progress. */
  lemma UnderflowExactly(n: nat, es: seq<Event>)
    requires LegalRun(Start(n), es)
    ensures var w := Run(Start(n), es);
      w.exact.outstanding < 0 <==> SumBy(w.blocks, Size) + SumBy(w.threads, Held) + w.drift < 0
  {
    Reachable(n, es);
    BelowZero(Run(Start(n), es));
  }

  lemma {:induction false} RunConcat(w: World, a: seq<Event>, b: seq<Event>)
    requires LegalRun(w, a) && LegalRun(Run(w, a), b)
    ensures LegalRun(w, a + b) && Run(w, a + b) == Run(Run(w, a), b)
    decreases |a|
  {
    if a == [] {
      assert a + b == b;
    } else {
      RunConcat(Step(w, a[0]), a[1..], b);
      assert (a + b)[1..] == a[1..] + b;
    }
  }

  function Advances(i: nat, n: nat): seq<Event> {
    if n == 0 then [] else [Advance(i)] + Advances(i, n - 1)
  }

  /** With no other thread in between, the steps of a call do to the shared counters what the call
      does by itself, and nothing else. */
  lemma {:induction false} Uninterrupted(w: World, i: nat)
    requires i < |w.threads| && !w.threads[i].Idle? && Sound(w.threads[i])
    ensures var t := w.threads[i]; var es := Advances(i, Steps(t) - t.done);
      LegalRun(w, es) &&
      Run(w, es) == w.(threads := w.threads[i := Finished(t)], counters := Alone(w.counters, t), exact := Run(w, es).exact)
    decreases Steps(w.threads[i]) - w.threads[i].done
  {
    var t := w.threads[i];
    if t.done < Steps(t) {
      Uninterrupted(Step(w, Advance(i)), i);
      assert Advances(i, Steps(t) - t.done)[1..] == Advances(i, Steps(t) - t.done - 1);
      assert w.threads[i := Advanced(t)][i := Finished(t)] == w.threads[i := Finished(t)];
    } else {
      assert w.threads[i := t] == w.threads;
    }
  }

  /** The blocks and the drift after one whole call. */
  function AfterCall(w: World, begin: Event, ok: bool): (seq<nat>, int)
    requires Legal(w, begin) && !begin.Advance? && !begin.Return?
  {
    match begin
    case BeginAlloc(_, size) => if ok then (w.blocks + [size], w.drift) else (w.blocks, w.drift + size)
    case BeginDealloc(_, block) => (Without(w.blocks, block), w.drift)
    case BeginRealloc(_, block, newSize) =>
      var was := w.blocks[block];
      (Without(w.blocks, block) + [if ok then newSize else was], w.drift + if ok then 0 else newSize - was)
  }

  lemma RunEnds(w: World, begin: Event, steps: seq<Event>, end: Event)
    requires Legal(w, begin) && LegalRun(Step(w, begin), steps) && Legal(Run(Step(w, begin), steps), end)
    ensures var es := [begin] + (steps + [end]);
      LegalRun(w, es) && Run(w, es) == Step(Run(Step(w, begin), steps), end)
  {
    RunConcat(Step(w, begin), steps, [end]);
    assert ([begin] + (steps + [end]))[1..] == steps + [end];
    assert [end][1..] == [];
  }

  lemma {:induction false} AdvancesDoNotReturn(i: nat, n: nat)
    ensures forall k :: 0 <= k < |Advances(i, n)| ==> Advances(i, n)[k] == Advance(i)
  {
    if n > 0 {
      AdvancesDoNotReturn(i, n - 1);
    }
  }

  lemma CallSucceeds(begin: Event, i: nat, n: nat)
    requires !begin.Return?
    ensures AllSucceed([begin] + (Advances(i, n) + [Return(i, true)]))
  {
    AdvancesDoNotReturn(i, n);
  }

  /** One call, from beginning to end with nothing in between. */
  function CallOf(w: World, begin: Event, ok: bool): seq<Event>
    requires Legal(w, begin) && !begin.Advance? && !begin.Return?
  {
    [begin] + (Advances(begin.thread, Steps(Step(w, begin).threads[begin.thread])) + [Return(begin.thread, ok)])
  }

  /** What is left of a call once all its counter updates are made. */
  lemma CallReturns(w: World, begin: Event, u: World, ok: bool)
    requires Legal(w, begin) && !begin.Advance? && !begin.Return?
    requires var v := Step(w, begin); var i := begin.thread;
      u == v.(threads := v.threads[i := Finished(v.threads[i])], counters := u.counters, exact := u.exact)
    ensures var end := Return(begin.thread, ok);
      Legal(u, end) &&
      (Step(u, end).blocks, Step(u, end).drift) == AfterCall(w, begin, ok) && Step(u, end).threads == w.threads
  {
    assert w.threads[begin.thread := u.threads[begin.thread]][begin.thread := Idle] == w.threads;
  }

  lemma CallRuns(w: World, begin: Event, ok: bool)
    requires Legal(w, begin) && !begin.Advance? && !begin.Return?
    ensures var es := CallOf(w, begin, ok);
      LegalRun(w, es) &&
      (Run(w, es).blocks, Run(w, es).drift) == AfterCall(w, begin, ok) && Run(w, es).threads == w.threads
  {
    var v, i := Step(w, begin), begin.thread;
    var steps := Advances(i, Steps(v.threads[i]));
    Uninterrupted(v, i);
    CallReturns(w, begin, Run(v, steps), ok);
    RunEnds(w, begin, steps, Return(i, ok));
  }

  lemma WholeCall(w: World, begin: Event, ok: bool) returns (es: seq<Event>)
    requires Legal(w, begin) && !begin.Advance? && !begin.Return?
    ensures LegalRun(w, es) && (ok ==> AllSucceed(es))
    ensures (Run(w, es).blocks, Run(w, es).drift) == AfterCall(w, begin, ok) && Run(w, es).threads == w.threads
  {
    es := CallOf(w, begin, ok);
    CallRuns(w, begin, ok);
    if ok {
      CallSucceeds(begin, begin.thread, Steps(Step(w, begin).threads[begin.thread]));
    }
  }

  /** It happens: 8 bytes, a shrink to 4 that comes back null, and the 8 bytes freed. */
  lemma FailedShrinkUnderflows() returns (es: seq<Event>)
    ensures LegalRun(Start(1), es) && AtRest(Run(Start(1), es)) && Run(Start(1), es).exact.outstanding == -4
  {
    var w := Start(1);
    var allocate := WholeCall(w, BeginAlloc(0, 8), true);
    var w1 := Run(w, allocate);
    var shrink := WholeCall(w1, BeginRealloc(0, 0, 4), false);
    var w2 := Run(w1, shrink);
    var free := WholeCall(w2, BeginDealloc(0, 0), true);
    var w3 := Run(w2, free);
    RunConcat(w1, shrink, free);
    RunConcat(w, allocate, shrink + free);
    es := allocate + (shrink + free);
    StartConserves(1);
    RunConserves(w, es);
    Drained(Run(w, es));
  }

  // ----- From negative drift to an underflow

  /** Thread i finishes its call, if it is in one, and the system allocator obliges. */
  lemma FinishCall(w: World, i: nat) returns (es: seq<Event>)
    requires i < |w.threads| && Sound(w.threads[i])
    ensures LegalRun(w, es) && AllSucceed(es)
    ensures Run(w, es).threads == w.threads[i := Idle]
  {
    var t := w.threads[i];
    if t.Idle? {
      assert w.threads[i := Idle] == w.threads;
      return [];
    }
    var steps := Advances(i, Steps(t) - t.done);
    Uninterrupted(w, i);
    AdvancesDoNotReturn(i, Steps(t) - t.done);
    var u := Run(w, steps);
    assert u.threads[i := Idle] == w.threads[i := Idle];
    assert [Return(i, true)][1..] == [];
    RunConcat(w, steps, [Return(i, true)]);
    es := steps + [Return(i, true)];
  }

  lemma {:induction false} FinishAll(w: World, i: nat) returns (es: seq<Event>)
    requires i <= |w.threads| && Conserved(w) && forall k :: 0 <= k < i ==> w.threads[k].Idle?
    ensures LegalRun(w, es) && AllSucceed(es) && AtRest(Run(w, es)) && |Run(w, es).threads| == |w.threads|
    decreases |w.threads| - i
  {
    if i == |w.threads| {
      return [];
    }
    var first := FinishCall(w, i);
    RunConserves(w, first);
    var rest := FinishAll(Run(w, first), i + 1);
    RunConcat(w, first, rest);
    es := first + rest;
  }

  lemma {:induction false} FreeAll(w: World) returns (es: seq<Event>)
    requires AtRest(w) && |w.threads| > 0
    ensures LegalRun(w, es) && AllSucceed(es) && AtRest(Run(w, es)) && Run(w, es).blocks == []
    decreases |w.blocks|
  {
    if w.blocks == [] {
      return [];
    }
    var first := WholeCall(w, BeginDealloc(0, 0), true);
    var rest := FreeAll(Run(w, first));
    RunConcat(w, first, rest);
    es := first + rest;
  }

  lemma Drained(w: World)
    requires Conserved(w) && AtRest(w) && w.blocks == []
    ensures w.exact.outstanding == w.drift
  {
    RestSums(w);
  }

  /** Finishing and freeing everything brings the drift to light. */
  lemma Drain(w: World) returns (es: seq<Event>)
    requires Conserved(w) && |w.threads| > 0
    ensures LegalRun(w, es) && AllSucceed(es) && Run(w, es).exact.outstanding == w.drift
  {
    var first := FinishAll(w, 0);
    var rest := FreeAll(Run(w, first));
    RunConcat(w, first, rest);
    es := first + rest;
    RunConserves(w, es);
    DriftStays(w, es);
    Drained(Run(w, es));
  }

  lemma NoThreadsNoDrift(es: seq<Event>)
    requires LegalRun(Start(0), es)
    ensures Run(Start(0), es).drift == 0
  {
  }

  /** A reachable state is on the way to an underflow, with the system allocator failing no more,
      exactly when its drift is negative: failed shrinks have outweighed the other null results. */
  lemma UnderflowIsDrift(n: nat, es: seq<Event>)
    requires LegalRun(Start(n), es)
    ensures var w := Run(Start(n), es);
      w.drift < 0 <==>
      exists more :: AllSucceed(more) && LegalRun(w, more) && Run(w, more).exact.outstanding < 0
  {
    Reachable(n, es);
    var w := Run(Start(n), es);
    if w.drift < 0 {
      if n == 0 {
        NoThreadsNoDrift(es);
      }
      var more := Drain(w);
    } else {
      forall more | AllSucceed(more) && LegalRun(w, more)
        ensures Run(w, more).exact.outstanding >= 0
      {
        DriftStays(w, more);
        RunConserves(w, more);
        Covers(Run(w, more));
      }
    }
  }
}
