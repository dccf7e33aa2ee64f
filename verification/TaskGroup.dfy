/** Task groups: the status counts of a group's agents, the group status derived from them and the
    completion summary. A status that is a key of the counting object, or a name that the object
    inherits, is counted like a status; the exact effect of those names is part of the model. */
module TaskGroup {
  import opened Strings

  datatype Counts = Counts(pending: nat, running: nat, done: nat, failed: nat, timeout: nat, total: nat)

  const NoAgents := Counts(0, 0, 0, 0, 0, 0)

  /** What a status means to the counting loop. "total" is a key of the counting object itself;
      "constructor" and "__proto__" are the inherited names that are in lower case. */
  datatype Word = IsPending | IsRunning | IsDone | IsFailed | IsTimeout | IsTotal | IsInherited | IsUnknown

  function WordOf(status: string): Word {
    if status == "pending" then IsPending
    else if status == "running" then IsRunning
    else if status == "done" then IsDone
    else if status == "failed" then IsFailed
    else if status == "timeout" then IsTimeout
    else if status == "total" then IsTotal
    else if status == "constructor" || status == "__proto__" then IsInherited
    else IsUnknown
  }

  /** The status an agent counts under: an absent one counts as pending. */
  function StatusOf(raw: string): Word {
    WordOf(Lower(if raw == "" then "pending" else raw))
  }

  /** One turn of the counting loop: "total" is counted twice, and of an inherited name only the total
      hears. */
  function Tally(c: Counts, status: Word): Counts {
    match status
    case IsPending => c.(pending := c.pending + 1, total := c.total + 1)
    case IsRunning => c.(running := c.running + 1, total := c.total + 1)
    case IsDone => c.(done := c.done + 1, total := c.total + 1)
    case IsFailed => c.(failed := c.failed + 1, total := c.total + 1)
    case IsTimeout => c.(timeout := c.timeout + 1, total := c.total + 1)
    case IsTotal => c.(total := c.total + 2)
    case IsInherited => c.(total := c.total + 1)
    case IsUnknown => c
  }

  function Statuses(agents: seq<string>): (r: seq<Word>)
    ensures |r| == |agents| && forall i :: 0 <= i < |agents| ==> r[i] == StatusOf(agents[i])
  {
    if agents == [] then [] else Statuses(agents[..|agents| - 1]) + [StatusOf(agents[|agents| - 1])]
  }

  /** How the counts follow from how often each status occurs, in any order. */
  function CountsOf(m: multiset<Word>): Counts {
    Counts(m[IsPending], m[IsRunning], m[IsDone], m[IsFailed], m[IsTimeout],
           m[IsPending] + m[IsRunning] + m[IsDone] + m[IsFailed] + m[IsTimeout] + Odd(m))
  }

  /** What the names that are not statuses add to the total. */
  function Odd(m: multiset<Word>): nat {
    2 * m[IsTotal] + m[IsInherited]
  }

  function Census(agents: seq<string>): multiset<Word> {
    multiset(Statuses(agents))
  }

  lemma TallyAddsOne(m: multiset<Word>, status: Word)
    ensures Tally(CountsOf(m), status) == CountsOf(m + multiset{status})
  {
  }

  lemma CensusOfMore(agents: seq<string>, i: nat)
    requires i < |agents|
    ensures Census(agents[..i + 1]) == Census(agents[..i]) + multiset{StatusOf(agents[i])}
  {
    assert agents[..i + 1][..i] == agents[..i];
  }

  method StatusCounts(agents: seq<string>) returns (c: Counts)
    ensures c == CountsOf(Census(agents))
  {
    c := NoAgents;
    for i := 0 to |agents|
      invariant c == CountsOf(Census(agents[..i]))
    {
      CensusOfMore(agents, i);
      TallyAddsOne(Census(agents[..i]), StatusOf(agents[i]));
      c := Tally(c, StatusOf(agents[i]));
    }
    assert agents[..|agents|] == agents;
  }

  datatype GroupStatus = Pending | Running | Failed | TimedOut | Done | Completed | Fallback

  /** `deriveGroupStatus`; `Fallback` is its last line, which also says running. */
  function Derive(c: Counts): GroupStatus {
    if c.total == 0 || c.pending == c.total then Pending
    else if c.running > 0 || c.pending > 0 then Running
    else if c.failed > 0 && c.done == 0 && c.timeout == 0 then Failed
    else if c.timeout > 0 && c.done == 0 && c.failed == 0 then TimedOut
    else if c.done == c.total then Done
    else if c.done + c.failed + c.timeout == c.total then Completed
    else Fallback
  }

  predicate Terminal(s: GroupStatus) {
    s.Done? || s.Failed? || s.TimedOut? || s.Completed?
  }

  /** `complete` in the completion summary. */
  predicate Complete(c: Counts) {
    c.total > 0 && c.done + c.failed + c.timeout == c.total
  }

  lemma CensusOfConcat(a: seq<string>, b: seq<string>)
    ensures Census(a + b) == Census(a) + Census(b)
  {
    assert Statuses(a + b) == Statuses(a) + Statuses(b);
  }

  function Without(agents: seq<string>, i: nat): seq<string>
    requires i < |agents|
  {
    agents[..i] + agents[i + 1..]
  }

  lemma AgentsWithout(agents: seq<string>, i: nat)
    requires i < |agents|
    ensures multiset(agents) == multiset(Without(agents, i)) + multiset{agents[i]}
  {
    assert agents == agents[..i] + ([agents[i]] + agents[i + 1..]);
  }

  lemma CensusWithout(agents: seq<string>, i: nat)
    requires i < |agents|
    ensures Census(agents) == Census(Without(agents, i)) + multiset{StatusOf(agents[i])}
  {
    assert agents == agents[..i] + ([agents[i]] + agents[i + 1..]);
    CensusOfConcat(agents[..i], [agents[i]] + agents[i + 1..]);
    CensusOfConcat([agents[i]], agents[i + 1..]);
    CensusOfConcat(agents[..i], agents[i + 1..]);
    assert Statuses([agents[i]]) == [StatusOf(agents[i])];
  }

  /** The same agents in another order have the same census. */
  lemma {:induction false} CensusIgnoresOrder(a: seq<string>, b: seq<string>)
    requires multiset(a) == multiset(b)
    ensures Census(a) == Census(b)
    decreases |a|
  {
    if a == [] {
      assert |b| == |multiset(b)| == 0;
    } else {
      assert a[0] in multiset(b);
      var i :| 0 <= i < |b| && b[i] == a[0];
      AgentsWithout(a, 0);
      AgentsWithout(b, i);
      assert multiset(Without(a, 0)) == multiset(a) - multiset{a[0]};
      CensusIgnoresOrder(Without(a, 0), Without(b, i));
      CensusWithout(a, 0);
      CensusWithout(b, i);
    }
  }

  /** The counts, and with them the derived status and the summary, do not depend on the order of the
      agents, and the five of them sum to the total exactly when no agent carries one of the odd names. */
  lemma CountsIgnoreOrder(agents: seq<string>, others: seq<string>)
    requires multiset(agents) == multiset(others)
    ensures CountsOf(Census(agents)) == CountsOf(Census(others))
    ensures var c := CountsOf(Census(agents));
      c.pending + c.running + c.done + c.failed + c.timeout == c.total <==>
      IsTotal !in Census(agents) && IsInherited !in Census(agents)
  {
    CensusIgnoresOrder(agents, others);
  }

  /** The derived status is terminal exactly when the summary says complete, unless some agent carries
      an odd name, none is pending, running or done, and the rest all failed or all timed out. */
  lemma TerminalIffComplete(m: multiset<Word>)
    ensures var c := CountsOf(m);
      (Terminal(Derive(c)) <==> Complete(c)) <==>
      !(Odd(m) > 0 && c.pending == 0 && c.running == 0 && c.done == 0 && (c.failed > 0 <==> c.timeout == 0))
  {
  }

  /** The final fallback is reached only with an odd name among the statuses. */
  lemma FallbackExactly(m: multiset<Word>)
    ensures var c := CountsOf(m);
      Derive(c) == Fallback <==>
      Odd(m) > 0 && c.pending == 0 && c.running == 0 && !(c.done == 0 && (c.failed > 0 <==> c.timeout == 0))
  {
  }

  /** For agents whose statuses are allowed or unknown, the two views agree and the fallback is dead. */
  lemma OrdinaryGroupsAgree(agents: seq<string>)
    requires Odd(Census(agents)) == 0
    ensures var c := CountsOf(Census(agents));
      c.pending + c.running + c.done + c.failed + c.timeout == c.total &&
      (Terminal(Derive(c)) <==> Complete(c)) && Derive(c) != Fallback &&
      (Derive(c) == Pending <==> c.pending == c.total) &&
      (Derive(c) == Done <==> c.done == c.total > 0) &&
      (Derive(c) == Failed <==> c.failed == c.total > 0) &&
      (Derive(c) == TimedOut <==> c.timeout == c.total > 0) &&
      (Derive(c) == Running <==> c.pending < c.total && c.pending + c.running > 0) &&
      (Derive(c) == Completed <==>
        c.pending == 0 && c.running == 0 && c.done < c.total && c.failed < c.total && c.timeout < c.total) &&
      (Complete(c) <==> c.total > 0 && c.pending == 0 && c.running == 0)
  {
  }

  lemma OddStatus()
    ensures StatusOf("total") == IsTotal
  {
    StatusOfLower("total");
  }

  /** One failed agent and one whose status is "total" (see `OddStatus`): the group counts as failed, and
      as incomplete. */
  lemma OddNameDisagrees(agents: seq<string>)
    requires |agents| == 2 && StatusOf(agents[0]) == IsFailed && StatusOf(agents[1]) == IsTotal
    ensures var c := CountsOf(Census(agents));
      Derive(c) == Failed && !Complete(c) && c.total == 3
  {
    assert Statuses(agents) == [IsFailed, IsTotal];
  }

  lemma StatusOfLower(s: string)
    requires s != "" && Plain(s)
    ensures StatusOf(s) == WordOf(s)
  {
    PlainStays(s);
  }

  // ----- The counts by the names themselves

  /** How many agents have this status, whatever its case. */
  function Occurs(agents: seq<string>, status: string): nat {
    if agents == [] then 0
    else Occurs(agents[..|agents| - 1], status) + if Lower(agents[|agents| - 1]) == status then 1 else 0
  }

  lemma WordByName(s: string)
    ensures (WordOf(s) == IsPending <==> s == "pending") && (WordOf(s) == IsRunning <==> s == "running")
    ensures (WordOf(s) == IsDone <==> s == "done") && (WordOf(s) == IsFailed <==> s == "failed")
    ensures (WordOf(s) == IsTimeout <==> s == "timeout") && (WordOf(s) == IsTotal <==> s == "total")
    ensures WordOf(s) == IsInherited <==> s == "constructor" || s == "__proto__"
  {
  }

  /** Which name is which status; no status at all is pending. */
  lemma StatusByName(raw: string)
    ensures var s, w := Lower(raw), StatusOf(raw);
      && (w == IsPending <==> s == "pending" || s == "")
      && (w == IsRunning <==> s == "running") && (w == IsDone <==> s == "done")
      && (w == IsFailed <==> s == "failed") && (w == IsTimeout <==> s == "timeout")
      && (w == IsTotal <==> s == "total") && (w == IsInherited <==> s == "constructor" || s == "__proto__")
  {
    PlainStays("pending");
    LowerChars(raw);
    WordByName(Lower(raw));
    WordByName("pending");
  }

  lemma {:induction false} CensusByName(agents: seq<string>, word: Word, status: string)
    requires forall raw :: StatusOf(raw) == word <==> Lower(raw) == status
    ensures Census(agents)[word] == Occurs(agents, status)
    decreases |agents|
  {
    if agents != [] {
      var n := |agents| - 1;
      CensusOfMore(agents, n);
      assert agents[..n + 1] == agents;
      CensusByName(agents[..n], word, status);
    }
  }

  lemma {:induction false} CensusByTwoNames(agents: seq<string>, word: Word, one: string, two: string)
    requires one != two && forall raw :: StatusOf(raw) == word <==> Lower(raw) == one || Lower(raw) == two
    ensures Census(agents)[word] == Occurs(agents, one) + Occurs(agents, two)
    decreases |agents|
  {
    if agents != [] {
      var n := |agents| - 1;
      CensusOfMore(agents, n);
      assert agents[..n + 1] == agents;
      CensusByTwoNames(agents[..n], word, one, two);
    }
  }

  /** Each count is the number of agents of that status, and the total of them all, with "total" twice
      and the inherited names once. */
  lemma CountsByName(agents: seq<string>)
    ensures var c := CountsOf(Census(agents));
      && c.pending == Occurs(agents, "pending") + Occurs(agents, "")
      && c.running == Occurs(agents, "running") && c.done == Occurs(agents, "done")
      && c.failed == Occurs(agents, "failed") && c.timeout == Occurs(agents, "timeout")
      && c.total == c.pending + c.running + c.done + c.failed + c.timeout +
                    2 * Occurs(agents, "total") + Occurs(agents, "constructor") + Occurs(agents, "__proto__")
  {
    forall raw {
      StatusByName(raw);
    }
    CensusByTwoNames(agents, IsPending, "pending", "");
    CensusByName(agents, IsRunning, "running");
    CensusByName(agents, IsDone, "done");
    CensusByName(agents, IsFailed, "failed");
    CensusByName(agents, IsTimeout, "timeout");
    CensusByName(agents, IsTotal, "total");
    CensusByTwoNames(agents, IsInherited, "constructor", "__proto__");
  }
}
