/** The guard in front of the memory commands: argument flags, the policy check, and the ownership
    table that ties every resource to the first session that names it. */
module MemoryGuard {
  import opened Options
  import opened Strings

  // ----- Flags

  predicate IsFlag(token: string) {
    |token| >= 2 && token[0] == '-' && token[1] == '-'
  }

  function FlagKey(token: string): string
    requires IsFlag(token)
  {
    match IndexOf(token, '=')
    case None => token[2..]
    case Some(eq) => if eq < 2 then "" else token[2..eq]
  }

  function FlagValue(token: string): string {
    match IndexOf(token, '=')
    case None => "1"
    case Some(eq) => token[eq + 1..]
  }

  /** The one key of a plain object that a string cannot be stored under. */
  const PROTO := "__proto__"

  function Put(flags: map<string, string>, key: string, value: string): map<string, string> {
    if key == PROTO then flags else flags[key := value]
  }

  function Flags(args: seq<string>): map<string, string> {
    if args == [] then map[]
    else
      var n := |args| - 1;
      if IsFlag(args[n]) then Put(Flags(args[..n]), FlagKey(args[n]), FlagValue(args[n])) else Flags(args[..n])
  }

  /** Token i is the last one that sets the flag. */
  predicate LastSet(args: seq<string>, key: string, i: int) {
    key != PROTO && 0 <= i < |args| && IsFlag(args[i]) && FlagKey(args[i]) == key &&
    forall j :: i < j < |args| && IsFlag(args[j]) ==> FlagKey(args[j]) != key
  }

  lemma {:induction false} LastSetWins(args: seq<string>, key: string, i: int)
    requires LastSet(args, key, i)
    ensures key in Flags(args) && Flags(args)[key] == FlagValue(args[i])
    decreases |args|
  {
    var n := |args| - 1;
    if i < n {
      assert LastSet(args[..n], key, i);
      LastSetWins(args[..n], key, i);
    }
  }

  lemma {:induction false} SetBySome(args: seq<string>, key: string) returns (i: int)
    requires key in Flags(args)
    ensures LastSet(args, key, i)
    decreases |args|
  {
    var n := |args| - 1;
    if IsFlag(args[n]) && FlagKey(args[n]) == key != PROTO {
      i := n;
    } else {
      i := SetBySome(args[..n], key);
    }
  }

  /** A flag has a value exactly when some token sets it, and it is the value that the last one gives.
      No token sets "__proto__". */
  lemma LastTokenWins(args: seq<string>, key: string)
    ensures key in Flags(args) <==> exists i :: LastSet(args, key, i)
    ensures forall i :: LastSet(args, key, i) ==> key in Flags(args) && Flags(args)[key] == FlagValue(args[i])
  {
    forall i | LastSet(args, key, i)
      ensures key in Flags(args) && Flags(args)[key] == FlagValue(args[i])
    {
      LastSetWins(args, key, i);
    }
    if key in Flags(args) {
      var i := SetBySome(args, key);
    }
  }

  method ParseArgsToFlags(args: seq<string>) returns (flags: map<string, string>)
    ensures flags == Flags(args)
    ensures forall key, i :: LastSet(args, key, i) ==> key in flags && flags[key] == FlagValue(args[i])
    ensures forall key :: key in flags ==> exists i :: LastSet(args, key, i)
  {
    flags := map[];
    for i := 0 to |args|
      invariant flags == Flags(args[..i])
    {
      assert args[..i + 1][..i] == args[..i];
      var value := args[i];
      if !IsFlag(value) { continue; }
      var eq := IndexOf(value, '=');
      if eq.None? {
        flags := Put(flags, value[2..], "1");
      } else {
        flags := Put(flags, value[2..eq.value], value[eq.value + 1..]);
      }
    }
    assert args[..|args|] == args;
    forall key {
      LastTokenWins(args, key);
    }
  }

  function Flag(flags: map<string, string>, key: string): Option<string> {
    if key in flags then Some(flags[key]) else None
  }

  // ----- Policy

  datatype PolicyReason =
    | PolicyOk | BypassForbidden | DirectReadForbidden | BootstrapNotLazy | BurnThreshold
    | RecallBudget | StaleOverride | RankingNotDescending | LensmapIncomplete

  /** How texts read as numbers and JSON: None for a text that is not a finite number, not an array, not
      valid JSON. Scores are None where they are not finite numbers. */
  datatype Reader = Reader(
    number: string -> Option<real>,
    scores: string -> Option<seq<Option<real>>>,
    idCount: string -> Option<int>,
    lensmap: string -> Option<(int, int)>)

  function Truthy(flag: Option<string>): bool {
    flag.Some? && Lower(Trim(flag.value)) in {"1", "true", "yes", "on"}
  }

  predicate Over(r: Reader, flag: Option<string>, limit: real) {
    flag.Some? && r.number(flag.value).Some? && r.number(flag.value).value > limit
  }

  predicate RisesAt(scores: seq<Option<real>>, i: int)
    requires 0 < i < |scores|
  {
    scores[i - 1].Some? && scores[i].Some? && scores[i].value > scores[i - 1].value
  }

  predicate Descending(scores: seq<Option<real>>) {
    forall i :: 0 < i < |scores| ==> !RisesAt(scores, i)
  }

  method CheckRanking(scores: seq<Option<real>>) returns (ok: bool)
    ensures ok <==> Descending(scores)
  {
    if |scores| == 0 { return true; }
    for i := 1 to |scores|
      invariant forall j :: 0 < j < i && j < |scores| ==> !RisesAt(scores, j)
    {
      var prev, curr := scores[i - 1], scores[i];
      if prev.Some? && curr.Some? && curr.value > prev.value {
        assert RisesAt(scores, i);
        return false;
      }
    }
    return true;
  }

  function ValidatePolicy(r: Reader, args: seq<string>): PolicyReason {
    var flags := Flags(args);
    var file, path := Flag(flags, "file"), Flag(flags, "path");
    if Truthy(Flag(flags, "bypass")) || Truthy(Flag(flags, "allow-full-scan")) then BypassForbidden
    else if (file.Some? && Trim(file.value) != "") || (path.Some? && Trim(path.value) != "") then DirectReadForbidden
    else if Truthy(Flag(flags, "bootstrap")) && !Truthy(Flag(flags, "lazy-hydration")) then BootstrapNotLazy
    else if Over(r, Flag(flags, "burn-threshold"), 200.0) then BurnThreshold
    else if Over(r, Flag(flags, "top"), 50.0) || Over(r, Flag(flags, "max-files"), 20.0) ||
            Over(r, Flag(flags, "expand-lines"), 300.0) then RecallBudget
    else if Truthy(Flag(flags, "allow-stale")) then StaleOverride
    else if RankingRejects(r, Flag(flags, "scores-json"), Flag(flags, "ids-json")) then RankingNotDescending
    else if LensmapRejects(r, Flag(flags, "lensmap-annotation-json")) then LensmapIncomplete
    else PolicyOk
  }

  /** Scores are checked only next to as many ids. */
  predicate RankingRejects(r: Reader, scores: Option<string>, ids: Option<string>) {
    scores.Some? && ids.Some? && scores.value != "" && ids.value != "" &&
    var s, n := r.scores(scores.value), r.idCount(ids.value);
    s.Some? && n.Some? && |s.value| == n.value && |s.value| > 1 && !Descending(s.value)
  }

  predicate LensmapRejects(r: Reader, annotation: Option<string>) {
    annotation.Some? &&
    match r.lensmap(annotation.value)
    case None => true
    case Some((tags, jots)) => tags == 0 || jots == 0
  }

  /** Which scores are finite numbers. */
  function Finite(scores: seq<Option<real>>): (mask: seq<bool>)
    ensures |mask| == |scores| && forall i :: 0 <= i < |scores| ==> mask[i] == scores[i].Some?
  {
    seq(|scores|, i requires 0 <= i < |scores| => scores[i].Some?)
  }

  /** The finite scores are in order over all pairs, which is what a ranking promises. */
  predicate Ranked(scores: seq<Option<real>>) {
    forall i, j :: 0 <= i < j < |scores| && scores[i].Some? && scores[j].Some? ==> scores[i].value >= scores[j].value
  }

  /** No gap between two finite scores. */
  predicate OneBlock(mask: seq<bool>) {
    forall i, j, k :: 0 <= i < j < k < |mask| && mask[i] && mask[k] ==> mask[j]
  }

  lemma {:induction false} NeighboursAreEnough(scores: seq<Option<real>>, i: nat, j: nat)
    requires Descending(scores) && i <= j < |scores| && forall k :: i <= k <= j ==> scores[k].Some?
    ensures scores[i].value >= scores[j].value
    decreases j
  {
    if i < j {
      NeighboursAreEnough(scores, i, j - 1);
      assert !RisesAt(scores, j);
    }
  }

  /** A rise across a gap between two finite scores. */
  lemma GapHidesARise(mask: seq<bool>, i: nat, j: nat, k: nat) returns (scores: seq<Option<real>>)
    requires i < j < k < |mask| && mask[i] && !mask[j] && mask[k]
    ensures Finite(scores) == mask && Descending(scores) && !Ranked(scores)
  {
    scores := seq(|mask|, p requires 0 <= p < |mask| => if !mask[p] then None else Some(if p < j then 0.0 else 1.0));
    assert scores[i] == Some(0.0) && scores[k] == Some(1.0);
  }

  /** Checking neighbours keeps its promise for every list with the given gaps exactly when none of the
      gaps lies between two finite scores; gaps before the first and after the last do no harm. */
  lemma RankingCheckIsSound(mask: seq<bool>)
    ensures OneBlock(mask) <==>
      forall scores: seq<Option<real>> :: Finite(scores) == mask && Descending(scores) ==> Ranked(scores)
  {
    if OneBlock(mask) {
      forall scores: seq<Option<real>> | Finite(scores) == mask && Descending(scores)
        ensures Ranked(scores)
      {
        forall i, j | 0 <= i < j < |scores| && scores[i].Some? && scores[j].Some?
          ensures scores[i].value >= scores[j].value
        {
          assert mask[i] && mask[j];
          NeighboursAreEnough(scores, i, j);
        }
      }
    } else {
      var i, j, k :| 0 <= i < j < k < |mask| && mask[i] && mask[k] && !mask[j];
      var scores := GapHidesARise(mask, i, j, k);
    }
  }

  /** What the check accepts and a ranking forbids: a text between 5 and 9. */
  lemma UnrankedButAccepted()
    ensures Descending([Some(5.0), None, Some(9.0)]) && !Ranked([Some(5.0), None, Some(9.0)])
  {
    var scores := [Some(5.0), None, Some(9.0)];
    assert scores[0] == Some(5.0) && scores[2] == Some(9.0);
  }

  // ----- Ownership

  datatype SessionReason = SessionOk | MissingSessionId | InvalidSessionId | CrossSessionLeak

  predicate Alphanumeric(c: char) {
    'A' <= c <= 'Z' || 'a' <= c <= 'z' || '0' <= c <= '9'
  }

  predicate SessionId(s: string) {
    3 <= |s| <= 128 && Alphanumeric(s[0]) &&
    forall i :: 0 < i < |s| ==> Alphanumeric(s[i]) || s[i] in {'.', '_', ':', '-'}
  }

  type Table = map<string, string>

  /** Assigning a string under "__proto__" stores nothing, unless the loaded table has that key. */
  function Claim(table: Table, resource: string, session: string): Table {
    if resource == PROTO && resource !in table then table else table[resource := session]
  }

  function NamedSession(args: seq<string>): string {
    match Flag(Flags(args), "session-id")
    case None => ""
    case Some(v) => Trim(v)
  }

  function NamedResource(args: seq<string>): string {
    match Flag(Flags(args), "resource-id")
    case None => ""
    case Some(v) => Trim(v)
  }

  function ValidateSession(table: Table, args: seq<string>): (SessionReason, Table) {
    var session, resource := NamedSession(args), NamedResource(args);
    if session == "" then (MissingSessionId, table)
    else if !SessionId(session) then (InvalidSessionId, table)
    else if resource == "" then (SessionOk, table)
    else
      var owner := if resource in table then table[resource] else "";
      if owner != "" && owner != session then (CrossSessionLeak, table)
      else (SessionOk, Claim(table, resource, session))
  }

  class OwnershipFile {
    var resources: Table

    constructor (resources: Table)
      ensures this.resources == resources
    {
      this.resources := resources;
    }

    method Validate(args: seq<string>) returns (reason: SessionReason)
      modifies this
      ensures (reason, resources) == ValidateSession(old(resources), args)
      ensures reason == MissingSessionId <==> NamedSession(args) == ""
      ensures reason == InvalidSessionId <==> NamedSession(args) != "" && !SessionId(NamedSession(args))
      ensures reason != SessionOk || NamedResource(args) == "" ==> resources == old(resources)
    {
      var flags := ParseArgsToFlags(args);
      var sessionId := if "session-id" in flags then Trim(flags["session-id"]) else "";
      if sessionId == "" { return MissingSessionId; }
      if !SessionId(sessionId) { return InvalidSessionId; }
      var resourceId := if "resource-id" in flags then Trim(flags["resource-id"]) else "";
      if resourceId != "" {
        var owner := if resourceId in resources then resources[resourceId] else "";
        if owner != "" && owner != sessionId { return CrossSessionLeak; }
        resources := Claim(resources, resourceId, sessionId);
      }
      return SessionOk;
    }
  }

  // ----- One command of the causal graph lane

  function TrimAll(args: seq<string>): (r: seq<string>)
    ensures |r| == |args| && forall i :: 0 <= i < |args| ==> r[i] == Trim(args[i])
  {
    if args == [] then [] else [Trim(args[0])] + TrimAll(args[1..])
  }

  function MapArgs(args: seq<string>): seq<string>
    decreases |args|
  {
    var rows := TrimAll(args);
    if rows == [] then ["status"]
    else
      var head, tail := Lower(rows[0]), rows[1..];
      if LaneName(head) then MapArgs(tail) else MapHead(head) + tail
  }

  predicate LaneName(head: string) {
    head == "causal-temporal-graph" || head == "causal_temporal_graph"
  }

  function MapHead(head: string): seq<string> {
    if head == "" || head == "status" || head == "verify" then ["status"]
    else if head == "build" || head == "record-legacy" then
      ["record", "--event-id=build-latest", "--summary=legacy_build_alias", "--actor=system", "--apply=0"]
    else if head == "query" || head == "lookup" then ["blame", "--event-id=build-latest"]
    else [head]
  }

  datatype Outcome =
    | RejectedByPolicy(policy: PolicyReason)
    | RejectedBySession(session: SessionReason)
    | Bridged(command: seq<string>)

  function Command(r: Reader, table: Table, args: seq<string>): (Outcome, Table) {
    var mapped := MapArgs(args);
    var policy := ValidatePolicy(r, mapped);
    if !policy.PolicyOk? then (RejectedByPolicy(policy), table)
    else
      var (session, after) := ValidateSession(table, mapped);
      if !session.SessionOk? then (RejectedBySession(session), after)
      else (Bridged(["causal-temporal-graph"] + mapped), after)
  }

  /** What the bridge has been given, and who named which resource. */
  datatype Accepted = Accepted(resource: string, session: string, command: seq<string>)

  datatype History = History(table: Table, accepted: seq<Accepted>)

  function Turn(r: Reader, h: History, args: seq<string>): History {
    var mapped := MapArgs(args);
    var (outcome, table) := Command(r, h.table, args);
    History(table,
            if outcome.Bridged?
            then h.accepted + [Accepted(NamedResource(mapped), NamedSession(mapped), outcome.command)]
            else h.accepted)
  }

  function Play(r: Reader, h: History, calls: seq<seq<string>>): History
    decreases |calls|
  {
    if calls == [] then h else Play(r, Turn(r, h, calls[0]), calls[1..])
  }

  /** A name that the table can hold. */
  predicate Ownable(table: Table, resource: string) {
    resource != "" && (resource != PROTO || resource in table)
  }

  /** The table knows the owner of a resource that an accepted call has named. */
  predicate Recorded(table: Table, a: Accepted) {
    Ownable(table, a.resource) ==>
      a.session != "" && a.resource in table && table[a.resource] == a.session
  }

  predicate AllRecorded(h: History) {
    forall i :: 0 <= i < |h.accepted| ==> Recorded(h.table, h.accepted[i])
  }

  /** Owners stay, and the one name that cannot be stored does not become storable. */
  predicate Extends(table: Table, after: Table) {
    (PROTO in after ==> PROTO in table) &&
    forall k :: k in table ==> k in after && (table[k] != "" ==> after[k] == table[k])
  }

  lemma ValidateExtends(table: Table, args: seq<string>)
    ensures var (reason, after) := ValidateSession(table, args);
      Extends(table, after) && (!reason.SessionOk? ==> after == table) &&
      (reason.SessionOk? ==> Recorded(after, Accepted(NamedResource(args), NamedSession(args), [])))
  {
  }

  lemma TurnRecords(r: Reader, h: History, args: seq<string>)
    requires AllRecorded(h)
    ensures AllRecorded(Turn(r, h, args)) && Extends(h.table, Turn(r, h, args).table)
    ensures h.accepted <= Turn(r, h, args).accepted
  {
    var mapped, next := MapArgs(args), Turn(r, h, args);
    ValidateExtends(h.table, mapped);
    forall i | 0 <= i < |next.accepted|
      ensures Recorded(next.table, next.accepted[i])
    {
      if i < |h.accepted| {
        assert Recorded(h.table, h.accepted[i]);
      }
    }
  }

  lemma ExtendsTransitive(a: Table, b: Table, c: Table)
    requires Extends(a, b) && Extends(b, c)
    ensures Extends(a, c)
  {
  }

  lemma {:induction false} PlayRecords(r: Reader, h: History, calls: seq<seq<string>>)
    requires AllRecorded(h)
    ensures AllRecorded(Play(r, h, calls)) && Extends(h.table, Play(r, h, calls).table)
    decreases |calls|
  {
    if calls != [] {
      var next := Turn(r, h, calls[0]);
      TurnRecords(r, h, calls[0]);
      PlayRecords(r, next, calls[1..]);
      ExtendsTransitive(h.table, next.table, Play(r, next, calls[1..]).table);
    }
  }

  // ----- Main results

  /** Ownership is permanent: over any run, all accepted calls that name a resource carry one session,
      the recorded owner's if the table had one to begin with. The exception is a resource called
      "__proto__" that the table does not hold. */
  lemma OwnershipIsPermanent(r: Reader, table: Table, calls: seq<seq<string>>, i: nat, j: nat)
    requires var h := Play(r, History(table, []), calls);
      i < |h.accepted| && j < |h.accepted| && h.accepted[i].resource == h.accepted[j].resource
    requires Ownable(table, Play(r, History(table, []), calls).accepted[i].resource)
    ensures var a := Play(r, History(table, []), calls).accepted;
      a[i].session == a[j].session &&
      (a[i].resource in table && table[a[i].resource] != "" ==> a[i].session == table[a[i].resource])
  {
    PlayRecords(r, History(table, []), calls);
    var h := Play(r, History(table, []), calls);
    assert Recorded(h.table, h.accepted[i]) && Recorded(h.table, h.accepted[j]);
  }

  /** An accepted naming is remembered exactly when the name can be stored; otherwise every session is
      accepted and nothing changes. */
  lemma NamingSticksExactly(table: Table, args: seq<string>)
    requires NamedResource(args) != "" && ValidateSession(table, args).0.SessionOk?
    ensures var (session, resource) := (NamedSession(args), NamedResource(args));
      var after := ValidateSession(table, args).1;
      ((resource in after && after[resource] == session) <==> Ownable(table, resource)) &&
      (!Ownable(table, resource) ==> after == table)
  {
  }

  /** A call that names a session and a resource, and nothing else. */
  function Naming(session: string, resource: string): seq<string> {
    ["status", "--session-id" + ['='] + session, "--resource-id" + ['='] + resource]
  }

  lemma FlagToken(name: string, value: string)
    requires IsFlag(name) && '=' !in name
    ensures var token := name + ['='] + value;
      IsFlag(token) && FlagKey(token) == name[2..] && FlagValue(token) == value
  {
    var token := name + ['='] + value;
    IndexAfter(name, value, '=');
    assert token[2..|name|] == name[2..] && token[|name| + 1..] == value;
  }

  lemma TwoFlags(head: string, one: string, two: string)
    requires !IsFlag(head) && IsFlag(one) && IsFlag(two)
    requires FlagKey(one) != PROTO && FlagKey(two) != PROTO
    ensures Flags([head, one, two]) == map[FlagKey(one) := FlagValue(one), FlagKey(two) := FlagValue(two)]
  {
    var args := [head, one, two];
    assert args[..2] == [head, one] && args[..2][..1] == [head] && args[..2][..1][..0] == [];
    assert Flags(args[..2][..1]) == map[];
  }

  lemma NamingFlags(session: string, resource: string)
    ensures Flags(Naming(session, resource)) == map["session-id" := session, "resource-id" := resource]
  {
    FlagToken("--session-id", session);
    FlagToken("--resource-id", resource);
    assert "--session-id"[2..] == "session-id" && "--resource-id"[2..] == "resource-id";
    assert "session-id" != PROTO && "resource-id" != PROTO;
    TwoFlags("status", "--session-id" + ['='] + session, "--resource-id" + ['='] + resource);
  }

  lemma NamingSettles(session: string, resource: string)
    requires session != "" && Trimmed(session) && resource != "" && Trimmed(resource)
    ensures MapArgs(Naming(session, resource)) == Naming(session, resource)
  {
    var args := Naming(session, resource);
    StatusSettles();
    assert Trimmed(args[1]) by {
      assert args[1][0] == '-' && args[1][|args[1]| - 1] == session[|session| - 1];
    }
    assert Trimmed(args[2]) by {
      assert args[2][0] == '-' && args[2][|args[2]| - 1] == resource[|resource| - 1];
    }
    assert args[0] == ["status"][0];
    SettledStays(args);
  }

  lemma NoOtherFlags(flags: map<string, string>)
    requires flags.Keys == {"session-id", "resource-id"}
    ensures "bypass" !in flags && "allow-full-scan" !in flags && "file" !in flags && "path" !in flags
    ensures "bootstrap" !in flags && "burn-threshold" !in flags && "top" !in flags && "max-files" !in flags
    ensures "expand-lines" !in flags && "allow-stale" !in flags && "scores-json" !in flags
    ensures "lensmap-annotation-json" !in flags
  {
  }

  lemma NamingMeetsPolicy(r: Reader, session: string, resource: string)
    ensures ValidatePolicy(r, Naming(session, resource)) == PolicyOk
  {
    NamingFlags(session, resource);
    NoOtherFlags(Flags(Naming(session, resource)));
  }

  lemma NamingNames(session: string, resource: string)
    requires Trimmed(session) && Trimmed(resource)
    ensures NamedSession(Naming(session, resource)) == session && NamedResource(Naming(session, resource)) == resource
  {
    NamingFlags(session, resource);
    TrimTrims(session);
    TrimTrims(resource);
  }

  /** Such a call is accepted if nobody is known to own the resource. */
  lemma NamingPasses(r: Reader, h: History, session: string, resource: string)
    requires SessionId(session) && Trimmed(session) && resource != "" && Trimmed(resource)
    requires resource !in h.table
    ensures Turn(r, h, Naming(session, resource)) ==
      History(Claim(h.table, resource, session),
              h.accepted + [Accepted(resource, session, ["causal-temporal-graph"] + Naming(session, resource))])
  {
    NamingSettles(session, resource);
    NamingMeetsPolicy(r, session, resource);
    NamingNames(session, resource);
  }

  /** All accepted calls that name the resource carry one session. */
  predicate OneOwner(accepted: seq<Accepted>, resource: string) {
    forall i, j :: 0 <= i < j < |accepted| && accepted[i].resource == accepted[j].resource == resource ==>
      accepted[i].session == accepted[j].session
  }

  lemma PlayFirst(r: Reader, h: History, calls: seq<seq<string>>)
    requires calls != []
    ensures Play(r, h, calls) == Play(r, Turn(r, h, calls[0]), calls[1..])
    ensures |calls| == 1 ==> Play(r, h, calls) == Turn(r, h, calls[0])
  {
  }

  lemma PlayTwo(r: Reader, h: History, a: seq<string>, b: seq<string>)
    ensures Play(r, h, [a, b]) == Turn(r, Turn(r, h, a), b)
  {
    PlayFirst(r, h, [a, b]);
    assert [a, b][1..] == [b];
    PlayFirst(r, Turn(r, h, a), [b]);
  }

  lemma NotOneOwner(first: Accepted, second: Accepted)
    requires first.resource == second.resource && first.session != second.session
    ensures !OneOwner([first] + [second], first.resource)
  {
    var accepted := [first] + [second];
    assert accepted[0] == first && accepted[1] == second;
  }

  /** Any two sessions are both accepted for a resource whose name cannot be stored. */
  lemma UnstorableHasTwoOwners(r: Reader, table: Table, resource: string, one: string, two: string)
    requires resource != "" && Trimmed(resource) && !Ownable(table, resource) && one != two
    requires SessionId(one) && Trimmed(one) && SessionId(two) && Trimmed(two)
    ensures !OneOwner(Play(r, History(table, []), [Naming(one, resource), Naming(two, resource)]).accepted, resource)
  {
    var h := History(table, []);
    PlayTwo(r, h, Naming(one, resource), Naming(two, resource));
    NamingPasses(r, h, one, resource);
    var first := Accepted(resource, one, ["causal-temporal-graph"] + Naming(one, resource));
    assert [] + [first] == [first];
    NamingPasses(r, History(table, [first]), two, resource);
    var second := Accepted(resource, two, ["causal-temporal-graph"] + Naming(two, resource));
    NotOneOwner(first, second);
  }

  /** So two sessions share "__proto__" whenever the loaded table does not have that key. */
  lemma ProtoHasTwoOwners(r: Reader, table: Table)
    requires PROTO !in table
    ensures !OneOwner(Play(r, History(table, []), [Naming("one", PROTO), Naming("two", PROTO)]).accepted,
                      PROTO)
  {
    SomeSessionIds();
    UnstorableHasTwoOwners(r, table, PROTO, "one", "two");
  }

  lemma SomeSessionIds()
    ensures SessionId("one") && Trimmed("one") && SessionId("two") && Trimmed("two") && "one" != "two"
    ensures Trimmed(PROTO)
  {
  }

  /** A resource has one owner in every run, whatever the calls, exactly when the table can hold it. */
  lemma OwnershipExactly(r: Reader, table: Table, resource: string)
    requires resource != ""
    ensures Ownable(table, resource) <==>
      forall calls :: OneOwner(Play(r, History(table, []), calls).accepted, resource)
  {
    if Ownable(table, resource) {
      forall calls
        ensures OneOwner(Play(r, History(table, []), calls).accepted, resource)
      {
        var accepted := Play(r, History(table, []), calls).accepted;
        forall i, j | 0 <= i < j < |accepted| && accepted[i].resource == accepted[j].resource == resource
          ensures accepted[i].session == accepted[j].session
        {
          OwnershipIsPermanent(r, table, calls, i, j);
        }
      }
    } else {
      ProtoHasTwoOwners(r, table);
    }
  }

  /** Arguments that no rule of the mapping changes any more. */
  predicate Settled(mapped: seq<string>) {
    mapped != [] && Plain(mapped[0]) && !LaneName(mapped[0]) && MapHead(mapped[0]) == [mapped[0]] &&
    forall i :: 0 <= i < |mapped| ==> Trimmed(mapped[i])
  }

  lemma SettledStays(mapped: seq<string>)
    requires Settled(mapped)
    ensures MapArgs(mapped) == mapped
  {
    forall i | 0 <= i < |mapped|
      ensures Trim(mapped[i]) == mapped[i]
    {
      TrimTrims(mapped[i]);
    }
    assert TrimAll(mapped) == mapped;
    PlainStays(mapped[0]);
    assert [mapped[0]] + mapped[1..] == mapped;
  }

  lemma StatusSettles()
    ensures Settled(["status"])
  {
  }

  lemma RecordSettles()
    ensures Settled(["record", "--event-id=build-latest", "--summary=legacy_build_alias", "--actor=system", "--apply=0"])
  {
    assert Trimmed("--event-id=build-latest") && Trimmed("--summary=legacy_build_alias");
    assert Trimmed("--actor=system") && Trimmed("--apply=0");
  }

  lemma BlameSettles()
    ensures Settled(["blame", "--event-id=build-latest"])
  {
  }

  lemma HeadSettles(head: string)
    requires Plain(head) && !LaneName(head)
    ensures Settled(MapHead(head))
  {
    if MapHead(head) != [head] {
      StatusSettles();
      RecordSettles();
      BlameSettles();
    }
  }

  lemma {:induction false} MapSettles(args: seq<string>)
    ensures Settled(MapArgs(args))
    decreases |args|
  {
    var rows := TrimAll(args);
    if rows == [] {
      HeadSettles("");
      assert MapArgs(args) == MapHead("");
    } else {
      forall i | 0 <= i < |rows|
        ensures Trimmed(rows[i])
      {
        TrimTrims(args[i]);
      }
      var head := Lower(rows[0]);
      LowerIsPlain(rows[0]);
      if LaneName(head) {
        MapSettles(rows[1..]);
      } else {
        HeadSettles(head);
      }
    }
  }

  /** Mapping mapped arguments changes nothing, so a call that is forwarded means the same. */
  lemma MapArgsTwice(args: seq<string>)
    ensures MapArgs(MapArgs(args)) == MapArgs(args)
  {
    MapSettles(args);
    SettledStays(MapArgs(args));
  }

  // ----- What the policy refuses, token by token

  /** The last token that sets the flag gives it this value. */
  ghost predicate Says(args: seq<string>, key: string, value: string) {
    exists i :: LastSet(args, key, i) && FlagValue(args[i]) == value
  }

  lemma FlagIsSaid(args: seq<string>, key: string, value: string)
    ensures Flag(Flags(args), key) == Some(value) <==> Says(args, key, value)
  {
    LastTokenWins(args, key);
  }

  ghost predicate Yes(args: seq<string>, key: string) {
    exists v :: Says(args, key, v) && (Lower(Trim(v)) == "1" || Lower(Trim(v)) == "true" || Lower(Trim(v)) == "yes" || Lower(Trim(v)) == "on")
  }

  ghost predicate Above(r: Reader, args: seq<string>, key: string, limit: real) {
    exists v :: Says(args, key, v) && r.number(v).Some? && r.number(v).value > limit
  }

  ghost predicate NamesFile(args: seq<string>, key: string) {
    exists v :: Says(args, key, v) && Trim(v) != ""
  }

  /** As many scores as ids, more than one, and some finite score right after a smaller one. */
  ghost predicate Misranked(r: Reader, args: seq<string>) {
    exists s, t :: Says(args, "scores-json", s) && Says(args, "ids-json", t) && s != "" && t != "" &&
      r.scores(s).Some? && r.idCount(t) == Some(|r.scores(s).value|) && |r.scores(s).value| > 1 &&
      !Descending(r.scores(s).value)
  }

  ghost predicate HalfAnnotated(r: Reader, args: seq<string>) {
    exists v :: Says(args, "lensmap-annotation-json", v) &&
      (r.lensmap(v).None? || r.lensmap(v).value.0 == 0 || r.lensmap(v).value.1 == 0)
  }

  /** Nothing in the arguments is against the policy. */
  ghost predicate Permitted(r: Reader, args: seq<string>) {
    !Yes(args, "bypass") && !Yes(args, "allow-full-scan") &&
    !NamesFile(args, "file") && !NamesFile(args, "path") &&
    (Yes(args, "bootstrap") ==> Yes(args, "lazy-hydration")) &&
    !Above(r, args, "burn-threshold", 200.0) && !Above(r, args, "top", 50.0) &&
    !Above(r, args, "max-files", 20.0) && !Above(r, args, "expand-lines", 300.0) &&
    !Yes(args, "allow-stale") && !Misranked(r, args) && !HalfAnnotated(r, args)
  }

  lemma YesIsTruthy(args: seq<string>, key: string)
    ensures Yes(args, key) <==> Truthy(Flag(Flags(args), key))
  {
    forall v {
      FlagIsSaid(args, key, v);
    }
  }

  lemma AboveIsOver(r: Reader, args: seq<string>, key: string, limit: real)
    ensures Above(r, args, key, limit) <==> Over(r, Flag(Flags(args), key), limit)
  {
    forall v {
      FlagIsSaid(args, key, v);
    }
  }

  lemma NamedIsNamed(args: seq<string>, key: string)
    ensures var f := Flag(Flags(args), key); NamesFile(args, key) <==> f.Some? && Trim(f.value) != ""
  {
    forall v {
      FlagIsSaid(args, key, v);
    }
  }

  lemma MisrankedIsRejected(r: Reader, args: seq<string>)
    ensures var flags := Flags(args);
      Misranked(r, args) <==> RankingRejects(r, Flag(flags, "scores-json"), Flag(flags, "ids-json"))
  {
    forall key, v {
      FlagIsSaid(args, key, v);
    }
  }

  lemma HalfAnnotatedIsRejected(r: Reader, args: seq<string>)
    ensures HalfAnnotated(r, args) <==> LensmapRejects(r, Flag(Flags(args), "lensmap-annotation-json"))
  {
    forall v {
      FlagIsSaid(args, "lensmap-annotation-json", v);
    }
  }

  lemma ChecksByToken(r: Reader, args: seq<string>)
    ensures var flags := Flags(args);
      && (Yes(args, "bypass") <==> Truthy(Flag(flags, "bypass")))
      && (Yes(args, "allow-full-scan") <==> Truthy(Flag(flags, "allow-full-scan")))
      && (Yes(args, "bootstrap") <==> Truthy(Flag(flags, "bootstrap")))
      && (Yes(args, "lazy-hydration") <==> Truthy(Flag(flags, "lazy-hydration")))
      && (Yes(args, "allow-stale") <==> Truthy(Flag(flags, "allow-stale")))
      && (Above(r, args, "burn-threshold", 200.0) <==> Over(r, Flag(flags, "burn-threshold"), 200.0))
      && (Above(r, args, "top", 50.0) <==> Over(r, Flag(flags, "top"), 50.0))
      && (Above(r, args, "max-files", 20.0) <==> Over(r, Flag(flags, "max-files"), 20.0))
      && (Above(r, args, "expand-lines", 300.0) <==> Over(r, Flag(flags, "expand-lines"), 300.0))
  {
    YesIsTruthy(args, "bypass");
    YesIsTruthy(args, "allow-full-scan");
    YesIsTruthy(args, "bootstrap");
    YesIsTruthy(args, "lazy-hydration");
    YesIsTruthy(args, "allow-stale");
    AboveIsOver(r, args, "burn-threshold", 200.0);
    AboveIsOver(r, args, "top", 50.0);
    AboveIsOver(r, args, "max-files", 20.0);
    AboveIsOver(r, args, "expand-lines", 300.0);
  }

  /** The policy accepts exactly what no token speaks against, and what it refuses it refuses for a reason
      that is there. */
  lemma PolicyExactly(r: Reader, args: seq<string>)
    ensures ValidatePolicy(r, args) == PolicyOk <==> Permitted(r, args)
    ensures match ValidatePolicy(r, args)
      case PolicyOk => true
      case BypassForbidden => Yes(args, "bypass") || Yes(args, "allow-full-scan")
      case DirectReadForbidden => NamesFile(args, "file") || NamesFile(args, "path")
      case BootstrapNotLazy => Yes(args, "bootstrap") && !Yes(args, "lazy-hydration")
      case BurnThreshold => Above(r, args, "burn-threshold", 200.0)
      case RecallBudget =>
        Above(r, args, "top", 50.0) || Above(r, args, "max-files", 20.0) || Above(r, args, "expand-lines", 300.0)
      case StaleOverride => Yes(args, "allow-stale")
      case RankingNotDescending => Misranked(r, args)
      case LensmapIncomplete => HalfAnnotated(r, args)
  {
    ChecksByToken(r, args);
    NamedIsNamed(args, "file");
    NamedIsNamed(args, "path");
    MisrankedIsRejected(r, args);
    HalfAnnotatedIsRejected(r, args);
  }

  /** Addressed to the lane, by a session with a valid id. */
  predicate Forwarded(a: Accepted) {
    a.command != [] && a.command[0] == "causal-temporal-graph" && SessionId(a.session)
  }

  ghost predicate AllPermitted(r: Reader, accepted: seq<Accepted>) {
    forall i :: 0 <= i < |accepted| ==> Forwarded(accepted[i]) && Permitted(r, accepted[i].command[1..])
  }

  lemma TurnPermits(r: Reader, h: History, args: seq<string>)
    requires AllPermitted(r, h.accepted)
    ensures AllPermitted(r, Turn(r, h, args).accepted)
  {
    var mapped := MapArgs(args);
    PolicyExactly(r, mapped);
    assert (["causal-temporal-graph"] + mapped)[1..] == mapped;
  }

  /** Over any run of calls, what reaches the bridge is permitted. */
  lemma {:induction false} OnlyPermittedIsForwarded(r: Reader, h: History, calls: seq<seq<string>>)
    requires AllPermitted(r, h.accepted)
    ensures AllPermitted(r, Play(r, h, calls).accepted)
    decreases |calls|
  {
    if calls != [] {
      TurnPermits(r, h, calls[0]);
      OnlyPermittedIsForwarded(r, Turn(r, h, calls[0]), calls[1..]);
    }
  }

  /** A flag without a value says "1". */
  lemma BareFlag(token: string)
    requires IsFlag(token) && '=' !in token
    ensures FlagKey(token) == token[2..] && FlagValue(token) == "1"
  {
  }

  /** Whom a call names: the last token of each of the two flags, without the spaces around it. */
  lemma CallNames(args: seq<string>, v: string)
    ensures Says(args, "session-id", v) ==> NamedSession(args) == Trim(v)
    ensures Says(args, "resource-id", v) ==> NamedResource(args) == Trim(v)
    ensures "session-id" !in Flags(args) ==> NamedSession(args) == ""
    ensures "resource-id" !in Flags(args) ==> NamedResource(args) == ""
  {
    FlagIsSaid(args, "session-id", v);
    FlagIsSaid(args, "resource-id", v);
  }

  // ----- What the commands are called

  /** Which command each name stands for; the rest of the arguments is kept. */
  lemma CommandsByName(args: seq<string>, tail: seq<string>)
    requires TrimAll(args) != [] && tail == TrimAll(args)[1..]
    ensures var head := Lower(TrimAll(args)[0]); var mapped := MapArgs(args);
      && (head in {"", "status", "verify"} ==> mapped == ["status"] + tail)
      && (head in {"build", "record-legacy"} ==>
            mapped == ["record", "--event-id=build-latest", "--summary=legacy_build_alias", "--actor=system", "--apply=0"] + tail)
      && (head in {"query", "lookup"} ==> mapped == ["blame", "--event-id=build-latest"] + tail)
      && (head in {"causal-temporal-graph", "causal_temporal_graph"} ==> mapped == MapArgs(tail))
      && var known := {"", "status", "verify", "build", "record-legacy", "query", "lookup"};
      && (head !in known && !LaneName(head) ==> mapped == [head] + tail)
  {
  }

  // ----- Which session ids are valid

  lemma RepeatedChar(c: char, n: nat)
    requires 'A' <= c <= 'Z' || 'a' <= c <= 'z' || '0' <= c <= '9'
    ensures SessionId(seq(n, _ => c)) <==> 3 <= n <= 128
  {
    var s := seq(n, _ => c);
    if n > 0 {
      assert s[0] == c;
    }
  }

  lemma SessionIdChars(c: char)
    ensures SessionId([c, 'a', 'a']) <==> 'A' <= c <= 'Z' || 'a' <= c <= 'z' || '0' <= c <= '9'
    ensures SessionId(['a', c, 'a']) <==> SessionId([c, 'a', 'a']) || c == '.' || c == '_' || c == ':' || c == '-'
  {
    var s, t := [c, 'a', 'a'], ['a', c, 'a'];
    assert s[0] == c && t[1] == c;
  }
}
