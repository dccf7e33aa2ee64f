/** Names that are read back after being written: session keys and the scopes of an emergency stop. */
module Names {
  import opened Options
  import opened Strings

  // ----- Splitting and joining

  function Split(s: string, c: char): (parts: seq<string>)
    ensures parts != [] && forall p :: p in parts ==> c !in p
    decreases |s|
  {
    match IndexOf(s, c)
    case None => [s]
    case Some(i) => [s[..i]] + Split(s[i + 1..], c)
  }

  function Join(parts: seq<string>, c: char): string {
    if parts == [] then "" else if |parts| == 1 then parts[0] else parts[0] + [c] + Join(parts[1..], c)
  }

  lemma SplitFirst(a: string, b: string, c: char)
    requires c !in a
    ensures Split(a + [c] + b, c) == [a] + Split(b, c)
  {
    IndexAfter(a, b, c);
    var s := a + [c] + b;
    assert s[..|a|] == a && s[|a| + 1..] == b;
  }

  /** Splitting undoes joining when no part contains the separator. */
  lemma {:induction false} SplitJoin(parts: seq<string>, c: char)
    requires parts != [] && forall p :: p in parts ==> c !in p
    ensures Split(Join(parts, c), c) == parts
  {
    if |parts| > 1 {
      SplitJoin(parts[1..], c);
      SplitFirst(parts[0], Join(parts[1..], c), c);
      assert parts == [parts[0]] + parts[1..];
    } else {
      assert parts == [parts[0]] && parts[0] in parts;
    }
  }

  // ----- Session keys

  /** The parts that are not blank, trimmed. */
  function NonBlank(parts: seq<string>): (r: seq<string>)
    ensures forall p :: p in r ==> p != "" && Trimmed(p)
  {
    if parts == [] then []
    else
      TrimTrims(parts[0]);
      (if Trim(parts[0]) == "" then [] else [Trim(parts[0])]) + NonBlank(parts[1..])
  }

  function SessionIdFromKey(value: string): string {
    var raw := Trim(value);
    if raw == "" || ':' !in raw then raw
    else
      var parts := NonBlank(Split(raw, ':'));
      if parts == [] then raw else parts[|parts| - 1]
  }

  function AsSessionKey(sessionId: string): string {
    var id := Trim(sessionId);
    if id == "" then "" else "agent" + [':'] + ("main" + [':'] + ("subagent" + [':'] + id))
  }

  lemma {:induction false} TrimStartChars(s: string, c: char)
    requires c !in s
    ensures c !in TrimStart(s)
  {
    if s != "" && Space(s[0]) {
      TrimStartChars(s[1..], c);
    }
  }

  lemma {:induction false} TrimEndChars(s: string, c: char)
    requires c !in s
    ensures c !in TrimEnd(s)
    decreases |s|
  {
    if s != "" && Space(s[|s| - 1]) {
      TrimEndChars(s[..|s| - 1], c);
    }
  }

  lemma {:induction false} NonBlankChars(parts: seq<string>, c: char)
    requires forall p :: p in parts ==> c !in p
    ensures forall p :: p in NonBlank(parts) ==> c !in p
  {
    if parts != [] {
      TrimStartChars(parts[0], c);
      TrimEndChars(TrimStart(parts[0]), c);
      NonBlankChars(parts[1..], c);
    }
  }

  /** Reading the id off what was read off a key gives the same id. */
  lemma SessionIdIsStable(value: string)
    ensures SessionIdFromKey(SessionIdFromKey(value)) == SessionIdFromKey(value)
  {
    var raw := Trim(value);
    TrimTrims(value);
    TrimTrims(raw);
    if raw != "" && ':' in raw {
      var parts := NonBlank(Split(raw, ':'));
      NonBlankChars(Split(raw, ':'), ':');
      if parts != [] {
        var id := parts[|parts| - 1];
        assert id in parts;
        TrimTrims(id);
      }
    }
  }

  lemma KeyParts(id: string)
    requires id != "" && Trimmed(id)
    ensures Split(AsSessionKey(id), ':') == ["agent"] + (["main"] + (["subagent"] + Split(id, ':')))
  {
    TrimTrims(id);
    SplitFirst("subagent", id, ':');
    SplitFirst("main", "subagent" + [':'] + id, ':');
    SplitFirst("agent", "main" + [':'] + ("subagent" + [':'] + id), ':');
  }

  lemma KeyIsTrimmed(id: string)
    requires id != "" && Trimmed(id)
    ensures Trim(AsSessionKey(id)) == AsSessionKey(id) != "" && ':' in AsSessionKey(id)
  {
    TrimTrims(id);
    var key := AsSessionKey(id);
    assert key[0] == 'a' && key[|key| - 1] == id[|id| - 1] && key[5] == ':';
    TrimTrims(key);
  }

  lemma NonBlankFirst(parts: seq<string>)
    requires parts != [] && parts[0] != "" && Trimmed(parts[0])
    ensures NonBlank(parts) == [parts[0]] + NonBlank(parts[1..])
  {
    TrimTrims(parts[0]);
  }

  lemma NonBlankAfter(first: string, rest: seq<string>)
    requires first != "" && Trimmed(first)
    ensures NonBlank([first] + rest) == [first] + NonBlank(rest)
  {
    NonBlankFirst([first] + rest);
    assert ([first] + rest)[1..] == rest;
  }

  lemma KeyNonBlank(rest: seq<string>)
    ensures NonBlank(["agent"] + (["main"] + (["subagent"] + rest))) ==
            ["agent"] + (["main"] + (["subagent"] + NonBlank(rest)))
  {
    NonBlankAfter("subagent", rest);
    NonBlankAfter("main", ["subagent"] + rest);
    NonBlankAfter("agent", ["main"] + (["subagent"] + rest));
  }

  function Last(parts: seq<string>): string
    requires parts != []
  {
    parts[|parts| - 1]
  }

  lemma LastAfterThree(first: string, second: string, third: string, kept: seq<string>)
    requires kept != []
    ensures Last([first] + ([second] + ([third] + kept))) == Last(kept)
  {
  }

  lemma ReadsLastPart(id: string)
    requires id != "" && Trimmed(id)
    ensures var parts := NonBlank(Split(AsSessionKey(id), ':'));
      parts == ["agent"] + (["main"] + (["subagent"] + NonBlank(Split(id, ':')))) &&
      SessionIdFromKey(AsSessionKey(id)) == Last(parts)
  {
    KeyParts(id);
    KeyIsTrimmed(id);
    KeyNonBlank(Split(id, ':'));
  }

  /** A trimmed, non-empty id is read back from its key exactly when it has no colon. */
  lemma SessionKeyRoundTrip(id: string)
    requires id != "" && Trimmed(id)
    ensures SessionIdFromKey(AsSessionKey(id)) == id <==> ':' !in id
  {
    ReadsLastPart(id);
    if ':' in id {
      var parts := NonBlank(Split(AsSessionKey(id), ':'));
      NonBlankChars(Split(AsSessionKey(id), ':'), ':');
      assert Last(parts) in parts;
    } else {
      assert Split(id, ':') == [id];
      NonBlankFirst([id]);
      LastAfterThree("agent", "main", "subagent", NonBlank([id]));
    }
  }

  /** What a key looks like. */
  lemma KeyIsWritten(id: string)
    requires id != "" && Trimmed(id)
    ensures AsSessionKey(id) == "agent:main:subagent:" + id
  {
    TrimTrims(id);
    assert "agent:main:subagent:" == "agent" + [':'] + ("main" + [':'] + ("subagent" + [':']));
  }

  // ----- Scopes of an emergency stop

  /** The valid scopes, in the order of their names; "all" stands alone. */
  datatype Scope = All | Actuation | Autonomy | Routing | Spine

  const ORDERED := [Actuation, Autonomy, Routing, Spine]

  function NameOf(s: Scope): string {
    match s
    case All => "all"
    case Actuation => "actuation"
    case Autonomy => "autonomy"
    case Routing => "routing"
    case Spine => "spine"
  }

  function ScopeOf(segment: string): Option<Scope> {
    var s := Lower(Trim(segment));
    if s == "all" then Some(All)
    else if s == "actuation" then Some(Actuation)
    else if s == "autonomy" then Some(Autonomy)
    else if s == "routing" then Some(Routing)
    else if s == "spine" then Some(Spine)
    else None
  }

  function Segments(items: seq<string>): seq<string> {
    if items == [] then [] else Segments(items[..|items| - 1]) + Split(items[|items| - 1], ',')
  }

  /** The scopes that the segments name. */
  function Named(segments: seq<string>): set<Scope> {
    if segments == [] then {}
    else
      var n := |segments| - 1;
      Named(segments[..n]) + if ScopeOf(segments[n]).Some? then {ScopeOf(segments[n]).value} else {}
  }

  function Select(scopes: seq<Scope>, wanted: set<Scope>): seq<Scope> {
    if scopes == [] then []
    else (if scopes[0] in wanted then [scopes[0]] else []) + Select(scopes[1..], wanted)
  }

  /** All scopes if "all" is named or nothing valid is, otherwise the named ones in order. */
  function Normal(wanted: set<Scope>): seq<Scope> {
    if wanted == {} || All in wanted then [All] else Select(ORDERED, wanted)
  }

  predicate Distinct(scopes: seq<Scope>) {
    forall i, j :: 0 <= i < j < |scopes| ==> scopes[i] != scopes[j]
  }

  predicate Holds(scopes: seq<Scope>, wanted: set<Scope>) {
    forall s :: s in scopes <==> s in wanted
  }

  lemma NamedConcat(a: seq<string>, b: seq<string>)
    ensures Named(a + b) == Named(a) + Named(b)
    decreases |b|
  {
    if b == [] {
      assert a + b == a;
    } else {
      NamedConcat(a, b[..|b| - 1]);
      assert (a + b)[..|a + b| - 1] == a + b[..|b| - 1];
    }
  }

  method AddNamed(found: seq<Scope>, segments: seq<string>, ghost before: set<Scope>) returns (more: seq<Scope>)
    requires Holds(found, before)
    ensures Holds(more, before + Named(segments))
  {
    more := found;
    for k := 0 to |segments|
      invariant Holds(more, before + Named(segments[..k]))
    {
      assert segments[..k + 1][..k] == segments[..k];
      var scope := ScopeOf(segments[k]);
      if scope.None? || scope.value in more { continue; }
      more := more + [scope.value];
    }
    assert segments[..|segments|] == segments;
  }

  method NormalizeScopes(items: seq<string>) returns (out: seq<Scope>)
    ensures out == Normal(Named(Segments(items)))
  {
    var found: seq<Scope> := [];
    for i := 0 to |items|
      invariant Holds(found, Named(Segments(items[..i])))
    {
      assert items[..i + 1][..i] == items[..i];
      NamedConcat(Segments(items[..i]), Split(items[i], ','));
      found := AddNamed(found, Split(items[i], ','), Named(Segments(items[..i])));
    }
    assert items[..|items|] == items;
    if found == [] || All in found {
      assert found != [] ==> found[0] in found;
      return [All];
    }
    assert found[0] in found;
    var wanted := set s | s in found;
    assert wanted == Named(Segments(items));
    out := Select(ORDERED, wanted);
  }

  lemma {:induction false} SelectSelects(scopes: seq<Scope>, wanted: set<Scope>)
    requires Distinct(scopes)
    ensures forall s :: s in Select(scopes, wanted) <==> s in scopes && s in wanted
    ensures Distinct(Select(scopes, wanted))
  {
    if scopes != [] {
      SelectSelects(scopes[1..], wanted);
    }
  }

  function NamesOf(scopes: seq<Scope>): (names: seq<string>)
    ensures |names| == |scopes| && forall i :: 0 <= i < |scopes| ==> names[i] == NameOf(scopes[i])
  {
    if scopes == [] then [] else [NameOf(scopes[0])] + NamesOf(scopes[1..])
  }

  lemma NameReadsBack(s: Scope)
    ensures ScopeOf(NameOf(s)) == Some(s) && ',' !in NameOf(s)
  {
    PlainName(s);
    PlainStays(NameOf(s));
  }

  lemma PlainName(s: Scope)
    ensures Plain(NameOf(s)) && ',' !in NameOf(s)
  {
  }

  lemma {:induction false} NamedNames(scopes: seq<Scope>)
    ensures Holds(scopes, Named(NamesOf(scopes)))
    decreases |scopes|
  {
    if scopes != [] {
      var n := |scopes| - 1;
      NamedNames(scopes[..n]);
      NameReadsBack(scopes[n]);
      NamesOfMore(scopes);
      NamedLast(NamesOf(scopes), NamesOf(scopes[..n]), scopes[n]);
    }
  }

  lemma SameEntries<T>(a: seq<T>, b: seq<T>)
    requires |a| == |b| && forall i :: 0 <= i < |a| ==> a[i] == b[i]
    ensures a == b
  {
  }

  lemma NamesOfMore(scopes: seq<Scope>)
    requires scopes != []
    ensures NamesOf(scopes) == NamesOf(scopes[..|scopes| - 1]) + [NameOf(scopes[|scopes| - 1])]
  {
    var n := |scopes| - 1;
    SameEntries(NamesOf(scopes), NamesOf(scopes[..n]) + [NameOf(scopes[n])]);
  }

  lemma NamedLast(names: seq<string>, before: seq<string>, last: Scope)
    requires names == before + [NameOf(last)] && ScopeOf(NameOf(last)) == Some(last)
    ensures Named(names) == Named(before) + {last}
  {
    assert names[..|names| - 1] == before;
  }

  lemma NormalHolds(wanted: set<Scope>)
    ensures Distinct(Normal(wanted)) && (Normal(wanted) == [All] <==> wanted == {} || All in wanted)
    ensures Normal(wanted) != [] && (Normal(wanted) != [All] ==> Holds(Normal(wanted), wanted))
  {
    SelectSelects(ORDERED, wanted);
    if wanted != {} && All !in wanted {
      OrderedHasAll();
      var s :| s in wanted;
      assert s in Normal(wanted);
    }
  }

  lemma OrderedHasAll()
    ensures forall s :: s in ORDERED <==> s != All
  {
    assert ORDERED[0] == Actuation && ORDERED[1] == Autonomy && ORDERED[2] == Routing && ORDERED[3] == Spine;
  }

  lemma JoinedNames(scopes: seq<Scope>)
    requires scopes != []
    ensures Holds(scopes, Named(Segments([Join(NamesOf(scopes), ',')])))
  {
    var names := NamesOf(scopes);
    forall p | p in names
      ensures ',' !in p
    {
      var i :| 0 <= i < |scopes| && names[i] == p;
      NameReadsBack(scopes[i]);
    }
    SplitJoin(names, ',');
    NamedNames(scopes);
    var text := Join(names, ',');
    assert [text][..0] == [] && Segments([text]) == [] + Split(text, ',') == names;
  }

  /** Normalised scopes are distinct, are just "all" or exactly the named ones without it, and come out
      the same when they are joined with commas and normalised again. */
  lemma ScopesRoundTrip(items: seq<string>)
    ensures var wanted := Named(Segments(items));
      var out := Normal(wanted);
      && Distinct(out)
      && (out == [All] <==> wanted == {} || All in wanted)
      && (out != [All] ==> Holds(out, wanted))
      && Normal(Named(Segments([Join(NamesOf(out), ',')]))) == out
  {
    var wanted := Named(Segments(items));
    var out := Normal(wanted);
    NormalHolds(wanted);
    JoinedNames(out);
    var again := Named(Segments([Join(NamesOf(out), ',')]));
    assert out == [All] ==> out[0] in again;
    assert out != [All] ==> again == wanted;
  }

  /** The scopes by name, which is how they are written and read. */
  lemma ScopesByName()
    ensures NameOf(All) == "all" && NameOf(Actuation) == "actuation" && NameOf(Autonomy) == "autonomy"
    ensures NameOf(Routing) == "routing" && NameOf(Spine) == "spine"
    ensures forall s :: ScopeOf(NameOf(s)) == Some(s)
  {
    forall s {
      NameReadsBack(s);
    }
  }

  /** A segment names a scope exactly if it is the scope's name up to case and the spaces around it. */
  lemma SegmentNamesScope(segment: string, s: Scope)
    ensures ScopeOf(segment) == Some(s) <==> Lower(Trim(segment)) == NameOf(s)
  {
    if Lower(Trim(segment)) == NameOf(s) {
      NameReadsBack(s);
      PlainName(s);
      PlainStays(NameOf(s));
    }
  }

  /** The names agree before character i, where a has the smaller one. */
  predicate SortsBefore(a: string, b: string, i: nat) {
    i < |a| && i < |b| && a[i] < b[i] && forall j :: 0 <= j < i ==> a[j] == b[j]
  }

  /** The first character in which the names of two scopes other than "all" differ. */
  function DiffersAt(a: Scope, b: Scope): nat {
    if a.Actuation? && b.Autonomy? then 1 else 0
  }

  lemma OrderedSorts(i: nat, j: nat)
    requires i < j < 4
    ensures SortsBefore(NameOf(ORDERED[i]), NameOf(ORDERED[j]), DiffersAt(ORDERED[i], ORDERED[j]))
  {
    var a, b := NameOf(ORDERED[i]), NameOf(ORDERED[j]);
    assert a[0] == 'a' || a[0] == 'r';
    assert j == 1 ==> a[1] == 'c' && b[1] == 'u';
  }

  /** Selected entries are entries of the list, in its order. */
  lemma {:induction false} SelectFrom(scopes: seq<Scope>, wanted: set<Scope>, i: nat, j: nat) returns (p: nat, q: nat)
    requires i < j < |Select(scopes, wanted)|
    ensures p < q < |scopes| && scopes[p] == Select(scopes, wanted)[i] && scopes[q] == Select(scopes, wanted)[j]
  {
    if scopes[0] !in wanted {
      p, q := SelectFrom(scopes[1..], wanted, i, j);
      p, q := p + 1, q + 1;
    } else if i > 0 {
      p, q := SelectFrom(scopes[1..], wanted, i - 1, j - 1);
      p, q := p + 1, q + 1;
    } else {
      p := 0;
      var rest := Select(scopes[1..], wanted);
      assert rest[j - 1] in rest;
      SelectIsOf(scopes[1..], wanted, rest[j - 1]);
      var k :| 0 <= k < |scopes[1..]| && scopes[1..][k] == rest[j - 1];
      q := k + 1;
    }
  }

  lemma {:induction false} SelectIsOf(scopes: seq<Scope>, wanted: set<Scope>, s: Scope)
    requires s in Select(scopes, wanted)
    ensures s in scopes
  {
    if s != scopes[0] || scopes[0] !in wanted {
      SelectIsOf(scopes[1..], wanted, s);
    }
  }

  /** Normalised scopes come out sorted by their names. */
  lemma NormalIsSorted(wanted: set<Scope>, i: nat, j: nat)
    requires i < j < |Normal(wanted)|
    ensures exists at: nat :: SortsBefore(NameOf(Normal(wanted)[i]), NameOf(Normal(wanted)[j]), at)
  {
    var p, q := SelectFrom(ORDERED, wanted, i, j);
    OrderedSorts(p, q);
  }
}
