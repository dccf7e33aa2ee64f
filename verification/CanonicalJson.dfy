/** Canonical JSON text. Two printers of the repository sort object keys at every depth before they
    hash: one writes the text directly, the other rebuilds the value and prints that. Both are compared
    with what a value denotes when the order of its members does not matter. */
module CanonicalJson {
  import opened Json

  // ----- What a value denotes: objects are maps

  datatype Meaning =
    | MNull
    | MBool(b: bool)
    | MNum(lexeme: Text)
    | MStr(text: Text)
    | MArr(items: seq<Meaning>)
    | MObj(members: map<Text, Meaning>)

  function Denote(v: Value): Meaning
    decreases v
  {
    match v
    case Null => MNull
    case Bool(b) => MBool(b)
    case Num(lexeme) => MNum(lexeme)
    case Str(text) => MStr(text)
    case Arr(items) => MArr(DenoteItems(items))
    case Obj(members) => MObj(DenoteMembers(members))
  }

  function DenoteItems(items: seq<Value>): seq<Meaning>
    decreases items
  {
    if items == [] then [] else [Denote(items[0])] + DenoteItems(items[1..])
  }

  function DenoteMembers(members: seq<Member>): map<Text, Meaning>
    decreases members
  {
    if members == [] then map[]
    else DenoteMembers(members[1..])[members[0].key := Denote(members[0].value)]
  }

  // ----- Sorting by key

  ghost predicate TotalOrder(le: (Text, Text) -> bool) {
    (forall a, b :: le(a, b) || le(b, a)) &&
    (forall a, b :: le(a, b) && le(b, a) ==> a == b) &&
    (forall a, b, c :: le(a, b) && le(b, c) ==> le(a, c))
  }

  function Insert(le: (Text, Text) -> bool, m: Member, sorted: seq<Member>): (r: seq<Member>)
    ensures |r| == |sorted| + 1 && forall n :: n in r <==> n == m || n in sorted
  {
    if sorted == [] || le(m.key, sorted[0].key) then [m] + sorted
    else [sorted[0]] + Insert(le, m, sorted[1..])
  }

  function Sort(le: (Text, Text) -> bool, members: seq<Member>): (r: seq<Member>)
    ensures |r| == |members| && forall m :: m in r <==> m in members
  {
    if members == [] then [] else Insert(le, members[0], Sort(le, members[1..]))
  }

  function InsertKey(le: (Text, Text) -> bool, key: Text, sorted: seq<Text>): (r: seq<Text>)
    ensures forall k :: k in r <==> k == key || k in sorted
  {
    if sorted == [] || le(key, sorted[0]) then [key] + sorted
    else [sorted[0]] + InsertKey(le, key, sorted[1..])
  }

  function SortKeys(le: (Text, Text) -> bool, keys: seq<Text>): (r: seq<Text>)
    ensures forall k :: k in r <==> k in keys
  {
    if keys == [] then [] else InsertKey(le, keys[0], SortKeys(le, keys[1..]))
  }

  predicate Ascending(le: (Text, Text) -> bool, members: seq<Member>) {
    forall i, j :: 0 <= i < j < |members| ==> le(members[i].key, members[j].key)
  }

  /** The order in which JavaScript sorts strings by default: code unit by code unit. */
  predicate CodeUnitOrder(a: Text, b: Text)
    decreases |a|
  {
    a == [] || (b != [] && (a[0] < b[0] || (a[0] == b[0] && CodeUnitOrder(a[1..], b[1..]))))
  }

  // ----- The two printers

  /** The rebuilt value: members sorted by key at every depth. */
  function Normalize(le: (Text, Text) -> bool, v: Value): Value
    decreases v
  {
    match v
    case Arr(items) => Arr(NormalizeItems(le, items))
    case Obj(members) => Obj(Sort(le, NormalizeMembers(le, members)))
    case _ => v
  }

  function NormalizeItems(le: (Text, Text) -> bool, items: seq<Value>): (r: seq<Value>)
    ensures |r| == |items| && forall i :: 0 <= i < |items| ==> r[i] == Normalize(le, items[i])
    decreases items
  {
    if items == [] then [] else [Normalize(le, items[0])] + NormalizeItems(le, items[1..])
  }

  function NormalizeMembers(le: (Text, Text) -> bool, members: seq<Member>): (r: seq<Member>)
    ensures |r| == |members|
    ensures forall i :: 0 <= i < |members| ==> r[i] == Member(members[i].key, Normalize(le, members[i].value))
    decreases members
  {
    if members == [] then []
    else [Member(members[0].key, Normalize(le, members[0].value))] + NormalizeMembers(le, members[1..])
  }

  function CanonicalText(le: (Text, Text) -> bool, v: Value): Text {
    Print(Normalize(le, v))
  }

  function Keys(members: seq<Member>): (keys: seq<Text>)
    ensures |keys| == |members| && forall i :: 0 <= i < |members| ==> keys[i] == members[i].key
  {
    if members == [] then [] else [members[0].key] + Keys(members[1..])
  }

  function Lookup(members: seq<Member>, key: Text): (v: Value)
    requires key in Keys(members)
    ensures Member(key, v) in members
  {
    if members[0].key == key then members[0].value else Lookup(members[1..], key)
  }

  function StableStringify(v: Value): Text
    decreases v, 0
  {
    match v
    case Arr(items) => [OPEN_BRACKET] + StableItems(items) + [CLOSE_BRACKET]
    case Obj(members) =>
      [OPEN_BRACE] + StableMembers(members, SortKeys(CodeUnitOrder, Keys(members))) + [CLOSE_BRACE]
    case _ => Print(v)
  }

  function StableItems(items: seq<Value>): Text
    decreases items, 0
  {
    if items == [] then []
    else StableStringify(items[0]) + if |items| == 1 then [] else [COMMA] + StableItems(items[1..])
  }

  function StableMembers(members: seq<Member>, keys: seq<Text>): Text
    requires forall k :: k in keys ==> k in Keys(members)
    decreases members, |keys|
  {
    if keys == [] then []
    else
      Quote(keys[0]) + [COLON] + StableStringify(Lookup(members, keys[0])) +
      if |keys| == 1 then [] else [COMMA] + StableMembers(members, keys[1..])
  }

  // ----- The order of code units is a total order

  lemma {:induction false} CodeUnitAntisymmetric(a: Text, b: Text)
    ensures CodeUnitOrder(a, b) || CodeUnitOrder(b, a)
    ensures CodeUnitOrder(a, b) && CodeUnitOrder(b, a) ==> a == b
    decreases |a|
  {
    if a != [] && b != [] && a[0] == b[0] {
      CodeUnitAntisymmetric(a[1..], b[1..]);
      assert a == [a[0]] + a[1..] && b == [b[0]] + b[1..];
    }
  }

  lemma {:induction false} CodeUnitTransitive(a: Text, b: Text, c: Text)
    requires CodeUnitOrder(a, b) && CodeUnitOrder(b, c)
    ensures CodeUnitOrder(a, c)
    decreases |a|
  {
    if a != [] && a[0] == b[0] && b[0] == c[0] {
      CodeUnitTransitive(a[1..], b[1..], c[1..]);
    }
  }

  lemma CodeUnitTotal()
    ensures TotalOrder(CodeUnitOrder)
  {
    forall a: Text, b: Text
      ensures (CodeUnitOrder(a, b) || CodeUnitOrder(b, a)) && (CodeUnitOrder(a, b) && CodeUnitOrder(b, a) ==> a == b)
    {
      CodeUnitAntisymmetric(a, b);
    }
    forall a: Text, b: Text, c: Text | CodeUnitOrder(a, b) && CodeUnitOrder(b, c)
      ensures CodeUnitOrder(a, c)
    {
      CodeUnitTransitive(a, b, c);
    }
  }

  // ----- Sorting

  lemma {:induction false} InsertSorts(le: (Text, Text) -> bool, m: Member, sorted: seq<Member>)
    requires TotalOrder(le) && Ascending(le, sorted)
    ensures Ascending(le, Insert(le, m, sorted))
  {
    if sorted != [] && !le(m.key, sorted[0].key) {
      InsertSorts(le, m, sorted[1..]);
      var rest := Insert(le, m, sorted[1..]);
      forall i | 0 <= i < |rest|
        ensures le(sorted[0].key, rest[i].key)
      {
        assert rest[i] in rest;
      }
    }
  }

  lemma {:induction false} SortSorts(le: (Text, Text) -> bool, members: seq<Member>)
    requires TotalOrder(le)
    ensures Ascending(le, Sort(le, members))
  {
    if members != [] {
      SortSorts(le, members[1..]);
      InsertSorts(le, members[0], Sort(le, members[1..]));
    }
  }

  lemma {:induction false} InsertDistinct(le: (Text, Text) -> bool, m: Member, sorted: seq<Member>)
    requires DistinctKeys(sorted) && forall n :: n in sorted ==> n.key != m.key
    ensures DistinctKeys(Insert(le, m, sorted))
  {
    if sorted != [] && !le(m.key, sorted[0].key) {
      InsertDistinct(le, m, sorted[1..]);
      var rest := Insert(le, m, sorted[1..]);
      forall i | 0 <= i < |rest|
        ensures rest[i].key != sorted[0].key
      {
        assert rest[i] in rest;
      }
    }
  }

  lemma {:induction false} SortDistinct(le: (Text, Text) -> bool, members: seq<Member>)
    requires DistinctKeys(members)
    ensures DistinctKeys(Sort(le, members))
  {
    if members != [] {
      SortDistinct(le, members[1..]);
      InsertDistinct(le, members[0], Sort(le, members[1..]));
    }
  }

  lemma {:induction false} InsertMatchesKeys(le: (Text, Text) -> bool, m: Member, sorted: seq<Member>)
    ensures Keys(Insert(le, m, sorted)) == InsertKey(le, m.key, Keys(sorted))
  {
    if sorted != [] && !le(m.key, sorted[0].key) {
      InsertMatchesKeys(le, m, sorted[1..]);
    }
  }

  lemma {:induction false} SortMatchesKeys(le: (Text, Text) -> bool, members: seq<Member>)
    ensures Keys(Sort(le, members)) == SortKeys(le, Keys(members))
  {
    if members != [] {
      SortMatchesKeys(le, members[1..]);
      InsertMatchesKeys(le, members[0], Sort(le, members[1..]));
    }
  }

  lemma AnyOf(members: seq<Member>) returns (m: Member)
    requires members != []
    ensures m in members
  {
    m := members[0];
  }

  /** Sorted members with distinct keys are determined by what they are. */
  lemma {:induction false} SortedUnique(le: (Text, Text) -> bool, s: seq<Member>, t: seq<Member>)
    requires TotalOrder(le) && Ascending(le, s) && Ascending(le, t) && DistinctKeys(s) && DistinctKeys(t)
    requires forall m :: m in s <==> m in t
    ensures s == t
  {
    if s == [] {
      if t != [] {
        var m := AnyOf(t);
        assert false;
      }
    } else {
      assert s[0] in t && t[0] in s;
      assert le(t[0].key, s[0].key) && le(s[0].key, t[0].key);
      assert s[0] == t[0];
      assert s == [s[0]] + s[1..] && t == [t[0]] + t[1..];
      forall m
        ensures m in s[1..] <==> m in t[1..]
      {
        assert m in s[1..] ==> m in s && m.key != s[0].key;
        assert m in t[1..] ==> m in t && m.key != t[0].key;
      }
      SortedUnique(le, s[1..], t[1..]);
    }
  }

  // ----- Sorting does not change the meaning

  lemma {:induction false} MeaningOfMembers(members: seq<Member>)
    requires DistinctKeys(members)
    ensures forall k :: k in DenoteMembers(members) <==> k in Keys(members)
    ensures forall i :: 0 <= i < |members| ==>
      members[i].key in DenoteMembers(members) && DenoteMembers(members)[members[i].key] == Denote(members[i].value)
  {
    if members != [] {
      MeaningOfMembers(members[1..]);
      assert Keys(members) == [members[0].key] + Keys(members[1..]);
    }
  }

  lemma SameKeys(members: seq<Member>, others: seq<Member>)
    requires forall m :: m in members <==> m in others
    ensures forall k :: k in Keys(members) <==> k in Keys(others)
  {
    forall k
      ensures k in Keys(members) <==> k in Keys(others)
    {
      if k in Keys(members) {
        var i :| 0 <= i < |members| && Keys(members)[i] == k;
        assert members[i] in others;
      }
      if k in Keys(others) {
        var i :| 0 <= i < |others| && Keys(others)[i] == k;
        assert others[i] in members;
      }
    }
  }

  lemma {:induction false} NormalizeKeepsMeaning(le: (Text, Text) -> bool, v: Value)
    requires WellFormed(v)
    ensures WellFormed(Normalize(le, v)) && Denote(Normalize(le, v)) == Denote(v)
    decreases v, 1
  {
    match v
    case Arr(items) => NormalizeItemsKeep(le, items);
    case Obj(members) =>
      forall i | 0 <= i < |members|
        ensures WellFormed(Normalize(le, members[i].value))
        ensures Denote(Normalize(le, members[i].value)) == Denote(members[i].value)
      {
        NormalizeKeepsMeaning(le, members[i].value);
      }
      NormalizeMembersKeep(le, members);
    case _ =>
  }

  lemma {:induction false} NormalizeItemsKeep(le: (Text, Text) -> bool, items: seq<Value>)
    requires forall v :: v in items ==> WellFormed(v)
    ensures forall i :: 0 <= i < |items| ==> WellFormed(NormalizeItems(le, items)[i])
    ensures DenoteItems(NormalizeItems(le, items)) == DenoteItems(items)
    decreases items, 0
  {
    if items != [] {
      NormalizeKeepsMeaning(le, items[0]);
      NormalizeItemsKeep(le, items[1..]);
    }
  }

  /** The meaning of an object depends on its entries only, not on their order. */
  lemma MeaningIgnoresOrder(a: seq<Member>, b: seq<Member>)
    requires DistinctKeys(a) && DistinctKeys(b) && forall m :: m in a <==> m in b
    ensures DenoteMembers(a) == DenoteMembers(b)
  {
    MeaningOfMembers(a);
    MeaningOfMembers(b);
    SameKeys(a, b);
    forall k | k in DenoteMembers(a)
      ensures DenoteMembers(a)[k] == DenoteMembers(b)[k]
    {
      var i :| 0 <= i < |a| && Keys(a)[i] == k;
      assert a[i] in b;
    }
  }

  lemma {:induction false} MeaningOfNormalMembers(le: (Text, Text) -> bool, members: seq<Member>)
    requires forall i :: 0 <= i < |members| ==> Denote(Normalize(le, members[i].value)) == Denote(members[i].value)
    ensures DenoteMembers(NormalizeMembers(le, members)) == DenoteMembers(members)
  {
    if members != [] {
      MeaningOfNormalMembers(le, members[1..]);
    }
  }

  lemma NormalizeMembersKeep(le: (Text, Text) -> bool, members: seq<Member>)
    requires DistinctKeys(members)
    requires forall i :: 0 <= i < |members| ==>
      WellFormed(Normalize(le, members[i].value)) &&
      Denote(Normalize(le, members[i].value)) == Denote(members[i].value)
    ensures var sorted := Sort(le, NormalizeMembers(le, members));
      DistinctKeys(sorted) && (forall i :: 0 <= i < |sorted| ==> WellFormed(sorted[i].value)) &&
      DenoteMembers(sorted) == DenoteMembers(members)
  {
    var normal := NormalizeMembers(le, members);
    var sorted := Sort(le, normal);
    SortDistinct(le, normal);
    MeaningIgnoresOrder(sorted, normal);
    MeaningOfNormalMembers(le, members);
    forall i | 0 <= i < |sorted|
      ensures WellFormed(sorted[i].value)
    {
      assert sorted[i] in normal;
    }
  }

  // ----- Equal meanings give equal normal forms

  lemma {:induction false} SameMeaningSameNormal(le: (Text, Text) -> bool, a: Value, b: Value)
    requires TotalOrder(le) && WellFormed(a) && WellFormed(b) && Denote(a) == Denote(b)
    ensures Normalize(le, a) == Normalize(le, b)
    decreases a, 1
  {
    match a
    case Arr(items) => SameItems(le, items, b.items);
    case Obj(members) =>
      forall i, j | 0 <= i < |members| && 0 <= j < |b.members| && Denote(members[i].value) == Denote(b.members[j].value)
        ensures Normalize(le, members[i].value) == Normalize(le, b.members[j].value)
      {
        SameMeaningSameNormal(le, members[i].value, b.members[j].value);
      }
      SameMembers(le, members, b.members);
    case _ =>
  }

  lemma {:induction false} SameItems(le: (Text, Text) -> bool, a: seq<Value>, b: seq<Value>)
    requires TotalOrder(le) && (forall v :: v in a ==> WellFormed(v)) && (forall v :: v in b ==> WellFormed(v))
    requires DenoteItems(a) == DenoteItems(b)
    ensures NormalizeItems(le, a) == NormalizeItems(le, b)
    decreases a, 0
  {
    if a != [] && b != [] {
      assert DenoteItems(a)[0] == Denote(a[0]) && DenoteItems(b)[0] == Denote(b[0]);
      assert DenoteItems(a)[1..] == DenoteItems(a[1..]) && DenoteItems(b)[1..] == DenoteItems(b[1..]);
      SameMeaningSameNormal(le, a[0], b[0]);
      SameItems(le, a[1..], b[1..]);
    }
  }

  lemma SameMembers(le: (Text, Text) -> bool, a: seq<Member>, b: seq<Member>)
    requires TotalOrder(le) && DistinctKeys(a) && DistinctKeys(b) && DenoteMembers(a) == DenoteMembers(b)
    requires forall i, j :: 0 <= i < |a| && 0 <= j < |b| && Denote(a[i].value) == Denote(b[j].value) ==>
      Normalize(le, a[i].value) == Normalize(le, b[j].value)
    ensures Sort(le, NormalizeMembers(le, a)) == Sort(le, NormalizeMembers(le, b))
  {
    var na, nb := NormalizeMembers(le, a), NormalizeMembers(le, b);
    MeaningOfMembers(a);
    MeaningOfMembers(b);
    forall i | 0 <= i < |a|
      ensures na[i] in nb
    {
      assert a[i].key in Keys(b);
      var j :| 0 <= j < |b| && Keys(b)[j] == a[i].key;
      assert nb[j] == na[i];
    }
    forall j | 0 <= j < |b|
      ensures nb[j] in na
    {
      assert b[j].key in Keys(a);
      var i :| 0 <= i < |a| && Keys(a)[i] == b[j].key;
      assert na[i] == nb[j];
    }
    SortSorts(le, na);
    SortSorts(le, nb);
    SortDistinct(le, na);
    SortDistinct(le, nb);
    SortedUnique(le, Sort(le, na), Sort(le, nb));
  }

  // ----- Main results

  /** Rebuilding with sorted keys is idempotent, keeps the meaning, and gives two values the same
      result exactly when they are equal up to the order of members at every depth. */
  lemma NormalFormIsCanonical(le: (Text, Text) -> bool, a: Value, b: Value)
    requires TotalOrder(le) && WellFormed(a) && WellFormed(b)
    ensures Normalize(le, Normalize(le, a)) == Normalize(le, a)
    ensures Denote(Normalize(le, a)) == Denote(a)
    ensures Normalize(le, a) == Normalize(le, b) <==> Denote(a) == Denote(b)
  {
    NormalizeKeepsMeaning(le, a);
    NormalizeKeepsMeaning(le, b);
    SameMeaningSameNormal(le, Normalize(le, a), a);
    if Denote(a) == Denote(b) {
      SameMeaningSameNormal(le, a, b);
    }
  }

  /** So is its text, whatever total order sorts the keys. */
  lemma CanonicalTextIsCanonical(le: (Text, Text) -> bool, a: Value, b: Value)
    requires TotalOrder(le) && WellFormed(a) && WellFormed(b)
    ensures CanonicalText(le, a) == CanonicalText(le, b) <==> Denote(a) == Denote(b)
  {
    NormalFormIsCanonical(le, a, b);
    NormalizeKeepsMeaning(le, a);
    NormalizeKeepsMeaning(le, b);
    if CanonicalText(le, a) == CanonicalText(le, b) {
      PrintIsInjective(Normalize(le, a), Normalize(le, b));
    }
  }

  /** The direct printer writes the text of the rebuilt value. */
  lemma {:induction false} StableIsCanonical(v: Value)
    requires WellFormed(v)
    ensures StableStringify(v) == CanonicalText(CodeUnitOrder, v)
    decreases v, 1
  {
    match v
    case Arr(items) => StableItemsPrint(items);
    case Obj(members) =>
      SortedEntries(members);
      StableMembersPrint(members, Sort(CodeUnitOrder, NormalizeMembers(CodeUnitOrder, members)));
    case _ =>
  }

  /** The sorted keys name the sorted entries. */
  lemma SortedEntries(members: seq<Member>)
    requires DistinctKeys(members)
    ensures var sorted := Sort(CodeUnitOrder, NormalizeMembers(CodeUnitOrder, members));
      Keys(sorted) == SortKeys(CodeUnitOrder, Keys(members)) &&
      forall i :: 0 <= i < |sorted| ==>
        sorted[i].key in Keys(members) && sorted[i].value == Normalize(CodeUnitOrder, Lookup(members, sorted[i].key))
  {
    var normal := NormalizeMembers(CodeUnitOrder, members);
    var sorted := Sort(CodeUnitOrder, normal);
    SortMatchesKeys(CodeUnitOrder, normal);
    assert Keys(normal) == Keys(members);
    forall i | 0 <= i < |sorted|
      ensures sorted[i].key in Keys(members)
      ensures sorted[i].value == Normalize(CodeUnitOrder, Lookup(members, sorted[i].key))
    {
      assert sorted[i] in normal;
      var j :| 0 <= j < |members| && normal[j] == sorted[i];
      assert Keys(members)[j] == sorted[i].key;
      assert Member(sorted[i].key, Lookup(members, sorted[i].key)) in members;
    }
  }

  lemma {:induction false} StableItemsPrint(items: seq<Value>)
    requires forall v :: v in items ==> WellFormed(v)
    ensures StableItems(items) == PrintItems(NormalizeItems(CodeUnitOrder, items))
    decreases items, 0
  {
    if items != [] {
      StableIsCanonical(items[0]);
      StableItemsPrint(items[1..]);
    }
  }

  lemma {:induction false} StableMembersPrint(members: seq<Member>, sorted: seq<Member>)
    requires forall m :: m in members ==> WellFormed(m.value)
    requires forall i :: 0 <= i < |sorted| ==>
      sorted[i].key in Keys(members) && sorted[i].value == Normalize(CodeUnitOrder, Lookup(members, sorted[i].key))
    ensures StableMembers(members, Keys(sorted)) == PrintMembers(sorted)
    decreases members, 0, |sorted|
  {
    if sorted != [] {
      assert Keys(sorted)[1..] == Keys(sorted[1..]);
      StableIsCanonical(Lookup(members, sorted[0].key));
      StableMembersPrint(members, sorted[1..]);
    }
  }

  /** `stableStringify` is canonical and injective: two values get the same text exactly when they are
      equal up to the order of members at every depth. */
  lemma StableStringifyIsCanonical(a: Value, b: Value)
    requires WellFormed(a) && WellFormed(b)
    ensures StableStringify(a) == StableStringify(b) <==> Denote(a) == Denote(b)
  {
    CodeUnitTotal();
    StableIsCanonical(a);
    StableIsCanonical(b);
    CanonicalTextIsCanonical(CodeUnitOrder, a, b);
  }

  // ----- Which order it is

  /** The texts agree before unit i, and there a ends while b goes on, or a has the smaller unit. */
  predicate FirstDifference(a: Text, b: Text, i: nat) {
    i <= |a| && i <= |b| && a[..i] == b[..i] &&
    ((i == |a| && i < |b|) || (i < |a| && i < |b| && a[i] < b[i]))
  }

  ghost predicate Before(a: Text, b: Text) {
    exists i: nat :: FirstDifference(a, b, i)
  }

  lemma {:induction false} FindDifference(a: Text, b: Text) returns (i: nat)
    requires a != b && CodeUnitOrder(a, b)
    ensures FirstDifference(a, b, i)
    decreases |a|
  {
    if a == [] || a[0] < b[0] {
      i := 0;
    } else {
      assert a == [a[0]] + a[1..] && b == [b[0]] + b[1..];
      var j := FindDifference(a[1..], b[1..]);
      i := j + 1;
      assert a[..i] == [a[0]] + a[1..][..j] && b[..i] == [b[0]] + b[1..][..j];
    }
  }

  lemma {:induction false} DifferenceDecides(a: Text, b: Text, i: nat)
    requires FirstDifference(a, b, i)
    ensures CodeUnitOrder(a, b) && a != b
    decreases i
  {
    if i > 0 {
      assert a[0] == a[..i][0] == b[..i][0] == b[0];
      assert a[1..][..i - 1] == a[..i][1..] && b[1..][..i - 1] == b[..i][1..];
      DifferenceDecides(a[1..], b[1..], i - 1);
    }
  }

  /** The default order puts a proper prefix first, and otherwise decides by the first unit that
      differs, the smaller one first. */
  lemma CodeUnitOrderIsBefore(a: Text, b: Text)
    requires a != b
    ensures CodeUnitOrder(a, b) <==> Before(a, b)
  {
    if CodeUnitOrder(a, b) {
      var i := FindDifference(a, b);
    }
    if Before(a, b) {
      var i: nat :| FirstDifference(a, b, i);
      DifferenceDecides(a, b, i);
    }
  }

  /** In every object, at any depth, each key comes before the next in that order. */
  ghost predicate KeysAscend(v: Value)
    decreases v
  {
    match v
    case Arr(items) => forall i :: 0 <= i < |items| ==> KeysAscend(items[i])
    case Obj(members) =>
      (forall i :: 0 <= i < |members| ==> KeysAscend(members[i].value)) &&
      (forall i :: 0 < i < |members| ==> Before(members[i - 1].key, members[i].key))
    case _ => true
  }

  lemma SortedKeysAscend(members: seq<Member>)
    requires DistinctKeys(members)
    ensures var sorted := Sort(CodeUnitOrder, members);
      forall i :: 0 < i < |sorted| ==> Before(sorted[i - 1].key, sorted[i].key)
  {
    var sorted := Sort(CodeUnitOrder, members);
    CodeUnitTotal();
    SortSorts(CodeUnitOrder, members);
    SortDistinct(CodeUnitOrder, members);
    forall i | 0 < i < |sorted|
      ensures Before(sorted[i - 1].key, sorted[i].key)
    {
      CodeUnitOrderIsBefore(sorted[i - 1].key, sorted[i].key);
    }
  }

  lemma {:induction false} NormalFormAscends(v: Value)
    requires WellFormed(v)
    ensures KeysAscend(Normalize(CodeUnitOrder, v))
    decreases v
  {
    match v
    case Arr(items) =>
      forall i | 0 <= i < |items|
        ensures KeysAscend(Normalize(CodeUnitOrder, items[i]))
      {
        NormalFormAscends(items[i]);
      }
    case Obj(members) =>
      forall i | 0 <= i < |members|
        ensures KeysAscend(Normalize(CodeUnitOrder, members[i].value))
      {
        NormalFormAscends(members[i].value);
      }
      MembersAscend(NormalizeMembers(CodeUnitOrder, members));
    case _ =>
  }

  lemma MembersAscend(normal: seq<Member>)
    requires DistinctKeys(normal) && forall i :: 0 <= i < |normal| ==> KeysAscend(normal[i].value)
    ensures KeysAscend(Obj(Sort(CodeUnitOrder, normal)))
  {
    var sorted := Sort(CodeUnitOrder, normal);
    SortedKeysAscend(normal);
    forall i | 0 <= i < |sorted|
      ensures KeysAscend(sorted[i].value)
    {
      assert sorted[i] in normal;
    }
  }

  /** What `stableStringify` writes is the JSON text of exactly one value: the one that means the same and
      whose keys ascend, code unit by code unit, in every object. */
  lemma StableStringifyAscends(v: Value, u: Value)
    requires WellFormed(v) && WellFormed(u)
    ensures StableStringify(v) == Print(u) <==> KeysAscend(u) && Denote(u) == Denote(v)
  {
    CodeUnitTotal();
    StableIsCanonical(v);
    NormalFormAscends(v);
    NormalizeKeepsMeaning(CodeUnitOrder, v);
    if StableStringify(v) == Print(u) {
      PrintIsInjective(u, Normalize(CodeUnitOrder, v));
    }
    if KeysAscend(u) && Denote(u) == Denote(v) {
      AscendingIsNormal(u);
      SameMeaningSameNormal(CodeUnitOrder, u, v);
    }
  }

  /** Keys that ascend from each to the next are in order already. */
  lemma {:induction false} BeforeAscends(members: seq<Member>, i: nat, j: nat)
    requires i < j < |members| && forall k :: 0 < k < |members| ==> Before(members[k - 1].key, members[k].key)
    ensures CodeUnitOrder(members[i].key, members[j].key)
    decreases j
  {
    var k: nat :| FirstDifference(members[j - 1].key, members[j].key, k);
    DifferenceDecides(members[j - 1].key, members[j].key, k);
    if i < j - 1 {
      BeforeAscends(members, i, j - 1);
      CodeUnitTransitive(members[i].key, members[j - 1].key, members[j].key);
    }
  }

  lemma {:induction false} AscendingIsNormal(u: Value)
    requires WellFormed(u) && KeysAscend(u)
    ensures Normalize(CodeUnitOrder, u) == u
    decreases u
  {
    match u
    case Arr(items) =>
      forall i | 0 <= i < |items|
        ensures Normalize(CodeUnitOrder, items[i]) == items[i]
      {
        AscendingIsNormal(items[i]);
      }
      assert NormalizeItems(CodeUnitOrder, items) == items;
    case Obj(members) =>
      forall i | 0 <= i < |members|
        ensures Normalize(CodeUnitOrder, members[i].value) == members[i].value
      {
        AscendingIsNormal(members[i].value);
      }
      assert NormalizeMembers(CodeUnitOrder, members) == members;
      SortedStays(members);
    case _ =>
  }

  lemma SortedStays(members: seq<Member>)
    requires DistinctKeys(members)
    requires forall k :: 0 < k < |members| ==> Before(members[k - 1].key, members[k].key)
    ensures Sort(CodeUnitOrder, members) == members
  {
    CodeUnitTotal();
    SortSorts(CodeUnitOrder, members);
    SortDistinct(CodeUnitOrder, members);
    forall i, j | 0 <= i < j < |members|
      ensures CodeUnitOrder(members[i].key, members[j].key)
    {
      BeforeAscends(members, i, j);
    }
    SortedUnique(CodeUnitOrder, Sort(CodeUnitOrder, members), members);
  }
}
