/** JSON values and their text, as JSON.stringify writes it: texts are sequences of UTF-16 code units,
    numbers are kept as the text that a number prints as, and an object keeps its members in order. */
module Json {
  import opened Options

  type Unit = n: nat | n < 0x1_0000
  type Text = seq<Unit>

  datatype Value =
    | Null
    | Bool(b: bool)
    | Num(lexeme: Text)
    | Str(text: Text)
    | Arr(items: seq<Value>)
    | Obj(members: seq<Member>)

  datatype Member = Member(key: Text, value: Value)

  const QUOTE: Unit := 34
  const COMMA: Unit := 44
  const COLON: Unit := 58
  const OPEN_BRACKET: Unit := 91
  const BACKSLASH: Unit := 92
  const CLOSE_BRACKET: Unit := 93
  const LETTER_U: Unit := 117
  const OPEN_BRACE: Unit := 123
  const CLOSE_BRACE: Unit := 125

  const NULL_TEXT: Text := [110, 117, 108, 108]
  const TRUE_TEXT: Text := [116, 114, 117, 101]
  const FALSE_TEXT: Text := [102, 97, 108, 115, 101]

  // ----- Strings

  predicate HighSurrogate(u: Unit) {
    0xD800 <= u < 0xDC00
  }

  predicate LowSurrogate(u: Unit) {
    0xDC00 <= u < 0xE000
  }

  function HexDigit(n: nat): Unit
    requires n < 16
  {
    if n < 10 then 48 + n else 87 + n
  }

  function FromHex(u: Unit): nat {
    if 48 <= u < 58 then u - 48 else if 97 <= u < 103 then u - 87 else 0
  }

  /** The letter after the backslash for the units that have a short escape. */
  function ShortEscape(u: Unit): Option<Unit> {
    if u == 8 then Some(98)
    else if u == 9 then Some(116)
    else if u == 10 then Some(110)
    else if u == 12 then Some(102)
    else if u == 13 then Some(114)
    else if u == QUOTE || u == BACKSLASH then Some(u)
    else None
  }

  /** One unit that is not part of a surrogate pair. */
  function EscapeUnit(u: Unit): Text {
    if ShortEscape(u).Some? then [BACKSLASH, ShortEscape(u).value]
    else if u < 32 || HighSurrogate(u) || LowSurrogate(u) then
      [BACKSLASH, LETTER_U, HexDigit(u / 16 / 16 / 16), HexDigit(u / 16 / 16 % 16), HexDigit(u / 16 % 16), HexDigit(u % 16)]
    else [u]
  }

  function Escape(t: Text): Text {
    if t == [] then []
    else if HighSurrogate(t[0]) && |t| > 1 && LowSurrogate(t[1]) then [t[0], t[1]] + Escape(t[2..])
    else EscapeUnit(t[0]) + Escape(t[1..])
  }

  function Quote(t: Text): Text {
    [QUOTE] + Escape(t) + [QUOTE]
  }

  // ----- Values

  function Print(v: Value): Text
    decreases v
  {
    match v
    case Null => NULL_TEXT
    case Bool(b) => if b then TRUE_TEXT else FALSE_TEXT
    case Num(lexeme) => lexeme
    case Str(text) => Quote(text)
    case Arr(items) => [OPEN_BRACKET] + PrintItems(items) + [CLOSE_BRACKET]
    case Obj(members) => [OPEN_BRACE] + PrintMembers(members) + [CLOSE_BRACE]
  }

  function PrintItems(items: seq<Value>): Text
    decreases items
  {
    if items == [] then []
    else Print(items[0]) + if |items| == 1 then [] else [COMMA] + PrintItems(items[1..])
  }

  function PrintMembers(members: seq<Member>): Text
    decreases members
  {
    if members == [] then []
    else Quote(members[0].key) + [COLON] + Print(members[0].value) +
         if |members| == 1 then [] else [COMMA] + PrintMembers(members[1..])
  }

  /** The units that occur in the text of a finite number. */
  predicate NumberUnit(u: Unit) {
    48 <= u < 58 || u == 43 || u == 45 || u == 46 || u == 101
  }

  predicate Lexeme(t: Text) {
    t != [] && (48 <= t[0] < 58 || t[0] == 45) && forall i :: 0 <= i < |t| ==> NumberUnit(t[i])
  }

  predicate DistinctKeys(members: seq<Member>) {
    forall i, j :: 0 <= i < j < |members| ==> members[i].key != members[j].key
  }

  /** Numbers have number texts, and the keys of an object are distinct, at every depth. */
  predicate WellFormed(v: Value)
    decreases v
  {
    match v
    case Num(lexeme) => Lexeme(lexeme)
    case Arr(items) => forall i :: 0 <= i < |items| ==> WellFormed(items[i])
    case Obj(members) => DistinctKeys(members) && forall i :: 0 <= i < |members| ==> WellFormed(members[i].value)
    case _ => true
  }

  // ----- The text determines the value

  lemma Cancel(prefix: Text, a: Text, b: Text)
    requires prefix + a == prefix + b
    ensures a == b
  {
    assert a == (prefix + a)[|prefix|..] && b == (prefix + b)[|prefix|..];
  }

  /** Reads a string up to its closing quote: what it stands for, and the rest. */
  function ReadString(q: Text): Option<(Text, Text)>
    decreases |q|
  {
    if q == [] then None
    else if q[0] == QUOTE then Some(([], q[1..]))
    else if q[0] != BACKSLASH then Prepend(q[0], ReadString(q[1..]))
    else if |q| >= 6 && q[1] == LETTER_U then
      Prepend((FromHex(q[2]) * 4096 + FromHex(q[3]) * 256 + FromHex(q[4]) * 16 + FromHex(q[5])) % 0x1_0000,
              ReadString(q[6..]))
    else if |q| >= 2 then Prepend(Unescaped(q[1]), ReadString(q[2..]))
    else None
  }

  function Unescaped(letter: Unit): Unit {
    if letter == 98 then 8
    else if letter == 116 then 9
    else if letter == 110 then 10
    else if letter == 102 then 12
    else if letter == 114 then 13
    else letter
  }

  function Prepend(u: Unit, read: Option<(Text, Text)>): Option<(Text, Text)> {
    match read
    case None => None
    case Some((text, rest)) => Some(([u] + text, rest))
  }

  lemma HexRoundTrip(n: nat)
    requires n < 16
    ensures FromHex(HexDigit(n)) == n
  {
  }

  lemma Regroup(a: Text, b: Text, c: Text)
    ensures (a + b) + c == a + (b + c)
  {
  }

  lemma ReadHex(u: Unit, rest: Text)
    ensures ReadString([BACKSLASH, LETTER_U, HexDigit(u / 16 / 16 / 16), HexDigit(u / 16 / 16 % 16),
                        HexDigit(u / 16 % 16), HexDigit(u % 16)] + rest) == Prepend(u, ReadString(rest))
  {
    var a, b, c := u / 16, u / 16 / 16, u / 16 / 16 / 16;
    HexRoundTrip(c);
    HexRoundTrip(b % 16);
    HexRoundTrip(a % 16);
    HexRoundTrip(u % 16);
    var q := [BACKSLASH, LETTER_U, HexDigit(c), HexDigit(b % 16), HexDigit(a % 16), HexDigit(u % 16)] + rest;
    assert q[6..] == rest;
    assert c * 4096 + b % 16 * 256 + a % 16 * 16 + u % 16 == u;
  }

  lemma ReadShort(u: Unit, rest: Text)
    requires ShortEscape(u).Some?
    ensures ReadString([BACKSLASH, ShortEscape(u).value] + rest) == Prepend(u, ReadString(rest))
  {
    var letter := ShortEscape(u).value;
    assert letter != LETTER_U && Unescaped(letter) == u;
    assert ([BACKSLASH, letter] + rest)[2..] == rest;
  }

  lemma ReadOneUnit(u: Unit, rest: Text)
    ensures ReadString(EscapeUnit(u) + rest) == Prepend(u, ReadString(rest))
  {
    if ShortEscape(u).Some? {
      ReadShort(u, rest);
    } else if |EscapeUnit(u)| == 6 {
      ReadHex(u, rest);
    } else {
      ReadPlainUnit(u, rest);
    }
  }

  lemma ReadPlainUnit(u: Unit, rest: Text)
    requires u != QUOTE && u != BACKSLASH
    ensures ReadString([u] + rest) == Prepend(u, ReadString(rest))
  {
    assert ([u] + rest)[1..] == rest;
  }

  lemma ReadPair(high: Unit, low: Unit, rest: Text)
    requires HighSurrogate(high) && LowSurrogate(low)
    ensures ReadString([high, low] + rest) == Prepend(high, Prepend(low, ReadString(rest)))
  {
    ReadPlainUnit(low, rest);
    ReadPlainUnit(high, [low] + rest);
    assert [high, low] + rest == [high] + ([low] + rest);
  }

  lemma PrependFirst(t: Text, rest: Text)
    requires t != []
    ensures Prepend(t[0], Some((t[1..], rest))) == Some((t, rest))
  {
    assert [t[0]] + t[1..] == t;
  }

  lemma {:induction false} ReadBack(t: Text, rest: Text)
    ensures ReadString(Escape(t) + ([QUOTE] + rest)) == Some((t, rest))
    decreases |t|
  {
    var after := [QUOTE] + rest;
    if t == [] {
      assert Escape(t) + after == after && after[1..] == rest;
    } else if HighSurrogate(t[0]) && |t| > 1 && LowSurrogate(t[1]) {
      ReadBack(t[2..], rest);
      Regroup([t[0], t[1]], Escape(t[2..]), after);
      ReadPair(t[0], t[1], Escape(t[2..]) + after);
      PrependFirst(t[1..], rest);
      PrependFirst(t, rest);
    } else {
      ReadBack(t[1..], rest);
      Regroup(EscapeUnit(t[0]), Escape(t[1..]), after);
      ReadOneUnit(t[0], Escape(t[1..]) + after);
      PrependFirst(t, rest);
    }
  }

  lemma QuoteText(t: Text, rest: Text)
    ensures Quote(t) + rest == [QUOTE] + (Escape(t) + ([QUOTE] + rest))
  {
  }

  lemma QuoteUnambiguous(a: Text, b: Text, ra: Text, rb: Text)
    requires Quote(a) + ra == Quote(b) + rb
    ensures a == b && ra == rb
  {
    QuoteText(a, ra);
    QuoteText(b, rb);
    Cancel([QUOTE], Escape(a) + ([QUOTE] + ra), Escape(b) + ([QUOTE] + rb));
    ReadBack(a, ra);
    ReadBack(b, rb);
  }

  /** What can follow a value inside a longer text. */
  predicate Ends(rest: Text) {
    rest == [] || rest[0] == COMMA || rest[0] == CLOSE_BRACKET || rest[0] == CLOSE_BRACE
  }

  predicate Closes(rest: Text, bracket: Unit) {
    rest != [] && rest[0] == bracket
  }

  predicate StartsLike(v: Value, u: Unit) {
    match v
    case Null => u == 110
    case Bool(b) => u == if b then 116 else 102
    case Num(_) => 48 <= u < 58 || u == 45
    case Str(_) => u == QUOTE
    case Arr(_) => u == OPEN_BRACKET
    case Obj(_) => u == OPEN_BRACE
  }

  lemma FirstUnit(v: Value, rest: Text)
    requires WellFormed(v)
    ensures Print(v) != [] && StartsLike(v, Print(v)[0]) && (Print(v) + rest)[0] == Print(v)[0]
  {
  }

  lemma NumberUnambiguous(a: Text, b: Text, ra: Text, rb: Text)
    requires Lexeme(a) && Lexeme(b) && Ends(ra) && Ends(rb) && a + ra == b + rb
    ensures a == b && ra == rb
  {
    var q := a + ra;
    assert forall i :: 0 <= i < |a| ==> q[i] == a[i];
    assert forall i :: 0 <= i < |b| ==> q[i] == b[i];
    assert ra != [] ==> q[|a|] == ra[0];
    assert rb != [] ==> q[|b|] == rb[0];
    assert |a| == |b|;
    assert a == q[..|a|] && b == q[..|b|];
    Cancel(a, ra, rb);
  }

  lemma ArrText(items: seq<Value>, rest: Text)
    ensures Print(Arr(items)) + rest == [OPEN_BRACKET] + (PrintItems(items) + ([CLOSE_BRACKET] + rest))
  {
  }

  lemma ObjText(members: seq<Member>, rest: Text)
    ensures Print(Obj(members)) + rest == [OPEN_BRACE] + (PrintMembers(members) + ([CLOSE_BRACE] + rest))
  {
  }

  /** What comes after the first item. */
  function ItemsTail(items: seq<Value>): Text
    requires items != []
  {
    if |items| == 1 then [] else [COMMA] + PrintItems(items[1..])
  }

  function MembersTail(members: seq<Member>): Text
    requires members != []
  {
    if |members| == 1 then [] else [COMMA] + PrintMembers(members[1..])
  }

  lemma ItemsText(items: seq<Value>, rest: Text)
    requires items != []
    ensures PrintItems(items) + rest == Print(items[0]) + (ItemsTail(items) + rest)
  {
  }

  lemma MembersText(members: seq<Member>, rest: Text)
    requires members != []
    ensures PrintMembers(members) + rest ==
            Quote(members[0].key) + ([COLON] + (Print(members[0].value) + (MembersTail(members) + rest)))
  {
    var key, value, tail := Quote(members[0].key), Print(members[0].value), MembersTail(members);
    assert PrintMembers(members) == key + [COLON] + value + tail;
    Regroup(key + [COLON] + value, tail, rest);
    Regroup(key + [COLON], value, tail + rest);
    Regroup(key, [COLON], value + (tail + rest));
  }

  /** Two values whose texts begin a common text, each followed by something that can end it, are the
      same value and are followed by the same text. */
  lemma {:induction false} Unambiguous(a: Value, b: Value, ra: Text, rb: Text)
    requires WellFormed(a) && WellFormed(b) && Ends(ra) && Ends(rb) && Print(a) + ra == Print(b) + rb
    ensures a == b && ra == rb
    decreases a, 1
  {
    FirstUnit(a, ra);
    FirstUnit(b, rb);
    match a
    case Num(lexeme) => NumberUnambiguous(lexeme, b.lexeme, ra, rb);
    case Str(text) => QuoteUnambiguous(text, b.text, ra, rb);
    case Arr(items) =>
      ArrText(items, ra);
      ArrText(b.items, rb);
      var x, y := [CLOSE_BRACKET] + ra, [CLOSE_BRACKET] + rb;
      Cancel([OPEN_BRACKET], PrintItems(items) + x, PrintItems(b.items) + y);
      ItemsUnambiguous(items, b.items, x, y);
      Cancel([CLOSE_BRACKET], ra, rb);
    case Obj(members) =>
      ObjText(members, ra);
      ObjText(b.members, rb);
      var x, y := [CLOSE_BRACE] + ra, [CLOSE_BRACE] + rb;
      Cancel([OPEN_BRACE], PrintMembers(members) + x, PrintMembers(b.members) + y);
      MembersUnambiguous(members, b.members, x, y);
      Cancel([CLOSE_BRACE], ra, rb);
    case _ => Cancel(Print(a), ra, rb);
  }

  lemma {:induction false} ItemsUnambiguous(a: seq<Value>, b: seq<Value>, ra: Text, rb: Text)
    requires (forall v :: v in a ==> WellFormed(v)) && (forall v :: v in b ==> WellFormed(v))
    requires Closes(ra, CLOSE_BRACKET) && Closes(rb, CLOSE_BRACKET) && PrintItems(a) + ra == PrintItems(b) + rb
    ensures a == b && ra == rb
    decreases a, 0
  {
    assert [] + ra == ra && [] + rb == rb;
    if a == [] || b == [] {
      if b != [] {
        ItemsText(b, rb);
        FirstUnit(b[0], ItemsTail(b) + rb);
      }
      if a != [] {
        ItemsText(a, ra);
        FirstUnit(a[0], ItemsTail(a) + ra);
      }
    } else {
      ItemsText(a, ra);
      ItemsText(b, rb);
      Unambiguous(a[0], b[0], ItemsTail(a) + ra, ItemsTail(b) + rb);
      if |a| > 1 && |b| > 1 {
        Regroup([COMMA], PrintItems(a[1..]), ra);
        Regroup([COMMA], PrintItems(b[1..]), rb);
        Cancel([COMMA], PrintItems(a[1..]) + ra, PrintItems(b[1..]) + rb);
        ItemsUnambiguous(a[1..], b[1..], ra, rb);
      }
    }
  }

  lemma {:induction false} MembersUnambiguous(a: seq<Member>, b: seq<Member>, ra: Text, rb: Text)
    requires (forall m :: m in a ==> WellFormed(m.value)) && (forall m :: m in b ==> WellFormed(m.value))
    requires Closes(ra, CLOSE_BRACE) && Closes(rb, CLOSE_BRACE) && PrintMembers(a) + ra == PrintMembers(b) + rb
    ensures a == b && ra == rb
    decreases a, 0
  {
    assert [] + ra == ra && [] + rb == rb;
    if a != [] {
      MembersText(a, ra);
    }
    if b != [] {
      MembersText(b, rb);
    }
    if a != [] && b != [] {
      var ta, tb := MembersTail(a) + ra, MembersTail(b) + rb;
      var va, vb := Print(a[0].value) + ta, Print(b[0].value) + tb;
      QuoteUnambiguous(a[0].key, b[0].key, [COLON] + va, [COLON] + vb);
      Cancel([COLON], va, vb);
      Unambiguous(a[0].value, b[0].value, ta, tb);
      if |a| > 1 && |b| > 1 {
        Regroup([COMMA], PrintMembers(a[1..]), ra);
        Regroup([COMMA], PrintMembers(b[1..]), rb);
        Cancel([COMMA], PrintMembers(a[1..]) + ra, PrintMembers(b[1..]) + rb);
        MembersUnambiguous(a[1..], b[1..], ra, rb);
      }
    }
  }

  /** JSON.stringify gives two values the same text only if they are the same value, member order
      included. */
  lemma PrintIsInjective(a: Value, b: Value)
    requires WellFormed(a) && WellFormed(b) && Print(a) == Print(b)
    ensures a == b
  {
    assert Print(a) + [] == Print(a) && Print(b) + [] == Print(b);
    Unambiguous(a, b, [], []);
  }

  // ----- The text is that of JSON (RFC 8259, section 7, as JSON.stringify escapes it)

  /** The short escapes, the hexadecimal ones in lower case, and nothing else. */
  lemma EscapedUnits(u: Unit)
    ensures EscapeUnit(8) == [92, 98] && EscapeUnit(9) == [92, 116] && EscapeUnit(10) == [92, 110]
    ensures EscapeUnit(12) == [92, 102] && EscapeUnit(13) == [92, 114]
    ensures EscapeUnit(34) == [92, 34] && EscapeUnit(92) == [92, 92]
    ensures EscapeUnit(31) == [92, 117, 48, 48, 49, 102]
    ensures EscapeUnit(0xD9AB) == [92, 117, 100, 57, 97, 98]
    ensures u < 32 || u == 34 || u == 92 || 0xD800 <= u < 0xE000 <==> EscapeUnit(u) != [u]
    ensures Escape([0xD83D, 0xDE00]) == [0xD83D, 0xDE00]
  {
    assert [0xD83D, 0xDE00][2..] == [];
  }

  /** The words and the punctuation, for values with up to two parts. */
  lemma TextOfSmallValues(a: Value, b: Value, k: Text, l: Text)
    ensures Print(Null) == [110, 117, 108, 108] && Print(Bool(true)) == [116, 114, 117, 101]
    ensures Print(Bool(false)) == [102, 97, 108, 115, 101] && Print(Str(k)) == [34] + Escape(k) + [34]
    ensures Print(Arr([])) == [91, 93] && Print(Obj([])) == [123, 125]
    ensures Print(Arr([a, b])) == [91] + (Print(a) + ([44] + Print(b))) + [93]
    ensures Print(Obj([Member(k, a)])) == [123] + (Quote(k) + [58] + Print(a)) + [125]
    ensures Print(Obj([Member(k, a), Member(l, b)])) ==
            [123] + (Quote(k) + [58] + Print(a) + ([44] + (Quote(l) + [58] + Print(b)))) + [125]
  {
    TextOfPairs(a, b, k, l);
    assert [Member(k, a)][1..] == [];
  }

  lemma TextOfPairs(a: Value, b: Value, k: Text, l: Text)
    ensures PrintItems([a, b]) == Print(a) + ([44] + Print(b))
    ensures PrintMembers([Member(k, a), Member(l, b)]) == Quote(k) + [58] + Print(a) + ([44] + (Quote(l) + [58] + Print(b)))
    ensures PrintMembers([Member(k, a)]) == Quote(k) + [58] + Print(a)
  {
    assert [a, b][1..] == [b] && [Member(k, a), Member(l, b)][1..] == [Member(l, b)];
  }
}
