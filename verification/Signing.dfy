/** Message signatures: hashes of a key id, a secret and the canonical text of a value, with colons in
    between. The hash is not part of this model; what is proved is when two texts to sign are the same. */
module Signing {
  import opened CanonicalJson
  import opened Json

  /** The text that `signValue` hashes. */
  function SigningText(le: (Text, Text) -> bool, keyId: Text, secret: Text, v: Value): Text {
    KeyText(keyId, secret) + [COLON] + CanonicalText(le, v)
  }

  function KeyText(keyId: Text, secret: Text): Text {
    keyId + [COLON] + secret
  }

  // ----- A text of JSON does not end in another one after a colon

  /** Where a reader of JSON text is: outside strings or inside one, at which depth of brackets. A
      backslash outside strings, and a colon or a closing bracket outside everything, is bad. */
  datatype Place = Out(depth: nat) | In(depth: nat) | Escaped(depth: nat) | Bad

  function Next(at: Place, u: Unit): Place {
    match at
    case Bad => Bad
    case Escaped(d) => In(d)
    case In(d) => if u == QUOTE then Out(d) else if u == BACKSLASH then Escaped(d) else at
    case Out(d) =>
      if u == QUOTE then In(d)
      else if u == BACKSLASH || (u == COLON && d == 0) then Bad
      else if u == OPEN_BRACKET || u == OPEN_BRACE then Out(d + 1)
      else if u == CLOSE_BRACKET || u == CLOSE_BRACE then (if d == 0 then Bad else Out(d - 1))
      else at
  }

  function Scan(at: Place, t: Text): Place
    decreases |t|
  {
    if t == [] then at else Scan(Next(at, t[0]), t[1..])
  }

  lemma {:induction false} ScanConcat(at: Place, a: Text, b: Text)
    ensures Scan(at, a + b) == Scan(Scan(at, a), b)
    decreases |a|
  {
    if a == [] {
      assert a + b == b;
    } else {
      assert (a + b)[0] == a[0] && (a + b)[1..] == a[1..] + b;
      ScanConcat(Next(at, a[0]), a[1..], b);
    }
  }

  lemma ScanOne(at: Place, u: Unit)
    ensures Scan(at, [u]) == Next(at, u)
  {
    assert [u][1..] == [];
  }

  lemma {:induction false} ScanStays(at: Place, t: Text)
    requires forall i :: 0 <= i < |t| ==> Next(at, t[i]) == at
    ensures Scan(at, t) == at
    decreases |t|
  {
    if t != [] {
      ScanStays(at, t[1..]);
    }
  }

  lemma ScanEscapeUnit(d: nat, u: Unit)
    ensures Scan(In(d), EscapeUnit(u)) == In(d)
  {
    var t := EscapeUnit(u);
    if |t| == 1 {
      ScanOne(In(d), t[0]);
    } else {
      assert t == [t[0]] + ([t[1]] + t[2..]);
      ScanConcat(In(d), [t[0]], [t[1]] + t[2..]);
      ScanConcat(Escaped(d), [t[1]], t[2..]);
      ScanOne(In(d), t[0]);
      ScanOne(Escaped(d), t[1]);
      ScanStays(In(d), t[2..]);
    }
  }

  lemma {:induction false} ScanEscape(d: nat, t: Text)
    ensures Scan(In(d), Escape(t)) == In(d)
    decreases |t|
  {
    if t == [] {
    } else if HighSurrogate(t[0]) && |t| > 1 && LowSurrogate(t[1]) {
      ScanConcat(In(d), [t[0], t[1]], Escape(t[2..]));
      ScanStays(In(d), [t[0], t[1]]);
      ScanEscape(d, t[2..]);
    } else {
      ScanConcat(In(d), EscapeUnit(t[0]), Escape(t[1..]));
      ScanEscapeUnit(d, t[0]);
      ScanEscape(d, t[1..]);
    }
  }

  /** Scanning something between two units. */
  lemma ScanBetween(at: Place, open: Unit, t: Text, close: Unit)
    requires Scan(Next(at, open), t) == Next(at, open)
    ensures Scan(at, [open] + t + [close]) == Next(Next(at, open), close)
  {
    ScanConcat(at, [open] + t, [close]);
    ScanConcat(at, [open], t);
    ScanOne(at, open);
    ScanOne(Next(at, open), close);
  }

  lemma ScanQuote(d: nat, t: Text)
    ensures Scan(Out(d), Quote(t)) == Out(d)
  {
    ScanEscape(d, t);
    ScanBetween(Out(d), QUOTE, Escape(t), QUOTE);
  }

  lemma ScanFlat(d: nat, v: Value)
    requires WellFormed(v) && (v.Null? || v.Bool? || v.Num?)
    ensures Scan(Out(d), Print(v)) == Out(d)
  {
    ScanStays(Out(d), Print(v));
  }

  /** The text of a value leads back to where it began. */
  lemma {:induction false} ScanPrint(d: nat, v: Value)
    requires WellFormed(v)
    ensures Scan(Out(d), Print(v)) == Out(d)
    decreases v, 1
  {
    match v
    case Str(text) => ScanQuote(d, text);
    case Arr(items) =>
      ScanItems(d + 1, items);
      ScanBetween(Out(d), OPEN_BRACKET, PrintItems(items), CLOSE_BRACKET);
    case Obj(members) =>
      ScanMembers(d + 1, members);
      ScanBetween(Out(d), OPEN_BRACE, PrintMembers(members), CLOSE_BRACE);
    case _ => ScanFlat(d, v);
  }

  lemma {:induction false} ScanItems(d: nat, items: seq<Value>)
    requires forall v :: v in items ==> WellFormed(v)
    ensures Scan(Out(d), PrintItems(items)) == Out(d)
    decreases items, 0
  {
    if items != [] {
      ScanPrint(d, items[0]);
      ScanConcat(Out(d), Print(items[0]), ItemsTail(items));
      if |items| > 1 {
        ScanItems(d, items[1..]);
        ScanConcat(Out(d), [COMMA], PrintItems(items[1..]));
        ScanOne(Out(d), COMMA);
      }
    }
  }

  lemma {:induction false} ScanMembers(d: nat, members: seq<Member>)
    requires 0 < d && forall m :: m in members ==> WellFormed(m.value)
    ensures Scan(Out(d), PrintMembers(members)) == Out(d)
    decreases members, 0
  {
    if members != [] {
      ScanPrint(d, members[0].value);
      if |members| > 1 {
        ScanMembers(d, members[1..]);
        ScanConcat(Out(d), [COMMA], PrintMembers(members[1..]));
        ScanOne(Out(d), COMMA);
      }
      ScanMember(d, members[0].key, Print(members[0].value), MembersTail(members));
    }
  }

  lemma ScanMember(d: nat, key: Text, value: Text, tail: Text)
    requires 0 < d && Scan(Out(d), value) == Scan(Out(d), tail) == Out(d)
    ensures Scan(Out(d), Quote(key) + [COLON] + value + tail) == Out(d)
  {
    ScanQuote(d, key);
    ScanConcat(Out(d), Quote(key) + [COLON] + value, tail);
    ScanConcat(Out(d), Quote(key) + [COLON], value);
    ScanConcat(Out(d), Quote(key), [COLON]);
    ScanOne(Out(d), COLON);
  }

  /** Two readers of one text, one inside a string and one outside, never come to agree: without a
      backslash every quote swaps them, and a backslash is bad for one of them. */
  lemma {:induction false} NeverAgree(x: Place, y: Place, t: Text)
    requires x.In? && y.Out?
    ensures var a, b := Scan(x, t), Scan(y, t);
      a.Bad? || b.Bad? || (a.In? && b.Out?) || (a.Out? && b.In?)
    decreases |t|
  {
    if t != [] {
      var nextX, nextY := Next(x, t[0]), Next(y, t[0]);
      if nextY.Bad? {
        ScanStays(Bad, t[1..]);
      } else if t[0] == QUOTE {
        NeverAgree(nextY, nextX, t[1..]);
      } else {
        NeverAgree(nextX, nextY, t[1..]);
      }
    }
  }

  /** After a colon, wherever that was, the text of a value does not lead back to the very outside. */
  lemma AfterColon(at: Place, v: Value)
    requires WellFormed(v)
    ensures Scan(Next(at, COLON), Print(v)) != Out(0)
  {
    match Next(at, COLON)
    case Bad => ScanStays(Bad, Print(v));
    case Out(d) => ScanPrint(d, v);
    case In(d) =>
      ScanPrint(0, v);
      NeverAgree(In(d), Out(0), Print(v));
    case Escaped(_) =>
  }

  /** No text of JSON is another one with anything and a colon in front. */
  lemma NoTextEndsInAnother(a: Value, b: Value, front: Text)
    requires WellFormed(a) && WellFormed(b)
    ensures Print(a) != front + [COLON] + Print(b)
  {
    var at := Scan(Out(0), front);
    ScanPrint(0, a);
    ScanConcat(Out(0), front + [COLON], Print(b));
    ScanConcat(Out(0), front, [COLON]);
    ScanOne(at, COLON);
    AfterColon(at, b);
  }

  // ----- Main results

  lemma LongerKeyText(a: Text, b: Text, ta: Text, tb: Text) returns (front: Text)
    requires a + [COLON] + ta == b + [COLON] + tb && |a| < |b|
    ensures b == a + [COLON] + front && ta == front + [COLON] + tb
  {
    var all := a + [COLON] + ta;
    front := b[|a| + 1..];
    assert all[..|b|] == b && all[..|a|] == a && all[|a|] == COLON;
    assert b == b[..|a|] + [b[|a|]] + front;
    assert ta == all[|a| + 1..] && tb == all[|b| + 1..];
    assert all[|a| + 1..] == front + [COLON] + tb;
  }

  lemma SameLengthKeyText(a: Text, b: Text, ta: Text, tb: Text)
    requires a + [COLON] + ta == b + [COLON] + tb && |a| == |b|
    ensures a == b && ta == tb
  {
    assert a == (a + [COLON] + ta)[..|a|] && b == (b + [COLON] + tb)[..|b|];
    Cancel(a + [COLON], ta, tb);
  }

  /** Two values are signed alike, under whatever keys, exactly when they are equal up to member order
      and the two pairs of key id and secret are written alike. */
  lemma SigningTextIsCanonical(le: (Text, Text) -> bool, keyA: Text, secretA: Text, a: Value, keyB: Text, secretB: Text, b: Value)
    requires TotalOrder(le) && WellFormed(a) && WellFormed(b)
    ensures SigningText(le, keyA, secretA, a) == SigningText(le, keyB, secretB, b) <==>
            KeyText(keyA, secretA) == KeyText(keyB, secretB) && Denote(a) == Denote(b)
  {
    var ka, kb, ta, tb := KeyText(keyA, secretA), KeyText(keyB, secretB), CanonicalText(le, a), CanonicalText(le, b);
    NormalizeKeepsMeaning(le, a);
    NormalizeKeepsMeaning(le, b);
    if ka + [COLON] + ta == kb + [COLON] + tb {
      if |ka| < |kb| {
        var front := LongerKeyText(ka, kb, ta, tb);
        NoTextEndsInAnother(Normalize(le, a), Normalize(le, b), front);
      } else if |kb| < |ka| {
        var front := LongerKeyText(kb, ka, tb, ta);
        NoTextEndsInAnother(Normalize(le, b), Normalize(le, a), front);
      } else {
        SameLengthKeyText(ka, kb, ta, tb);
      }
    }
    CanonicalTextIsCanonical(le, a, b);
  }

  /** The longer key id ends in the beginning of the other secret: `middle` can be read as part of
      either. */
  predicate Shifted(keyA: Text, secretA: Text, keyB: Text, secretB: Text, middle: Text) {
    keyB == keyA + [COLON] + middle && secretA == middle + [COLON] + secretB
  }

  /** Two pairs are written alike exactly when they are the same or one is the other with the colon at
      another place. */
  lemma KeysWrittenAlike(keyA: Text, secretA: Text, keyB: Text, secretB: Text)
    ensures KeyText(keyA, secretA) == KeyText(keyB, secretB) <==>
            (keyA == keyB && secretA == secretB) ||
            (exists middle :: Shifted(keyA, secretA, keyB, secretB, middle)) ||
            (exists middle :: Shifted(keyB, secretB, keyA, secretA, middle))
  {
    if KeyText(keyA, secretA) == KeyText(keyB, secretB) {
      if |keyA| < |keyB| {
        var middle := LongerKeyText(keyA, keyB, secretA, secretB);
        assert Shifted(keyA, secretA, keyB, secretB, middle);
      } else if |keyB| < |keyA| {
        var middle := LongerKeyText(keyB, keyA, secretB, secretA);
        assert Shifted(keyB, secretB, keyA, secretA, middle);
      } else {
        SameLengthKeyText(keyA, keyB, secretA, secretB);
      }
    } else {
      forall middle
        ensures !Shifted(keyA, secretA, keyB, secretB, middle) && !Shifted(keyB, secretB, keyA, secretA, middle)
      {
        ShiftedIsAlike(keyA, secretA, keyB, secretB, middle);
        ShiftedIsAlike(keyB, secretB, keyA, secretA, middle);
      }
    }
  }

  lemma ShiftedIsAlike(keyA: Text, secretA: Text, keyB: Text, secretB: Text, middle: Text)
    ensures Shifted(keyA, secretA, keyB, secretB, middle) ==> KeyText(keyA, secretA) == KeyText(keyB, secretB)
  {
    if Shifted(keyA, secretA, keyB, secretB, middle) {
      assert keyA + [COLON] + (middle + [COLON] + secretB) == keyA + [COLON] + middle + [COLON] + secretB;
    }
  }

  /** So where key ids have no colon, a signature's text tells the key id, the secret and the value. */
  lemma PlainKeysAreTold(le: (Text, Text) -> bool, keyA: Text, secretA: Text, a: Value, keyB: Text, secretB: Text, b: Value)
    requires TotalOrder(le) && WellFormed(a) && WellFormed(b) && COLON !in keyA && COLON !in keyB
    ensures SigningText(le, keyA, secretA, a) == SigningText(le, keyB, secretB, b) <==>
            keyA == keyB && secretA == secretB && Denote(a) == Denote(b)
  {
    SigningTextIsCanonical(le, keyA, secretA, a, keyB, secretB, b);
    KeysWrittenAlike(keyA, secretA, keyB, secretB);
    forall middle
      ensures !Shifted(keyA, secretA, keyB, secretB, middle) && !Shifted(keyB, secretB, keyA, secretA, middle)
    {
      assert (keyA + [COLON] + middle)[|keyA|] == COLON && (keyB + [COLON] + middle)[|keyB|] == COLON;
    }
  }

  /** And otherwise not: key "a" with secret "b:c" signs everything as key "a:b" with secret "c" does. */
  lemma ColonInKeyId(le: (Text, Text) -> bool, v: Value)
    ensures SigningText(le, [97], [98, COLON, 99], v) == SigningText(le, [97, COLON, 98], [99], v)
  {
    assert KeyText([97], [98, COLON, 99]) == KeyText([97, COLON, 98], [99]);
  }
}
