/** The string operations that the guards and name rules are built from. Letters outside ASCII have no
    case here. */
module Strings {
  import opened Options

  /** The characters that trimming removes. */
  predicate Space(c: char) {
    var n := c as int;
    9 <= n <= 13 || n == 0x20 || n == 0xA0 || n == 0x1680 || 0x2000 <= n <= 0x200A ||
    n == 0x2028 || n == 0x2029 || n == 0x202F || n == 0x205F || n == 0x3000 || n == 0xFEFF
  }

  function TrimStart(s: string): string {
    if s != "" && Space(s[0]) then TrimStart(s[1..]) else s
  }

  function TrimEnd(s: string): string {
    if s != "" && Space(s[|s| - 1]) then TrimEnd(s[..|s| - 1]) else s
  }

  function Trim(s: string): string {
    TrimEnd(TrimStart(s))
  }

  predicate Trimmed(s: string) {
    s == "" || (!Space(s[0]) && !Space(s[|s| - 1]))
  }

  function LowerChar(c: char): char {
    if 'A' <= c <= 'Z' then c - 'A' + 'a' else c
  }

  function Lower(s: string): string {
    if s == "" then "" else [LowerChar(s[0])] + Lower(s[1..])
  }

  function IndexOf(s: string, c: char): (r: Option<nat>)
    ensures r.None? ==> c !in s
    ensures r.Some? ==> r.value < |s| && s[r.value] == c && c !in s[..r.value]
  {
    if s == "" then None
    else if s[0] == c then Some(0)
    else match IndexOf(s[1..], c)
      case None => None
      case Some(i) => Some(i + 1)
  }

  lemma {:induction false} IndexAfter(a: string, b: string, c: char)
    requires c !in a
    ensures IndexOf(a + [c] + b, c) == Some(|a|)
  {
    if a != "" {
      IndexAfter(a[1..], b, c);
      assert (a + [c] + b)[1..] == a[1..] + [c] + b;
    }
  }

  lemma {:induction false} TrimStartKeeps(s: string)
    ensures TrimStart(s) == "" || !Space(TrimStart(s)[0])
    ensures Trimmed(s) ==> TrimStart(s) == s
  {
    if s != "" && Space(s[0]) {
      TrimStartKeeps(s[1..]);
    }
  }

  lemma {:induction false} TrimEndKeeps(s: string)
    ensures TrimEnd(s) == "" || !Space(TrimEnd(s)[|TrimEnd(s)| - 1])
    ensures TrimEnd(s) != "" ==> TrimEnd(s)[0] == s[0]
    ensures Trimmed(s) ==> TrimEnd(s) == s
    decreases |s|
  {
    if s != "" && Space(s[|s| - 1]) {
      TrimEndKeeps(s[..|s| - 1]);
    }
  }

  /** Trimming leaves a trimmed string, and a trimmed string alone. */
  lemma TrimTrims(s: string)
    ensures Trimmed(Trim(s)) && (Trimmed(s) ==> Trim(s) == s)
  {
    TrimStartKeeps(s);
    TrimEndKeeps(TrimStart(s));
    TrimEndKeeps(s);
  }

  lemma {:induction false} LowerChars(s: string)
    ensures |Lower(s)| == |s| && forall i :: 0 <= i < |s| ==> Lower(s)[i] == LowerChar(s[i])
  {
    if s != "" {
      LowerChars(s[1..]);
    }
  }

  /** A string in lower case that neither begins nor ends with a space is its own normal form. */
  predicate Plain(s: string) {
    Trimmed(s) && forall i :: 0 <= i < |s| ==> LowerChar(s[i]) == s[i]
  }

  lemma LowerIsPlain(s: string)
    requires Trimmed(s)
    ensures Plain(Lower(s))
  {
    LowerChars(s);
  }

  lemma PlainStays(s: string)
    requires Plain(s)
    ensures Trim(s) == s && Lower(s) == s
  {
    TrimTrims(s);
    LowerChars(s);
  }

  /** White space and line ends as trimming removes them (ECMA-262, sections 12.2 and 12.3). */
  lemma SpacesByCode(c: char)
    ensures Space(c) <==>
      c as int in {9, 10, 11, 12, 13, 32, 160, 5760, 8192, 8193, 8194, 8195, 8196, 8197, 8198, 8199, 8200, 8201, 8202,
                   8232, 8233, 8239, 8287, 12288, 65279}
  {
  }

  predicate AllSpaces(s: string) {
    forall i :: 0 <= i < |s| ==> Space(s[i])
  }

  lemma {:induction false} TrimStartSpaces(front: string, s: string)
    requires AllSpaces(front)
    ensures TrimStart(front + s) == TrimStart(s)
    decreases |front|
  {
    if front == "" {
      assert front + s == s;
    } else {
      TrimStartSpaces(front[1..], s);
      assert (front + s)[1..] == front[1..] + s;
    }
  }

  lemma {:induction false} TrimEndSpaces(s: string, back: string)
    requires AllSpaces(back)
    ensures TrimEnd(s + back) == TrimEnd(s)
    decreases |back|
  {
    if back == "" {
      assert s + back == s;
    } else {
      TrimEndSpaces(s, back[..|back| - 1]);
      assert (s + back)[..|s + back| - 1] == s + back[..|back| - 1];
    }
  }

  /** Trimming removes just the spaces around. */
  lemma TrimRemovesAround(front: string, s: string, back: string)
    requires AllSpaces(front) && AllSpaces(back) && s != "" && Trimmed(s)
    ensures Trim(front + (s + back)) == s
  {
    TrimStartSpaces(front, s + back);
    assert TrimStart(s + back) == s + back;
    TrimEndSpaces(s, back);
    TrimEndKeeps(s);
  }

  lemma LowersLetters(c: char)
    ensures 65 <= c as int <= 90 ==> LowerChar(c) as int == c as int + 32
    ensures !(65 <= c as int <= 90) ==> LowerChar(c) == c
  {
  }
}
