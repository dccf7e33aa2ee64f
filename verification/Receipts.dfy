/** Receipts of mutation commands: hashes of canonical text. The hash is an uninterpreted function, so
    what is proved is which texts are hashed. */
module Receipts {
  import opened CanonicalJson
  import opened Json
  import opened Options

  type Hash = Text -> Text

  /** "receipt_hash" */
  const RECEIPT_KEY: Text := [114, 101, 99, 101, 105, 112, 116, 95, 104, 97, 115, 104]

  /** What a bridge call returns, as far as receipts read it. */
  datatype Result = Result(status: int, payload: Option<Value>)

  function Digit(n: nat): Unit
    requires n < 10
  {
    48 + n
  }

  function Decimal(n: nat): (t: Text)
    ensures t != [] && t[0] != RECEIPT_KEY[0]
  {
    if n < 10 then [Digit(n)] else Decimal(n / 10) + [Digit(n % 10)]
  }

  /** Object.assign({}, items): an array's entries under their indices. */
  function Indexed(items: seq<Value>, from: nat): (members: seq<Member>)
    ensures forall m :: m in members ==> m.key != RECEIPT_KEY
    decreases |items|
  {
    if items == [] then [] else [Member(Decimal(from), items[0])] + Indexed(items[1..], from + 1)
  }

  predicate IsObject(v: Value) {
    v.Obj? || v.Arr?
  }

  function Copy(payload: Value): seq<Member>
    requires IsObject(payload)
  {
    if payload.Obj? then payload.members else Indexed(payload.items, 0)
  }

  function Delete(members: seq<Member>, key: Text): (r: seq<Member>)
    ensures forall m :: m in r <==> m in members && m.key != key
  {
    if members == [] then []
    else if members[0].key == key then Delete(members[1..], key)
    else [members[0]] + Delete(members[1..], key)
  }

  function Assign(members: seq<Member>, key: Text, value: Value): seq<Member> {
    if members == [] then [Member(key, value)]
    else if members[0].key == key then [Member(key, value)] + members[1..]
    else [members[0]] + Assign(members[1..], key, value)
  }

  /** The text that a receipt hashes. */
  function ReceiptText(payload: Value): Text
    requires IsObject(payload)
  {
    StableStringify(Obj(Delete(Copy(payload), RECEIPT_KEY)))
  }

  /** `normalizeReceiptHash` */
  function ReceiptHash(h: Hash, payload: Value): Text
    requires IsObject(payload)
  {
    h(ReceiptText(payload))
  }

  predicate HasReceipt(payload: Value)
    requires IsObject(payload)
  {
    payload.Obj? && RECEIPT_KEY in Keys(payload.members) && Lookup(payload.members, RECEIPT_KEY).Str?
  }

  /** `ensureMutationReceipt` */
  function EnsureReceipt(h: Hash, mutations: set<string>, r: Option<Result>, command: string): Option<Result> {
    if r.None? || r.value.payload.None? || !IsObject(r.value.payload.value) then r
    else if command !in mutations then r
    else if HasReceipt(r.value.payload.value) then r
    else
      var payload := r.value.payload.value;
      Some(r.value.(payload := Some(Obj(Assign(Copy(payload), RECEIPT_KEY, Str(ReceiptHash(h, payload)))))))
  }

  // ----- Members

  function FromDecimal(t: Text): int {
    if t == [] then 0 else FromDecimal(t[..|t| - 1]) * 10 + t[|t| - 1] - 48
  }

  lemma {:induction false} DecimalRoundTrip(n: nat)
    ensures FromDecimal(Decimal(n)) == n
  {
    if n < 10 {
      assert [Digit(n)][..0] == [];
    } else {
      var init := Decimal(n / 10);
      DecimalRoundTrip(n / 10);
      assert (init + [Digit(n % 10)])[..|init|] == init;
    }
  }

  lemma {:induction false} IndexedIsWellFormed(items: seq<Value>, from: nat)
    requires forall i :: 0 <= i < |items| ==> WellFormed(items[i])
    ensures var members := Indexed(items, from);
      DistinctKeys(members) &&
      forall i :: 0 <= i < |members| ==> WellFormed(members[i].value) && FromDecimal(members[i].key) >= from
    decreases |items|
  {
    if items != [] {
      DecimalRoundTrip(from);
      IndexedIsWellFormed(items[1..], from + 1);
    }
  }

  lemma CopyIsWellFormed(payload: Value)
    requires IsObject(payload) && WellFormed(payload)
    ensures DistinctKeys(Copy(payload)) && WellFormed(Obj(Copy(payload)))
  {
    if payload.Arr? {
      IndexedIsWellFormed(payload.items, 0);
    }
  }

  lemma {:induction false} AssignThenRead(members: seq<Member>, key: Text, value: Value)
    ensures key in Keys(Assign(members, key, value)) && Lookup(Assign(members, key, value), key) == value
  {
    if members != [] && members[0].key != key {
      AssignThenRead(members[1..], key, value);
      assert Keys(Assign(members, key, value))[1..] == Keys(Assign(members[1..], key, value));
    }
  }

  lemma {:induction false} DeleteAbsent(members: seq<Member>, key: Text)
    requires forall m :: m in members ==> m.key != key
    ensures Delete(members, key) == members
  {
    if members != [] {
      DeleteAbsent(members[1..], key);
    }
  }

  lemma {:induction false} DeleteAssigned(members: seq<Member>, key: Text, value: Value)
    requires DistinctKeys(members)
    ensures Delete(Assign(members, key, value), key) == Delete(members, key)
  {
    if members != [] && members[0].key != key {
      DeleteAssigned(members[1..], key, value);
    }
  }

  lemma {:induction false} DeleteDistinct(members: seq<Member>, key: Text)
    requires DistinctKeys(members)
    ensures DistinctKeys(Delete(members, key))
  {
    if members != [] {
      DeleteDistinct(members[1..], key);
      var rest := Delete(members[1..], key);
      forall i | 0 <= i < |rest|
        ensures rest[i].key != members[0].key
      {
        assert rest[i] in members[1..];
      }
    }
  }

  lemma {:induction false} DeleteMeaning(members: seq<Member>, key: Text)
    ensures DenoteMembers(Delete(members, key)) == DenoteMembers(members) - {key}
  {
    if members != [] {
      DeleteMeaning(members[1..], key);
      var rest, k, v := DenoteMembers(members[1..]), members[0].key, Denote(members[0].value);
      if k == key {
        assert rest[k := v] - {key} == rest - {key};
      } else {
        assert rest[k := v] - {key} == (rest - {key})[k := v];
      }
    }
  }

  // ----- Main results

  /** Asking for a receipt twice is the same as asking once. */
  lemma EnsureReceiptIsIdempotent(h: Hash, mutations: set<string>, r: Option<Result>, command: string)
    ensures var once := EnsureReceipt(h, mutations, r, command);
      EnsureReceipt(h, mutations, once, command) == once
  {
    if r.Some? && r.value.payload.Some? && IsObject(r.value.payload.value) {
      var payload := r.value.payload.value;
      AssignThenRead(Copy(payload), RECEIPT_KEY, Str(ReceiptHash(h, payload)));
    }
  }

  /** A result changes exactly if its command is one of the mutations, its payload is an object or an
      array, and that has no receipt in text form; and then it gets one. */
  lemma OnlyMutationsGetReceipts(h: Hash, mutations: set<string>, r: Option<Result>, command: string)
    ensures EnsureReceipt(h, mutations, r, command) != r <==>
            command in mutations && r.Some? && r.value.payload.Some? && IsObject(r.value.payload.value) &&
            !HasReceipt(r.value.payload.value)
  {
    if r.Some? && r.value.payload.Some? && IsObject(r.value.payload.value) {
      var payload := r.value.payload.value;
      AssignThenRead(Copy(payload), RECEIPT_KEY, Str(ReceiptHash(h, payload)));
    }
  }

  lemma ReceiptKeyIsWritten()
    ensures |RECEIPT_KEY| == 12
    ensures forall i :: 0 <= i < 12 ==> RECEIPT_KEY[i] == "receipt_hash"[i] as int
  {
  }

  /** A receipt that is added is the hash of the payload that carries it, and nothing else of the
      payload changes (an array is copied to the object of its entries first). */
  lemma AddedReceiptVerifies(h: Hash, mutations: set<string>, r: Option<Result>, command: string)
    requires r.Some? && r.value.payload.Some? && IsObject(r.value.payload.value) && WellFormed(r.value.payload.value)
    requires command in mutations && !HasReceipt(r.value.payload.value)
    ensures var before := Copy(r.value.payload.value);
      var done := EnsureReceipt(h, mutations, r, command);
      && done.Some? && done.value.payload.Some? && done.value.status == r.value.status
      && var payload := done.value.payload.value;
      && payload.Obj? && HasReceipt(payload)
      && Lookup(payload.members, RECEIPT_KEY) == Str(ReceiptHash(h, payload))
      && Delete(payload.members, RECEIPT_KEY) == Delete(before, RECEIPT_KEY)
  {
    var members := Copy(r.value.payload.value);
    var receipt := Str(ReceiptHash(h, r.value.payload.value));
    CopyIsWellFormed(r.value.payload.value);
    AssignThenRead(members, RECEIPT_KEY, receipt);
    DeleteAssigned(members, RECEIPT_KEY, receipt);
  }

  lemma Hashed(payload: Value) returns (kept: seq<Member>)
    requires IsObject(payload) && WellFormed(payload)
    ensures kept == Delete(Copy(payload), RECEIPT_KEY) && WellFormed(Obj(kept))
    ensures DenoteMembers(kept) == DenoteMembers(Copy(payload)) - {RECEIPT_KEY}
  {
    var members := Copy(payload);
    kept := Delete(members, RECEIPT_KEY);
    CopyIsWellFormed(payload);
    DeleteDistinct(members, RECEIPT_KEY);
    DeleteMeaning(members, RECEIPT_KEY);
    assert forall i :: 0 <= i < |kept| ==> kept[i] in members;
  }

  /** Two payloads hash the same text exactly when they say the same thing, whatever receipts they
      carry and in whatever order their members come at any depth. */
  lemma ReceiptTextIsCanonical(a: Value, b: Value)
    requires IsObject(a) && IsObject(b) && WellFormed(a) && WellFormed(b)
    ensures ReceiptText(a) == ReceiptText(b) <==>
            DenoteMembers(Copy(a)) - {RECEIPT_KEY} == DenoteMembers(Copy(b)) - {RECEIPT_KEY}
  {
    var keptA := Hashed(a);
    var keptB := Hashed(b);
    StableStringifyIsCanonical(Obj(keptA), Obj(keptB));
  }

  lemma DecimalsDiffer(m: nat, n: nat)
    requires m != n
    ensures Decimal(m) != Decimal(n)
  {
    DecimalRoundTrip(m);
    DecimalRoundTrip(n);
  }

  /** In particular the items of an array are all hashed, each at its place. */
  lemma {:induction false} IndexedMeaning(items: seq<Value>, from: nat, i: nat)
    requires i < |items|
    ensures Decimal(from + i) in DenoteMembers(Indexed(items, from))
    ensures DenoteMembers(Indexed(items, from))[Decimal(from + i)] == Denote(items[i])
    decreases |items|
  {
    var rest := Indexed(items[1..], from + 1);
    var members := [Member(Decimal(from), items[0])] + rest;
    assert Indexed(items, from) == members && members[1..] == rest;
    assert DenoteMembers(members) == DenoteMembers(rest)[Decimal(from) := Denote(items[0])];
    if i > 0 {
      DecimalsDiffer(from, from + i);
      IndexedMeaning(items[1..], from + 1, i - 1);
      assert from + 1 + (i - 1) == from + i;
    }
  }
}
