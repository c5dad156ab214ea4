/** internal/dht/bencode.go: what encoding and decoding are to each other. */
module BencodeLaws {
  import opened Common
  import opened Ipv4
  import opened Decimal
  import opened Bencode

  /** No part of v, when v is read at this depth, lies deeper than 32; and no
      string is longer than Go's int can say. */
  ghost predicate Fits(v: Value, depth: int)
    decreases v
  {
    depth <= MAX_DEPTH
    && match v
       case Str(s) => FitsString(s, depth)
       case Int(_) => true
       case List(items) => forall i :: 0 <= i < |items| ==> Fits(items[i], depth + 1)
       case Dict(m) => forall k :: k in m ==> FitsString(k, depth + 1) && Fits(m[k], depth + 1)
  }

  predicate FitsString(s: Bytes, depth: int)
  {
    depth <= MAX_DEPTH && |s| < 0x8000_0000_0000_0000
  }

  // ---- numbers and strings ----

  lemma {:induction false} IndexAfter(w: Bytes, c: byte, rest: Bytes)
    requires c !in w
    ensures IndexByte(w + [c] + rest, c) == |w|
  {
    if w != [] {
      assert (w + [c] + rest)[1..] == w[1..] + [c] + rest;
      IndexAfter(w[1..], c, rest);
    }
  }

  lemma DigitsRead(n: nat)
    ensures Number(DigitBytes(n)) == n && AreDigits(DigitBytes(n))
  {
    var b, ds := DigitBytes(n), Digits(n);
    assert seq(|b|, i requires 0 <= i < |b| => ByteDigit(b[i])) == ds;
    ValueOfDigits(n);
  }

  lemma ItoaReads(n: int)
    ensures ParseInt(Itoa(n)) == if -0x8000_0000_0000_0000 <= n < 0x8000_0000_0000_0000 then Some(n) else None
    ensures Itoa(n) != [] && forall x :: x in Itoa(n) ==> x == MINUS || ZERO <= x <= NINE
    ensures n >= 0 ==> AreDigits(Itoa(n))
  {
    var b := DigitBytes(if n < 0 then -n else n);
    DigitsRead(if n < 0 then -n else n);
    ParseDigits(b);
  }

  lemma ParseDigits(b: Bytes)
    requires AreDigits(b)
    ensures ParseInt(b) == if Number(b) < 0x8000_0000_0000_0000 then Some(Number(b)) else None
    ensures ParseInt([MINUS] + b) == if Number(b) <= 0x8000_0000_0000_0000 then Some(-(Number(b) as int)) else None
  {
    assert b[0] in b;
    assert ([MINUS] + b)[1..] == b;
  }

  lemma IntReads(n: Int64, rest: Bytes)
    ensures DecodedInt([I] + Itoa(n) + [E] + rest) == Good(Int(n), rest)
  {
    ItoaReads(n);
    var b := [I] + Itoa(n) + [E] + rest;
    IndexAfter([I] + Itoa(n), E, rest);
    assert b[1..1 + |Itoa(n)|] == Itoa(n);
    assert b[2 + |Itoa(n)|..] == rest;
  }

  lemma StringReads(s: Bytes, rest: Bytes)
    ensures DecodedString(EncodedString(s) + rest)
         == if |s| < 0x8000_0000_0000_0000 then Good(Str(s), rest) else Bad
    ensures ZERO <= (EncodedString(s) + rest)[0] <= NINE
  {
    ItoaReads(|s|);
    var t := Itoa(|s|);
    var b := EncodedString(s) + rest;
    assert b == t + [COLON] + (s + rest);
    IndexAfter(t, COLON, s + rest);
    assert t[0] in t && b[0] == t[0];
    assert b[..|t|] == t;
    assert b[|t| + 1..|t| + 1 + |s|] == s;
    assert b[|t| + 1 + |s|..] == rest;
  }

  lemma StringReadsAt(s: Bytes, depth: int, rest: Bytes)
    ensures DecodedOne(EncodedString(s) + rest, depth) == if FitsString(s, depth) then Good(Str(s), rest) else Bad
  {
    StringReads(s, rest);
  }

  /** No encoding starts like the end of a list. */
  lemma FirstByte(v: Value)
    ensures Encoded(v) != [] && Encoded(v)[0] != E
  {
    if v.Str? {
      StringReads(v.bytes, []);
      assert EncodedString(v.bytes) + [] == EncodedString(v.bytes);
    }
  }

  // ---- values ----

  lemma Follow(a: Bytes, b: Bytes, rest: Bytes)
    ensures a + b + [E] + rest == a + (b + [E] + rest)
  {
  }

  lemma ListStep(body: Bytes, depth: int, rest: Bytes)
    ensures DecodedOne([L] + body + [E] + rest, depth)
         == if depth > MAX_DEPTH then Bad else DecodedItems(body + [E] + rest, depth + 1, [])
    ensures DecodedOne([D] + body + [E] + rest, depth)
         == if depth > MAX_DEPTH then Bad else DecodedEntries(body + [E] + rest, depth + 1, map[])
  {
    assert ([L] + body + [E] + rest)[1..] == body + [E] + rest;
    assert ([D] + body + [E] + rest)[1..] == body + [E] + rest;
  }

  /** Decoding an encoded value, whatever follows it, gives the value and what
      followed if the value fits, and fails if it does not. */
  lemma {:induction false} DecodeOfEncode(v: Value, depth: int, rest: Bytes)
    ensures DecodedOne(Encoded(v) + rest, depth) == if Fits(v, depth) then Good(v, rest) else Bad
    decreases v
  {
    match v
    case Str(s) =>
      StringReadsAt(s, depth, rest);
    case Int(n) =>
      IntReads(n, rest);
    case List(_) =>
      ListReads(v, depth, rest);
    case Dict(_) =>
      DictReads(v, depth, rest);
  }

  lemma {:induction false} ListReads(v: Value, depth: int, rest: Bytes)
    requires v.List?
    ensures DecodedOne(Encoded(v) + rest, depth) == if Fits(v, depth) then Good(v, rest) else Bad
    decreases v, |v.items| + 1
  {
    ItemsRead(v, 0, depth + 1, rest);
    assert v.items[..0] == [];
    ListDecodes(v, depth, rest, ItemsFit(v, 0, depth + 1));
    ListFits(v, depth);
  }

  lemma ListDecodes(v: Value, depth: int, rest: Bytes, fits: bool)
    requires v.List?
    requires DecodedItems(EncodedItems(v, 0) + [E] + rest, depth + 1, []) == if fits then Good(v, rest) else Bad
    ensures DecodedOne(Encoded(v) + rest, depth) == if depth <= MAX_DEPTH && fits then Good(v, rest) else Bad
  {
    assert Encoded(v) == [L] + EncodedItems(v, 0) + [E];
    ListStep(EncodedItems(v, 0), depth, rest);
  }

  lemma ListFits(v: Value, depth: int)
    requires v.List?
    ensures Fits(v, depth) <==> depth <= MAX_DEPTH && ItemsFit(v, 0, depth + 1)
  {
  }

  lemma {:induction false} DictReads(v: Value, depth: int, rest: Bytes)
    requires v.Dict?
    ensures DecodedOne(Encoded(v) + rest, depth) == if Fits(v, depth) then Good(v, rest) else Bad
    decreases v, |InOrder(v.entries.Keys)| + 1
  {
    var ks := InOrder(v.entries.Keys);
    EntriesRead(v, ks, map[], depth + 1, rest);
    ListStep(EncodedEntries(v, ks), depth, rest);
    DictFits(v, depth);
  }

  lemma DictFits(v: Value, depth: int)
    requires v.Dict?
    ensures Fits(v, depth) <==> depth <= MAX_DEPTH && EntriesFit(v, InOrder(v.entries.Keys), depth + 1)
  {
  }

  ghost predicate ItemsFit(v: Value, i: nat, depth: int)
    requires v.List?
  {
    forall j :: i <= j < |v.items| ==> Fits(v.items[j], depth)
  }

  lemma {:induction false} ItemsRead(v: Value, i: nat, depth: int, rest: Bytes)
    requires v.List? && i <= |v.items|
    ensures DecodedItems(EncodedItems(v, i) + [E] + rest, depth, v.items[..i])
         == if ItemsFit(v, i, depth) then Good(v, rest) else Bad
    decreases v, |v.items| - i
  {
    if i == |v.items| {
      ItemsEnd(rest, depth, v.items[..i]);
      assert v.items[..i] == v.items;
    } else {
      var x, tail := v.items[i], EncodedItems(v, i + 1);
      var one, more := Encoded(x), tail + [E] + rest;
      assert EncodedItems(v, i) == one + tail;
      Follow(one, tail, rest);
      FirstByte(x);
      DecodeOfEncode(x, depth, more);
      ItemsStep(one, more, x, Fits(x, depth), depth, v.items[..i]);
      assert v.items[..i] + [x] == v.items[..i + 1];
      ItemsRead(v, i + 1, depth, rest);
      ItemsFitStep(v, i, depth);
    }
  }

  lemma ItemsFitStep(v: Value, i: nat, depth: int)
    requires v.List? && i < |v.items|
    ensures ItemsFit(v, i, depth) <==> Fits(v.items[i], depth) && ItemsFit(v, i + 1, depth)
  {
    if Fits(v.items[i], depth) && ItemsFit(v, i + 1, depth) {
      forall j | i <= j < |v.items| ensures Fits(v.items[j], depth) {
        assert j == i || i + 1 <= j;
      }
    }
  }

  lemma ItemsEnd(rest: Bytes, depth: int, out: seq<Value>)
    ensures DecodedItems([] + [E] + rest, depth, out) == Good(List(out), rest)
  {
    assert ([] + [E] + rest)[1..] == rest;
  }

  lemma ItemsStep(one: Bytes, more: Bytes, x: Value, fits: bool, depth: int, out: seq<Value>)
    requires one != [] && one[0] != E && DecodedOne(one + more, depth) == if fits then Good(x, more) else Bad
    ensures DecodedItems(one + more, depth, out) == if fits then DecodedItems(more, depth, out + [x]) else Bad
  {
  }

  /** What is read already and what is still to be read make up the entries. */
  ghost predicate Completes(out: map<Bytes, Value>, ks: seq<Bytes>, m: map<Bytes, Value>)
  {
    (forall k :: k in out ==> k in m && out[k] == m[k])
    && (forall k :: k in m ==> k in out || k in ks)
    && (forall k :: k in ks ==> k in m)
  }

  ghost predicate EntriesFit(v: Value, ks: seq<Bytes>, depth: int)
    requires v.Dict? && forall k :: k in ks ==> k in v.entries
  {
    forall k :: k in ks ==> FitsString(k, depth) && Fits(v.entries[k], depth)
  }

  lemma EntriesFitStep(v: Value, ks: seq<Bytes>, depth: int)
    requires v.Dict? && ks != [] && forall k :: k in ks ==> k in v.entries
    ensures EntriesFit(v, ks, depth)
       <==> FitsString(ks[0], depth) && Fits(v.entries[ks[0]], depth) && EntriesFit(v, ks[1..], depth)
  {
    assert ks == [ks[0]] + ks[1..];
  }

  lemma {:induction false} EntriesRead(v: Value, ks: seq<Bytes>, out: map<Bytes, Value>, depth: int, rest: Bytes)
    requires v.Dict? && Completes(out, ks, v.entries)
    ensures DecodedEntries(EncodedEntries(v, ks) + [E] + rest, depth, out)
         == if EntriesFit(v, ks, depth) then Good(v, rest) else Bad
    decreases v, |ks|
  {
    if ks == [] {
      assert ([] + [E] + rest)[1..] == rest && out == v.entries;
    } else {
      var k, x := ks[0], v.entries[ks[0]];
      var more := EncodedEntries(v, ks[1..]) + [E] + rest;
      Follow(EncodedString(k) + Encoded(x), EncodedEntries(v, ks[1..]), rest);
      Regroup(EncodedString(k), Encoded(x), more);
      DecodeOfEncode(x, depth, more);
      EntriesStep(k, Encoded(x) + more, depth, out);
      CompletesMore(out, ks, v.entries);
      EntriesRead(v, ks[1..], out[k := x], depth, rest);
      EntriesFitStep(v, ks, depth);
    }
  }

  lemma CompletesMore(out: map<Bytes, Value>, ks: seq<Bytes>, m: map<Bytes, Value>)
    requires ks != [] && Completes(out, ks, m)
    ensures Completes(out[ks[0] := m[ks[0]]], ks[1..], m)
  {
    assert ks == [ks[0]] + ks[1..];
  }

  lemma EntriesStep(k: Bytes, more: Bytes, depth: int, out: map<Bytes, Value>)
    ensures var d := DecodedOne(more, depth);
      DecodedEntries(EncodedString(k) + more, depth, out)
      == if !FitsString(k, depth) || d.Bad? then Bad else DecodedEntries(d.rest, depth, out[k := d.value])
  {
    StringReads(k, more);
    StringReadsAt(k, depth, more);
  }

  /** Whole messages: a value survives exactly if it fits. */
  lemma MessageRoundTrip(v: Value)
    ensures Message(Encoded(v)) == if Fits(v, 0) then Some(v) else None
  {
    DecodeOfEncode(v, 0, []);
    assert Encoded(v) + [] == Encoded(v);
  }

  // ---- every value fits somewhere ----

  lemma {:induction false} FitsHigher(v: Value, depth: int, higher: int)
    requires Fits(v, depth) && higher <= depth
    ensures Fits(v, higher)
    decreases v
  {
    match v
    case Str(_) =>
    case Int(_) =>
    case List(items) =>
      forall i | 0 <= i < |items| ensures Fits(items[i], higher + 1) {
        FitsHigher(items[i], depth + 1, higher + 1);
      }
    case Dict(m) =>
      forall k | k in m ensures FitsString(k, higher + 1) && Fits(m[k], higher + 1) {
        FitsHigher(m[k], depth + 1, higher + 1);
      }
  }

  /** No string in v is longer than Go's int can say. */
  ghost predicate Sized(v: Value)
    decreases v
  {
    match v
    case Str(s) => |s| < 0x8000_0000_0000_0000
    case Int(_) => true
    case List(items) => forall i :: 0 <= i < |items| ==> Sized(items[i])
    case Dict(m) => forall k :: k in m ==> |k| < 0x8000_0000_0000_0000 && Sized(m[k])
  }

  lemma {:induction false} FitsSomewhere(v: Value) returns (depth: int)
    requires Sized(v)
    ensures depth < MAX_DEPTH && Fits(v, depth)
    decreases v
  {
    depth := 0;
    match v
    case Str(_) =>
    case Int(_) =>
    case List(items) =>
      for i := 0 to |items|
        invariant depth < MAX_DEPTH && forall j :: 0 <= j < i ==> Fits(items[j], depth + 1)
      {
        var lower := FitsSomewhere(items[i]);
        var was := depth;
        depth := if lower < depth then lower - 1 else depth - 1;
        forall j | 0 <= j < i ensures Fits(items[j], depth + 1) {
          FitsHigher(items[j], was + 1, depth + 1);
        }
        FitsHigher(items[i], lower, depth + 1);
      }
    case Dict(m) =>
      var left := m.Keys;
      while left != {}
        invariant left <= m.Keys
        invariant depth < MAX_DEPTH && forall k :: k in m && k !in left ==> Fits(m[k], depth + 1)
        decreases |left|
      {
        var k :| k in left;
        var lower := FitsSomewhere(m[k]);
        var was := depth;
        depth := if lower < depth then lower - 1 else depth - 1;
        left := left - {k};
        forall x | x in m && x !in left ensures Fits(m[x], depth + 1) {
          if x == k {
            FitsHigher(m[k], lower, depth + 1);
          } else {
            FitsHigher(m[x], was + 1, depth + 1);
          }
        }
      }
  }

  /** No encoding is the beginning of another: not even of a value nested too
      deep to be read. */
  lemma PrefixFree(v: Value, w: Value)
    requires Sized(v) && Encoded(v) <= Encoded(w)
    ensures v == w
  {
    var depth := FitsSomewhere(v);
    var rest := Encoded(w)[|Encoded(v)|..];
    assert Encoded(v) + rest == Encoded(w) + [];
    DecodeOfEncode(v, depth, rest);
    DecodeOfEncode(w, depth, []);
  }

  // ---- what is decoded ----

  lemma {:induction false} DecodedFits(b: Bytes, depth: int)
    ensures var d := DecodedOne(b, depth); d.Good? ==> Fits(d.value, depth)
    decreases |b|, 0
  {
    if b != [] && depth <= MAX_DEPTH {
      if b[0] == L {
        DecodedItemsFit(b[1..], depth + 1, []);
      } else if b[0] == D {
        DecodedEntriesFit(b[1..], depth + 1, map[]);
      }
    }
  }

  lemma {:induction false} DecodedItemsFit(b: Bytes, depth: int, out: seq<Value>)
    requires depth <= MAX_DEPTH + 1 && forall i :: 0 <= i < |out| ==> Fits(out[i], depth)
    ensures var d := DecodedItems(b, depth, out); d.Good? ==> Fits(d.value, depth - 1)
    decreases |b|, 1
  {
    if b != [] && b[0] != E {
      DecodedFits(b, depth);
      var d := DecodedOne(b, depth);
      if d.Good? {
        DecodedItemsFit(d.rest, depth, out + [d.value]);
      }
    }
  }

  lemma {:induction false} DecodedEntriesFit(b: Bytes, depth: int, out: map<Bytes, Value>)
    requires depth <= MAX_DEPTH + 1 && forall k :: k in out ==> FitsString(k, depth) && Fits(out[k], depth)
    ensures var d := DecodedEntries(b, depth, out); d.Good? ==> Fits(d.value, depth - 1)
    decreases |b|, 1
  {
    if b != [] && b[0] != E {
      DecodedFits(b, depth);
      var k := DecodedOne(b, depth);
      if k.Good? && k.value.Str? {
        DecodedFits(k.rest, depth);
        var v := DecodedOne(k.rest, depth);
        if v.Good? {
          DecodedEntriesFit(v.rest, depth, out[k.value.bytes := v.value]);
        }
      }
    }
  }

  /** The values that messages carry are the values that fit: what was decoded
      survives being encoded and decoded again. */
  lemma MessagesCarry(v: Value)
    ensures (exists b :: Message(b) == Some(v)) <==> Message(Encoded(v)) == Some(v)
    ensures Message(Encoded(v)) == Some(v) <==> Fits(v, 0)
  {
    MessageRoundTrip(v);
    if b :| Message(b) == Some(v) {
      DecodedFits(b, 0);
    }
  }

  /** The other way round it can fail: leading zeros and a plus sign are read too.
      BencodeCanon says exactly when it does not. */
  lemma OtherSpellings()
    ensures Message([I, ZERO, 53, E]) == Message([I, PLUS, 53, E]) == Some(Int(5))
  {
    var zeros, plus := [I, ZERO, 53, E], [I, PLUS, 53, E];
    IndexAfter([I, ZERO, 53], E, []);
    IndexAfter([I, PLUS, 53], E, []);
    assert zeros == [I, ZERO, 53] + [E] + [] && plus == [I, PLUS, 53] + [E] + [];
    NumberOf5();
    ParseDigits([ZERO, 53]);
    assert [PLUS, 53][1..] == [53];
    assert zeros[1..3] == [ZERO, 53] && plus[1..3] == [PLUS, 53];
    assert DecodedInt(zeros) == Good(Int(5), []) == DecodedInt(plus);
  }

  lemma NumberOf5()
    ensures Number([ZERO, 53]) == 5 && Number([53]) == 5
  {
    assert seq(2, i requires 0 <= i < 2 => ByteDigit([ZERO, 53][i])) == [0, 5];
    assert seq(1, i requires 0 <= i < 1 => ByteDigit([53][i])) == [5];
    assert [0, 5][..1] == [0] && [0][..0] == [] && [5][..0] == [];
  }
}
