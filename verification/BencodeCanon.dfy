/** internal/dht/bencode.go: which messages are what encoding their value gives. */
module BencodeCanon {
  import opened Common
  import opened Ipv4
  import opened Decimal
  import opened Bencode
  import opened BencodeLaws

  // ---- one spelling of a number ----

  /** Digits as Itoa writes them: no leading zero. */
  predicate PlainDigits(b: Bytes)
  {
    AreDigits(b) && (|b| == 1 || b[0] != ZERO)
  }

  /** No plus sign, and no minus before a zero. */
  predicate PlainInt(b: Bytes)
  {
    if b != [] && b[0] == MINUS then PlainDigits(b[1..]) && b[1..] != [ZERO] else PlainDigits(b)
  }

  lemma {:induction false} DigitsPlain(n: nat)
    ensures |Digits(n)| == 1 || Digits(n)[0] != 0
    ensures Digits(n) == [0] <==> n == 0
  {
    if n >= 10 {
      DigitsPlain(n / 10);
    }
  }

  /** Without leading zeros the value has these digits only. */
  lemma {:induction false} DigitsOfValue(ds: seq<Digit>)
    requires ds != [] && (|ds| == 1 || ds[0] != 0)
    ensures Digits(Decimal.Value(ds)) == ds
    ensures |ds| > 1 ==> Decimal.Value(ds) >= 10
  {
    var init, d := ds[..|ds| - 1], ds[|ds| - 1];
    if init == [] {
      assert ds == [d] && Decimal.Value([]) == 0;
    } else {
      assert init[0] == ds[0];
      DigitsOfValue(init);
      OneDigit(init);
      assert Decimal.Value(ds) == 10 * Decimal.Value(init) + d;
      assert ds == init + [d];
    }
  }

  lemma OneDigit(ds: seq<Digit>)
    requires ds != [] && ds[0] != 0 && (|ds| > 1 ==> Decimal.Value(ds) >= 10)
    ensures Decimal.Value(ds) >= 1
  {
    if |ds| == 1 {
      assert ds[..0] == [];
    }
  }

  lemma PlainDigitsIff(b: Bytes)
    requires AreDigits(b)
    ensures PlainDigits(b) <==> DigitBytes(Number(b)) == b
    ensures PlainDigits(b) ==> (Number(b) == 0 <==> b == [ZERO])
  {
    var ds: seq<Digit> := seq(|b|, i requires 0 <= i < |b| => ByteDigit(b[i]));
    forall i | 0 <= i < |b| ensures DigitByte(ds[i]) == b[i] {
      assert b[i] in b;
    }
    if PlainDigits(b) {
      DigitsOfValue(ds);
      DigitsPlain(Number(b));
      assert DigitBytes(Number(b)) == b;
      assert b == [ZERO] <==> ds == [0];
    } else {
      DigitsPlain(Number(b));
      assert DigitBytes(Number(b)) == b ==> Digits(Number(b)) == ds;
    }
  }

  lemma PlainIntIff(b: Bytes)
    requires ParseInt(b).Some?
    ensures PlainInt(b) <==> Itoa(ParseInt(b).value) == b
  {
    if b[0] == MINUS {
      var digits := b[1..];
      assert b == [MINUS] + digits;
      PlainDigitsIff(digits);
      DigitsRead(Number(digits));
      DigitsRead(0);
      DigitsPlain(0);
      if Number(digits) == 0 {
        assert Itoa(0)[0] in Itoa(0);
      } else {
        assert Itoa(ParseInt(b).value)[1..] == DigitBytes(Number(digits));
      }
    } else if b[0] == PLUS {
      DigitsRead(Number(b[1..]));
      var text := Itoa(ParseInt(b).value);
      assert b[0] in b && text[0] in text;
    } else {
      PlainDigitsIff(b);
    }
  }

  // ---- one spelling of a value ----

  /** The value at the start of b is spelled as encoding spells it: numbers plain,
      and the keys of a dictionary each once and in order. */
  predicate CanonicalOne(b: Bytes, depth: int)
    decreases |b|, 0
  {
    b != []
    && if b[0] == I then
         var end := IndexByte(b, E); end >= 2 && PlainInt(b[1..end])
       else if b[0] == L then CanonicalItems(b[1..], depth + 1)
       else if b[0] == D then CanonicalEntries(b[1..], depth + 1, None)
       else PlainLength(b)
  }

  predicate PlainLength(b: Bytes)
  {
    var colon := IndexByte(b, COLON); colon >= 1 && PlainDigits(b[..colon])
  }

  predicate CanonicalItems(b: Bytes, depth: int)
    decreases |b|, 1
  {
    b != []
    && (b[0] == E
        || (CanonicalOne(b, depth) && DecodedOne(b, depth).Good? && CanonicalItems(DecodedOne(b, depth).rest, depth)))
  }

  /** last is the key before. */
  predicate CanonicalEntries(b: Bytes, depth: int, last: Option<Bytes>)
    decreases |b|, 1
  {
    b != []
    && (b[0] == E
        || (CanonicalOne(b, depth)
            && var k := DecodedOne(b, depth);
               k.Good? && k.value.Str? && (last.Some? ==> Less(last.value, k.value.bytes))
               && CanonicalOne(k.rest, depth)
               && var v := DecodedOne(k.rest, depth);
                  v.Good? && CanonicalEntries(v.rest, depth, Some(k.value.bytes))))
  }

  predicate Canonical(b: Bytes)
  {
    CanonicalOne(b, 0)
  }

  // ---- what encoding gives is canonical ----

  lemma ItoaPlain(n: int)
    ensures PlainInt(Itoa(n)) && (n >= 0 ==> PlainDigits(Itoa(n)))
  {
    var m := if n < 0 then -n else n;
    DigitsRead(m);
    DigitsPlain(m);
    assert |DigitBytes(m)| == |Digits(m)|;
    assert DigitBytes(m) == [ZERO] ==> Digits(m) == [0];
    assert DigitBytes(m)[0] in DigitBytes(m);
    assert n < 0 ==> Itoa(n)[1..] == DigitBytes(m);
  }

  lemma StringCanonical(s: Bytes, rest: Bytes, depth: int)
    ensures CanonicalOne(EncodedString(s) + rest, depth)
  {
    var t, b := Itoa(|s|), EncodedString(s) + rest;
    ItoaReads(|s|);
    ItoaPlain(|s|);
    assert b == t + [COLON] + (s + rest);
    IndexAfter(t, COLON, s + rest);
    assert t[0] in t && b[0] == t[0] && b[..|t|] == t;
  }

  lemma IntCanonical(n: Int64, rest: Bytes, depth: int)
    ensures CanonicalOne([I] + Itoa(n) + [E] + rest, depth)
  {
    ItoaReads(n);
    ItoaPlain(n);
    IntShape(Itoa(n), rest, depth);
  }

  lemma IntShape(t: Bytes, rest: Bytes, depth: int)
    requires t != [] && E !in t && PlainInt(t)
    ensures CanonicalOne([I] + t + [E] + rest, depth)
  {
    IndexAfter([I] + t, E, rest);
    assert ([I] + t + [E] + rest)[1..1 + |t|] == t;
  }

  lemma BracketCanonical(body: Bytes, rest: Bytes, depth: int)
    ensures CanonicalOne([L] + body + [E] + rest, depth) <==> CanonicalItems(body + [E] + rest, depth + 1)
    ensures CanonicalOne([D] + body + [E] + rest, depth) <==> CanonicalEntries(body + [E] + rest, depth + 1, None)
  {
    assert ([L] + body + [E] + rest)[1..] == body + [E] + rest;
    assert ([D] + body + [E] + rest)[1..] == body + [E] + rest;
  }

  lemma {:induction false} EncodedIsCanonical(v: Value, depth: int, rest: Bytes)
    requires Fits(v, depth)
    ensures CanonicalOne(Encoded(v) + rest, depth)
    decreases v
  {
    match v
    case Str(s) => StringCanonical(s, rest, depth);
    case Int(n) => IntCanonical(n, rest, depth);
    case List(_) => ListCanonical(v, depth, rest);
    case Dict(_) => DictCanonical(v, depth, rest);
  }

  lemma {:induction false} ListCanonical(v: Value, depth: int, rest: Bytes)
    requires v.List? && Fits(v, depth)
    ensures CanonicalOne(Encoded(v) + rest, depth)
    decreases v, |v.items| + 1
  {
    ListFits(v, depth);
    ItemsCanonical(v, 0, depth + 1, rest);
    BracketCanonical(EncodedItems(v, 0), rest, depth);
  }

  lemma {:induction false} ItemsCanonical(v: Value, i: nat, depth: int, rest: Bytes)
    requires v.List? && i <= |v.items| && ItemsFit(v, i, depth)
    ensures CanonicalItems(EncodedItems(v, i) + [E] + rest, depth)
    decreases v, |v.items| - i
  {
    if i < |v.items| {
      var x, tail := v.items[i], EncodedItems(v, i + 1);
      var more := tail + [E] + rest;
      Follow(Encoded(x), tail, rest);
      ItemsFitStep(v, i, depth);
      EncodedIsCanonical(x, depth, more);
      DecodeOfEncode(x, depth, more);
      ItemsCanonical(v, i + 1, depth, rest);
      OneItem(Encoded(x), more, depth);
    }
  }

  lemma OneItem(one: Bytes, more: Bytes, depth: int)
    requires CanonicalOne(one + more, depth) && DecodedOne(one + more, depth).Good?
    requires DecodedOne(one + more, depth).rest == more && CanonicalItems(more, depth)
    ensures CanonicalItems(one + more, depth)
  {
  }

  lemma {:induction false} DictCanonical(v: Value, depth: int, rest: Bytes)
    requires v.Dict? && Fits(v, depth)
    ensures CanonicalOne(Encoded(v) + rest, depth)
    decreases v, |InOrder(v.entries.Keys)| + 1
  {
    var ks := InOrder(v.entries.Keys);
    DictFits(v, depth);
    EntriesCanonical(v, ks, depth + 1, None, rest);
    BracketCanonical(EncodedEntries(v, ks), rest, depth);
  }

  lemma {:induction false} EntriesCanonical(v: Value, ks: seq<Bytes>, depth: int, last: Option<Bytes>, rest: Bytes)
    requires v.Dict? && Sorted(ks) && (forall k :: k in ks ==> k in v.entries) && EntriesFit(v, ks, depth)
    requires last.Some? && ks != [] ==> Less(last.value, ks[0])
    ensures CanonicalEntries(EncodedEntries(v, ks) + [E] + rest, depth, last)
    decreases v, |ks|
  {
    if ks != [] {
      var k, x := ks[0], v.entries[ks[0]];
      var more := EncodedEntries(v, ks[1..]) + [E] + rest;
      Follow(EncodedString(k) + Encoded(x), EncodedEntries(v, ks[1..]), rest);
      Regroup(EncodedString(k), Encoded(x), more);
      EntriesFitStep(v, ks, depth);
      StringCanonical(k, Encoded(x) + more, depth);
      StringReads(k, Encoded(x) + more);
      StringReadsAt(k, depth, Encoded(x) + more);
      EncodedIsCanonical(x, depth, more);
      DecodeOfEncode(x, depth, more);
      EntriesCanonical(v, ks[1..], depth, Some(k), rest);
      OneEntry(EncodedString(k) + (Encoded(x) + more), Encoded(x) + more, more, k, depth, last);
    }
  }

  lemma OneEntry(b: Bytes, afterKey: Bytes, more: Bytes, k: Bytes, depth: int, last: Option<Bytes>)
    requires CanonicalOne(b, depth) && DecodedOne(b, depth) == Good(Str(k), afterKey)
    requires CanonicalOne(afterKey, depth) && DecodedOne(afterKey, depth).Good? && DecodedOne(afterKey, depth).rest == more
    requires (last.Some? ==> Less(last.value, k)) && CanonicalEntries(more, depth, Some(k))
    ensures CanonicalEntries(b, depth, last)
  {
  }

  // ---- what is canonical is what encoding gives ----

  lemma StringSpelled(b: Bytes)
    requires DecodedString(b).Good? && PlainLength(b)
    ensures var d := DecodedString(b); d.value.Str? && b == EncodedString(d.value.bytes) + d.rest
  {
    var colon := IndexByte(b, COLON);
    var t, n := b[..colon], ParseInt(b[..colon]).value;
    assert PlainInt(t) by {
      assert t[0] in t;
    }
    PlainIntIff(t);
    var s := b[colon + 1..colon + 1 + n];
    assert |s| == n && b == t + [COLON] + s + b[colon + 1 + n..];
  }

  lemma IntSpelled(b: Bytes)
    requires b != [] && b[0] == I && DecodedInt(b).Good? && PlainInt(b[1..IndexByte(b, E)])
    ensures var d := DecodedInt(b); d.value.Int? && b == [I] + Itoa(d.value.n) + [E] + d.rest
  {
    var end := IndexByte(b, E);
    var t, rest := b[1..end], b[end + 1..];
    PlainIntIff(t);
    Around(b, end, t, rest);
  }

  lemma Around(b: Bytes, end: int, t: Bytes, rest: Bytes)
    requires 2 <= end < |b| && b[0] == I && b[end] == E && t == b[1..end] && rest == b[end + 1..]
    ensures b == [I] + t + [E] + rest
  {
  }

  lemma {:induction false} CanonicalIsEncoded(b: Bytes, depth: int)
    requires DecodedOne(b, depth).Good? && CanonicalOne(b, depth)
    ensures b == Encoded(DecodedOne(b, depth).value) + DecodedOne(b, depth).rest
    decreases |b|, 2
  {
    if b[0] == I {
      IntSpelled(b);
    } else if b[0] == L {
      ListSpelled(b, depth);
    } else if b[0] == D {
      DictSpelled(b, depth);
    } else {
      StringSpelled(b);
    }
  }

  lemma {:induction false} ListSpelled(b: Bytes, depth: int)
    requires b != [] && b[0] == L && DecodedItems(b[1..], depth + 1, []).Good? && CanonicalItems(b[1..], depth + 1)
    ensures var d := DecodedItems(b[1..], depth + 1, []); b == Encoded(d.value) + d.rest
    decreases |b|, 0
  {
    var d := DecodedItems(b[1..], depth + 1, []);
    ItemsSpelled(b[1..], depth + 1, []);
    Opened(b, L, EncodedItems(d.value, 0), d.rest);
    assert Encoded(d.value) == [L] + EncodedItems(d.value, 0) + [E];
  }

  lemma {:induction false} DictSpelled(b: Bytes, depth: int)
    requires b != [] && b[0] == D
    requires DecodedEntries(b[1..], depth + 1, map[]).Good? && CanonicalEntries(b[1..], depth + 1, None)
    ensures var d := DecodedEntries(b[1..], depth + 1, map[]); b == Encoded(d.value) + d.rest
    decreases |b|, 0
  {
    var d := DecodedEntries(b[1..], depth + 1, map[]);
    var more := EntriesSpelled(b[1..], depth + 1, map[], [], None);
    assert [] + more == more;
    DictOpened(b, d.value, more, d.rest);
  }

  lemma DictOpened(b: Bytes, v: Value, ks: seq<Bytes>, rest: Bytes)
    requires v.Dict? && Sorted(ks) && forall k :: k in v.entries <==> k in ks
    requires b != [] && b[0] == D && b[1..] == EncodedEntries(v, ks) + [E] + rest
    ensures b == Encoded(v) + rest
  {
    OneOrder(ks, InOrder(v.entries.Keys));
    Opened(b, D, EncodedEntries(v, ks), rest);
    assert Encoded(v) == [D] + EncodedEntries(v, ks) + [E];
  }

  lemma Opened(b: Bytes, open: byte, body: Bytes, rest: Bytes)
    requires b != [] && b[0] == open && b[1..] == body + [E] + rest
    ensures b == [open] + body + [E] + rest
  {
    assert b == [open] + b[1..];
  }

  lemma {:induction false} ItemsSpelled(b: Bytes, depth: int, out: seq<Value>)
    requires DecodedItems(b, depth, out).Good? && CanonicalItems(b, depth)
    ensures var d := DecodedItems(b, depth, out);
      d.value.List? && out <= d.value.items && b == EncodedItems(d.value, |out|) + [E] + d.rest
    decreases |b|, 3
  {
    var d := DecodedItems(b, depth, out);
    if b[0] == E {
      assert b == [] + [E] + b[1..];
    } else {
      var one := DecodedOne(b, depth);
      CanonicalIsEncoded(b, depth);
      ItemsSpelled(one.rest, depth, out + [one.value]);
      assert d.value.items[|out|] == one.value;
      Follow(Encoded(one.value), EncodedItems(d.value, |out| + 1), d.rest);
    }
  }

  /** Keys read so far: in order, and the last of them. */
  ghost predicate KeysSoFar(out: map<Bytes, Value>, ks: seq<Bytes>, last: Option<Bytes>)
  {
    Sorted(ks) && (forall k :: k in out <==> k in ks)
    && (last.None? <==> ks == []) && (last.Some? ==> last.value == ks[|ks| - 1])
  }

  lemma KeyMore(out: map<Bytes, Value>, ks: seq<Bytes>, last: Option<Bytes>, k: Bytes, v: Value)
    requires KeysSoFar(out, ks, last) && (last.Some? ==> Less(last.value, k))
    ensures k !in out && KeysSoFar(out[k := v], ks + [k], Some(k))
  {
    forall j | 0 <= j < |ks| ensures Less(ks[j], k) {
      if j < |ks| - 1 {
        LessIsTransitive(ks[j], ks[|ks| - 1], k);
      }
    }
    if k in ks {
      LessIsTotal(k, k);
    }
    assert forall x :: x in ks + [k] <==> x in ks || x == k;
  }

  /** b is the rest of the dictionary v: after the keys ks come the entries of the
      keys more, as encoding spells them. */
  ghost predicate Spelled(b: Bytes, v: Value, rest: Bytes, ks: seq<Bytes>, more: seq<Bytes>)
  {
    v.Dict? && Sorted(ks + more) && (forall k :: k in v.entries <==> k in ks + more)
    && (forall k :: k in more ==> k in v.entries)
    && b == EncodedEntries(v, more) + [E] + rest
  }

  ghost predicate Extends(v: Value, out: map<Bytes, Value>)
  {
    v.Dict? && forall k :: k in out ==> k in v.entries && v.entries[k] == out[k]
  }

  lemma {:induction false} EntriesSpelled(b: Bytes, depth: int, out: map<Bytes, Value>, ks: seq<Bytes>, last: Option<Bytes>)
    returns (more: seq<Bytes>)
    requires DecodedEntries(b, depth, out).Good? && CanonicalEntries(b, depth, last) && KeysSoFar(out, ks, last)
    ensures var d := DecodedEntries(b, depth, out); Extends(d.value, out) && Spelled(b, d.value, d.rest, ks, more)
    decreases |b|, 3
  {
    if b[0] == E {
      more := [];
      assert ks + [] == ks && b == [] + [E] + b[1..];
    } else {
      var k, v := EntryRead(b, depth, out, last);
      var key := k.value.bytes;
      CanonicalIsEncoded(b, depth);
      CanonicalIsEncoded(k.rest, depth);
      KeyMore(out, ks, last, key, v.value);
      var tail := EntriesSpelled(v.rest, depth, out[key := v.value], ks + [key], Some(key));
      more := [key] + tail;
      SpelledAgain(b, DecodedEntries(b, depth, out), k, v, out, ks, tail);
    }
  }

  /** The first entry, and what is known of the rest. */
  lemma EntryRead(b: Bytes, depth: int, out: map<Bytes, Value>, last: Option<Bytes>) returns (k: Decoded, v: Decoded)
    requires DecodedEntries(b, depth, out).Good? && CanonicalEntries(b, depth, last) && b[0] != E
    ensures k == DecodedOne(b, depth) && k.Good? && k.value.Str? && CanonicalOne(b, depth) && |k.rest| < |b|
    ensures v == DecodedOne(k.rest, depth) && v.Good? && CanonicalOne(k.rest, depth) && |v.rest| < |b|
    ensures last.Some? ==> Less(last.value, k.value.bytes)
    ensures CanonicalEntries(v.rest, depth, Some(k.value.bytes))
    ensures DecodedEntries(b, depth, out) == DecodedEntries(v.rest, depth, out[k.value.bytes := v.value])
  {
    k := DecodedOne(b, depth);
    v := DecodedOne(k.rest, depth);
  }

  lemma SpelledAgain(b: Bytes, d: Decoded, k: Decoded, v: Decoded, out: map<Bytes, Value>, ks: seq<Bytes>, tail: seq<Bytes>)
    requires d.Good? && k.Good? && k.value.Str? && v.Good?
    requires b == Encoded(k.value) + k.rest && k.rest == Encoded(v.value) + v.rest
    requires k.value.bytes !in out && Extends(d.value, out[k.value.bytes := v.value])
    requires Spelled(v.rest, d.value, d.rest, ks + [k.value.bytes], tail)
    ensures Extends(d.value, out) && Spelled(b, d.value, d.rest, ks, [k.value.bytes] + tail)
  {
    var key := k.value.bytes;
    assert ks + [key] + tail == ks + ([key] + tail);
    ExtendsLess(d.value, out, key, v.value);
    OneMore(b, d.value, key, tail, k.rest, v.rest, d.rest);
  }

  lemma ExtendsLess(d: Value, out: map<Bytes, Value>, key: Bytes, v: Value)
    requires key !in out && Extends(d, out[key := v])
    ensures Extends(d, out) && key in d.entries && d.entries[key] == v
  {
    assert key in out[key := v];
    forall x | x in out ensures x in d.entries && d.entries[x] == out[x] {
      assert x in out[key := v];
    }
  }

  lemma OneMore(b: Bytes, v: Value, key: Bytes, tail: seq<Bytes>, afterKey: Bytes, after: Bytes, rest: Bytes)
    requires v.Dict? && key in v.entries && forall k :: k in tail ==> k in v.entries
    requires b == EncodedString(key) + afterKey && afterKey == Encoded(v.entries[key]) + after
    requires after == EncodedEntries(v, tail) + [E] + rest
    ensures (forall k :: k in [key] + tail ==> k in v.entries) && b == EncodedEntries(v, [key] + tail) + [E] + rest
  {
    var x := Encoded(v.entries[key]);
    assert ([key] + tail)[1..] == tail;
    Regroup(EncodedString(key), x, after);
    Follow(EncodedString(key) + x, EncodedEntries(v, tail), rest);
  }

  /** Encoding gives back the very bytes that were decoded exactly if they were
      canonical: numbers plain, and keys each once and in order. */
  lemma OnlyCanonical(b: Bytes, v: Value)
    requires Message(b) == Some(v)
    ensures Encoded(v) == b <==> Canonical(b)
  {
    DecodedFits(b, 0);
    assert b + [] == b && Encoded(v) + [] == Encoded(v);
    if Canonical(b) {
      CanonicalIsEncoded(b, 0);
    }
    if Encoded(v) == b {
      EncodedIsCanonical(v, 0, []);
    }
  }
}
