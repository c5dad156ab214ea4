/** internal/dht/bencode.go: byte strings, integers, lists and dictionaries with
    string keys, as BEP 3 writes them. */
module Bencode {
  import opened Common
  import opened Ipv4
  import opened Decimal

  type Int64 = n: int | -0x8000_0000_0000_0000 <= n < 0x8000_0000_0000_0000

  datatype Value =
    | Str(bytes: Bytes)
    | Int(n: Int64)
    | List(items: seq<Value>)
    | Dict(entries: map<Bytes, Value>)

  const PLUS: byte := 43
  const MINUS: byte := 45
  const ZERO: byte := 48
  const NINE: byte := 57
  const COLON: byte := 58
  const D: byte := 100
  const E: byte := 101
  const I: byte := 105
  const L: byte := 108

  const MAX_DEPTH := 32

  // ---- the order of keys ----

  /** The order of Go's strings: byte by byte. */
  predicate Less(a: Bytes, b: Bytes)
  {
    b != [] && (a == [] || a[0] < b[0] || (a[0] == b[0] && Less(a[1..], b[1..])))
  }

  predicate Sorted(ks: seq<Bytes>)
  {
    forall i, j :: 0 <= i < j < |ks| ==> Less(ks[i], ks[j])
  }

  lemma {:induction false} LessIsTotal(a: Bytes, b: Bytes)
    ensures Less(a, b) || a == b || Less(b, a)
    ensures !(Less(a, b) && Less(b, a)) && !Less(a, a)
  {
    if a != [] {
      if b != [] {
        LessIsTotal(a[1..], b[1..]);
        assert a == [a[0]] + a[1..] && b == [b[0]] + b[1..];
      }
      LessIsTotal(a[1..], a[1..]);
    }
  }

  lemma {:induction false} LessIsTransitive(a: Bytes, b: Bytes, c: Bytes)
    requires Less(a, b) && Less(b, c)
    ensures Less(a, c)
  {
    if a != [] && a[0] == b[0] == c[0] {
      LessIsTransitive(a[1..], b[1..], c[1..]);
    }
  }

  function Insert(k: Bytes, ks: seq<Bytes>): (r: seq<Bytes>)
    requires Sorted(ks)
    ensures Sorted(r) && forall x :: x in r <==> x in ks || x == k
  {
    if ks == [] then [k]
    else if k == ks[0] then ks
    else if Less(k, ks[0]) then
      InFront(k, ks);
      [k] + ks
    else
      LessIsTotal(k, ks[0]);
      Behind(k, ks, Insert(k, ks[1..]));
      [ks[0]] + Insert(k, ks[1..])
  }

  lemma InFront(k: Bytes, ks: seq<Bytes>)
    requires Sorted(ks) && ks != [] && Less(k, ks[0])
    ensures Sorted([k] + ks)
  {
    forall i, j | 0 <= i < j < |ks| + 1 ensures Less(([k] + ks)[i], ([k] + ks)[j]) {
      if i > 0 {
        assert Less(ks[i - 1], ks[j - 1]);
      } else if j > 1 {
        LessIsTransitive(k, ks[0], ks[j - 1]);
      }
    }
  }

  /** r is the tail of ks with k in its place. */
  lemma Behind(k: Bytes, ks: seq<Bytes>, r: seq<Bytes>)
    requires Sorted(ks) && ks != [] && Less(ks[0], k) && Sorted(r) && forall x :: x in r <==> x in ks[1..] || x == k
    ensures Sorted([ks[0]] + r) && forall x :: x in [ks[0]] + r <==> x in ks || x == k
  {
    assert ks == [ks[0]] + ks[1..];
    forall i, j | 0 <= i < j < |r| + 1 ensures Less(([ks[0]] + r)[i], ([ks[0]] + r)[j]) {
      if i > 0 {
        assert Less(r[i - 1], r[j - 1]);
      } else {
        assert r[j - 1] in r;
      }
    }
  }

  /** The keys of a dictionary in order. */
  ghost function InOrder(keys: set<Bytes>): (ks: seq<Bytes>)
    ensures Sorted(ks) && forall k :: k in ks <==> k in keys
  {
    if keys == {} then []
    else
      var k :| k in keys;
      Insert(k, InOrder(keys - {k}))
  }

  lemma TailKeys(a: seq<Bytes>)
    requires Sorted(a) && a != []
    ensures forall k :: k in a[1..] <==> k in a && k != a[0]
  {
    assert a == [a[0]] + a[1..];
    forall k | k in a[1..] ensures k != a[0] {
      LessIsTotal(a[0], a[0]);
    }
  }

  /** There is one way only to put a set of keys in order. */
  lemma {:induction false} OneOrder(a: seq<Bytes>, b: seq<Bytes>)
    requires Sorted(a) && Sorted(b) && forall k :: k in a <==> k in b
    ensures a == b
  {
    assert a != [] ==> a[0] in a;
    assert b != [] ==> b[0] in b;
    if a != [] {
      assert a[0] in b && b[0] in a;
      LessIsTotal(a[0], b[0]);
      TailKeys(a);
      TailKeys(b);
      OneOrder(a[1..], b[1..]);
    }
  }

  // ---- encoding ----

  function DigitByte(d: Digit): byte
  {
    d as int + 48
  }

  function ByteDigit(b: byte): Digit
  {
    if ZERO <= b <= NINE then b as int - 48 else 0
  }

  function DigitBytes(n: nat): Bytes
  {
    var ds := Digits(n);
    seq(|ds|, i requires 0 <= i < |ds| => DigitByte(ds[i]))
  }

  /** strconv.Itoa. */
  function Itoa(n: int): Bytes
  {
    if n < 0 then [MINUS] + DigitBytes(-n) else DigitBytes(n)
  }

  ghost function Encoded(v: Value): (b: Bytes)
    decreases v
  {
    match v
    case Str(s) => EncodedString(s)
    case Int(n) => [I] + Itoa(n) + [E]
    case List(items) => [L] + EncodedItems(v, 0) + [E]
    case Dict(m) => [D] + EncodedEntries(v, InOrder(m.Keys)) + [E]
  }

  function EncodedString(s: Bytes): Bytes
  {
    Itoa(|s|) + [COLON] + s
  }

  /** The elements of a list from the i-th on. */
  ghost function EncodedItems(v: Value, i: nat): Bytes
    requires v.List? && i <= |v.items|
    decreases v, |v.items| - i
  {
    if i == |v.items| then [] else Encoded(v.items[i]) + EncodedItems(v, i + 1)
  }

  ghost function EncodedEntries(v: Value, ks: seq<Bytes>): Bytes
    requires v.Dict? && forall k :: k in ks ==> k in v.entries
    decreases v, |ks|
  {
    if ks == [] then []
    else EncodedString(ks[0]) + Encoded(v.entries[ks[0]]) + EncodedEntries(v, ks[1..])
  }

  class Buffer {
    var data: Bytes

    constructor ()
      ensures data == []
    {
      data := [];
    }

    method Write(b: Bytes)
      modifies this
      ensures data == old(data) + b
    {
      data := data + b;
    }
  }

  /** sort.Strings on distinct keys. */
  method SortStrings(keys: seq<Bytes>) returns (ks: seq<Bytes>)
    ensures Sorted(ks) && forall k :: k in ks <==> k in keys
  {
    ks := [];
    for i := 0 to |keys|
      invariant Sorted(ks) && forall k :: k in ks <==> k in keys[..i]
    {
      ks := Insert(keys[i], ks);
    }
    assert keys[..|keys|] == keys;
  }

  /** The keys of a dictionary in whatever order ranging over it gives. */
  method Range(m: map<Bytes, Value>) returns (keys: seq<Bytes>)
    ensures forall k :: k in keys <==> k in m
  {
    keys := [];
    var left := m.Keys;
    while left != {}
      invariant left <= m.Keys
      invariant forall k :: k in keys <==> k in m && k !in left
      decreases |left|
    {
      var k :| k in left;
      keys := keys + [k];
      left := left - {k};
    }
  }

  /** encode: appends the one encoding of v, in whatever order the dictionaries
      in it are ranged over. */
  method EncodeTo(buf: Buffer, v: Value)
    modifies buf
    ensures buf.data == old(buf.data) + Encoded(v)
    decreases v
  {
    match v
    case Str(s) =>
      EncodeString(buf, s);
    case Int(n) =>
      buf.Write([I] + Itoa(n) + [E]);
    case List(items) =>
      EncodeList(buf, v);
    case Dict(m) =>
      EncodeDict(buf, v);
  }

  method EncodeList(buf: Buffer, v: Value)
    requires v.List?
    modifies buf
    ensures buf.data == old(buf.data) + Encoded(v)
    decreases v, 1
  {
    buf.Write([L]);
    ghost var was := buf.data;
    for i := 0 to |v.items|
      invariant buf.data + EncodedItems(v, i) == was + EncodedItems(v, 0)
    {
      ghost var data := buf.data;
      EncodeTo(buf, v.items[i]);
      Regroup(data, Encoded(v.items[i]), EncodedItems(v, i + 1));
    }
    buf.Write([E]);
    Bracketed(old(buf.data), [L], EncodedItems(v, 0), [E]);
  }

  method EncodeDict(buf: Buffer, v: Value)
    requires v.Dict?
    modifies buf
    ensures buf.data == old(buf.data) + Encoded(v)
    decreases v, 1
  {
    var keys := Range(v.entries);
    var ks := SortStrings(keys);
    OneOrder(ks, InOrder(v.entries.Keys));
    buf.Write([D]);
    ghost var was := buf.data;
    for i := 0 to |ks|
      invariant buf.data + EncodedEntries(v, ks[i..]) == was + EncodedEntries(v, ks)
    {
      assert ks[i] in ks && ks[i..][0] == ks[i] && ks[i..][1..] == ks[i + 1..];
      ghost var data := buf.data;
      EncodeString(buf, ks[i]);
      EncodeTo(buf, v.entries[ks[i]]);
      Regroup(data, EncodedString(ks[i]) + Encoded(v.entries[ks[i]]), EncodedEntries(v, ks[i + 1..]));
      Regroup(data, EncodedString(ks[i]), Encoded(v.entries[ks[i]]));
    }
    buf.Write([E]);
    Bracketed(old(buf.data), [D], EncodedEntries(v, ks), [E]);
  }

  method EncodeString(buf: Buffer, s: Bytes)
    modifies buf
    ensures buf.data == old(buf.data) + EncodedString(s)
  {
    buf.Write(Itoa(|s|) + [COLON] + s);
  }

  lemma Bracketed(a: Bytes, open: Bytes, b: Bytes, close: Bytes)
    ensures a + open + b + close == a + (open + b + close)
  {
  }

  lemma Regroup(a: Bytes, b: Bytes, c: Bytes)
    ensures a + (b + c) == a + b + c
  {
  }

  method Encode(v: Value) returns (b: Bytes)
    ensures b == Encoded(v)
  {
    var buf := new Buffer();
    EncodeTo(buf, v);
    b := buf.data;
  }

  // ---- decoding ----

  /** Bad is errBencode. */
  datatype Decoded = Bad | Good(value: Value, rest: Bytes)

  /** bytes.IndexByte. */
  function IndexByte(b: Bytes, c: byte): (i: int)
    ensures -1 <= i < |b|
    ensures i >= 0 ==> b[i] == c
  {
    if b == [] then -1
    else if b[0] == c then 0
    else
      var i := IndexByte(b[1..], c);
      if i < 0 then -1 else i + 1
  }

  predicate AreDigits(b: Bytes)
  {
    b != [] && forall x :: x in b ==> ZERO <= x <= NINE
  }

  function Number(b: Bytes): nat
  {
    Decimal.Value(seq(|b|, i requires 0 <= i < |b| => ByteDigit(b[i])))
  }

  /** strconv.ParseInt(s, 10, 64), and strconv.Atoi. */
  function ParseInt(b: Bytes): Option<Int64>
  {
    var negative := b != [] && b[0] == MINUS;
    var digits := if b != [] && (b[0] == PLUS || b[0] == MINUS) then b[1..] else b;
    if !AreDigits(digits) then None
    else
      var size: int := Number(digits);
      var n := if negative then -size else size;
      if -0x8000_0000_0000_0000 <= n < 0x8000_0000_0000_0000 then Some(n) else None
  }

  function DecodedInt(b: Bytes): Decoded
  {
    var end := IndexByte(b, E);
    if end < 2 then Bad
    else
      match ParseInt(b[1..end])
      case None => Bad
      case Some(n) => Good(Int(n), b[end + 1..])
  }

  function DecodedString(b: Bytes): Decoded
  {
    var colon := IndexByte(b, COLON);
    if colon < 1 then Bad
    else
      match ParseInt(b[..colon])
      case None => Bad
      case Some(n) =>
        if n < 0 || colon + 1 + n > |b| then Bad
        else Good(Str(b[colon + 1..colon + 1 + n]), b[colon + 1 + n..])
  }

  /** What is left is the end of what there was, and shorter. */
  predicate Shortened(d: Decoded, b: Bytes)
  {
    d.Good? ==> |d.rest| < |b| && d.rest == b[|b| - |d.rest|..]
  }

  function DecodedOne(b: Bytes, depth: int): (d: Decoded)
    ensures Shortened(d, b)
    decreases |b|, 0
  {
    if b == [] || depth > MAX_DEPTH then Bad
    else if b[0] == I then DecodedInt(b)
    else if b[0] == L then DecodedItems(b[1..], depth + 1, [])
    else if b[0] == D then DecodedEntries(b[1..], depth + 1, map[])
    else if ZERO <= b[0] <= NINE then DecodedString(b)
    else Bad
  }

  /** The rest of a list whose first elements are out. */
  function DecodedItems(b: Bytes, depth: int, out: seq<Value>): (d: Decoded)
    ensures Shortened(d, b)
    decreases |b|, 1
  {
    if b == [] then Bad
    else if b[0] == E then Good(List(out), b[1..])
    else
      match DecodedOne(b, depth)
      case Bad => Bad
      case Good(v, rest) => DecodedItems(rest, depth, out + [v])
  }

  /** The rest of a dictionary that so far holds out; the last of equal keys
      wins. */
  function DecodedEntries(b: Bytes, depth: int, out: map<Bytes, Value>): (d: Decoded)
    ensures Shortened(d, b)
    decreases |b|, 1
  {
    if b == [] then Bad
    else if b[0] == E then Good(Dict(out), b[1..])
    else
      match DecodedOne(b, depth)
      case Bad => Bad
      case Good(k, rest) =>
        if !k.Str? then Bad
        else
          match DecodedOne(rest, depth)
          case Bad => Bad
          case Good(v, rest') => DecodedEntries(rest', depth, out[k.bytes := v])
  }

  method DecodeOne(b: Bytes, depth: int) returns (d: Decoded)
    ensures d == DecodedOne(b, depth)
    decreases |b|
  {
    if |b| == 0 || depth > MAX_DEPTH {
      return Bad;
    }
    var c := b[0];
    if c == I {
      return DecodedInt(b);
    } else if c == L {
      d := DecodeList(b, depth);
    } else if c == D {
      d := DecodeDict(b, depth);
    } else if ZERO <= c <= NINE {
      return DecodedString(b);
    } else {
      return Bad;
    }
  }

  method DecodeList(was: Bytes, depth: int) returns (d: Decoded)
    requires was != []
    ensures d == DecodedItems(was[1..], depth + 1, [])
    decreases |was|, 0
  {
    var out: seq<Value> := [];
    var b := was[1..];
    while |b| > 0 && b[0] != E
      invariant |b| < |was| && DecodedItems(b, depth + 1, out) == DecodedItems(was[1..], depth + 1, [])
      decreases |b|
    {
      var one := DecodeOne(b, depth + 1);
      match one {
        case Bad => return Bad;
        case Good(v, rest) =>
          out := out + [v];
          b := rest;
      }
    }
    if |b| == 0 {
      return Bad;
    }
    return Good(List(out), b[1..]);
  }

  method DecodeDict(was: Bytes, depth: int) returns (d: Decoded)
    requires was != []
    ensures d == DecodedEntries(was[1..], depth + 1, map[])
    decreases |was|, 0
  {
    var out: map<Bytes, Value> := map[];
    var b := was[1..];
    while |b| > 0 && b[0] != E
      invariant |b| < |was| && DecodedEntries(b, depth + 1, out) == DecodedEntries(was[1..], depth + 1, map[])
      decreases |b|
    {
      var k := DecodeOne(b, depth + 1);
      if k.Bad? || !k.value.Str? {
        return Bad;
      }
      var v := DecodeOne(k.rest, depth + 1);
      if v.Bad? {
        return Bad;
      }
      out := out[k.value.bytes := v.value];
      b := v.rest;
    }
    if |b| == 0 {
      return Bad;
    }
    return Good(Dict(out), b[1..]);
  }

  /** A whole message. */
  function Message(b: Bytes): Option<Value>
  {
    var d := DecodedOne(b, 0);
    if d.Good? && d.rest == [] then Some(d.value) else None
  }

  method Decode(b: Bytes) returns (v: Option<Value>)
    ensures v == Message(b)
  {
    var d := DecodeOne(b, 0);
    if d.Bad? || |d.rest| != 0 {
      return None;
    }
    return Some(d.value);
  }
}
