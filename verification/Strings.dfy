/** Go's string functions as far as the rules of a room use them. */
module Strings {

  /** unicode.IsSpace. */
  predicate IsSpace(c: char)
  {
    '\t' <= c <= '\r' || c == ' ' || c == '\U{85}' || c == '\U{A0}' || c == '\U{1680}'
    || '\U{2000}' <= c <= '\U{200A}' || c == '\U{2028}' || c == '\U{2029}' || c == '\U{202F}'
    || c == '\U{205F}' || c == '\U{3000}'
  }

  /** strings.ToLower as far as it yields letters of the words compared here. */
  function Lower(c: char): char
  {
    if 'A' <= c <= 'Z' then (c as int + 32) as char
    else if c == '\U{130}' then 'i'
    else if c == '\U{212A}' then 'k'
    else c
  }

  function ToLower(s: string): string
  {
    seq(|s|, i requires 0 <= i < |s| => Lower(s[i]))
  }

  /** The length of a string in bytes. */
  function ByteLen(s: string): nat
  {
    if s == [] then 0
    else
      (if s[0] < '\U{80}' then 1 else if s[0] < '\U{800}' then 2 else if s[0] < '\U{10000}' then 3 else 4)
      + ByteLen(s[1..])
  }

  function SplitBy(s: string, sep: char -> bool): (parts: seq<string>)
    ensures parts != []
  {
    if s == [] then [[]]
    else
      var r := SplitBy(s[1..], sep);
      if sep(s[0]) then [[]] + r else [[s[0]] + r[0]] + r[1..]
  }

  function Is(sep: char): char -> bool
  {
    c => c == sep
  }

  function Split(s: string, sep: char): seq<string>
  {
    SplitBy(s, Is(sep))
  }

  function NonEmpty(xs: seq<string>): seq<string>
  {
    if xs == [] then []
    else NonEmpty(xs[..|xs| - 1]) + if xs[|xs| - 1] == "" then [] else [xs[|xs| - 1]]
  }

  function Fields(s: string): seq<string>
  {
    NonEmpty(SplitBy(s, IsSpace))
  }

  function TrimLeft(s: string): string
  {
    if s != [] && IsSpace(s[0]) then TrimLeft(s[1..]) else s
  }

  function TrimRight(s: string): string
  {
    if s != [] && IsSpace(s[|s| - 1]) then TrimRight(s[..|s| - 1]) else s
  }

  function TrimSpace(s: string): string
  {
    TrimRight(TrimLeft(s))
  }

  function Join(xs: seq<string>, sep: char): string
  {
    if xs == [] then "" else if |xs| == 1 then xs[0] else xs[0] + [sep] + Join(xs[1..], sep)
  }

  /** strings.Cut at the first sep: before, after and whether there is one. */
  datatype Cut = Cut(before: string, after: string, found: bool)

  function CutAt(s: string, sep: char): Cut
  {
    if s == [] then Cut("", "", false)
    else if s[0] == sep then Cut("", s[1..], true)
    else
      var r := CutAt(s[1..], sep);
      Cut([s[0]] + r.before, r.after, r.found)
  }

  predicate NoneOf(s: string, bad: char -> bool)
  {
    forall c :: c in s ==> !bad(c)
  }

  lemma {:induction false} CutWord(w: string, rest: string, sep: char)
    requires sep !in w
    ensures CutAt(w + [sep] + rest, sep) == Cut(w, rest, true)
    ensures CutAt(w, sep) == Cut(w, "", false)
  {
    if w == [] {
      assert ([sep] + rest)[1..] == rest && w + [sep] + rest == [sep] + rest;
    } else {
      assert w[0] in w;
      assert (w + [sep] + rest)[1..] == w[1..] + [sep] + rest;
      assert forall c :: c in w[1..] ==> c in w;
      CutWord(w[1..], rest, sep);
    }
  }

  lemma LowerCase(s: string)
    requires forall c :: c in s ==> c < 'A' || 'a' <= c <= 'z'
    ensures ToLower(s) == s
  {
    forall i | 0 <= i < |s| ensures Lower(s[i]) == s[i] { assert s[i] in s; }
  }

  // ---- splitting ----

  /** The first piece ends at the first separator. */
  lemma {:induction false} SplitWord(w: string, c: char, rest: string, sep: char -> bool)
    requires NoneOf(w, sep)
    ensures SplitBy(w, sep) == [w]
    ensures sep(c) ==> SplitBy(w + [c] + rest, sep) == [w] + SplitBy(rest, sep)
  {
    if w == [] {
      assert w + [c] + rest == [c] + rest;
      assert ([c] + rest)[1..] == rest;
    } else {
      assert (w + [c] + rest)[1..] == w[1..] + [c] + rest;
      assert w[0] in w;
      SplitWord(w[1..], c, rest, sep);
      assert [w[0]] + w[1..] == w;
    }
  }

  /** Joined words come apart again. */
  lemma {:induction false} SplitJoin(xs: seq<string>, c: char, sep: char -> bool)
    requires xs != [] && sep(c) && forall x :: x in xs ==> NoneOf(x, sep)
    ensures SplitBy(Join(xs, c), sep) == xs
  {
    SplitWord(xs[0], c, Join(xs[1..], c), sep);
    if |xs| > 1 {
      SplitJoin(xs[1..], c, sep);
      assert [xs[0]] + xs[1..] == xs;
    } else {
      assert xs == [xs[0]];
    }
  }

  /** Every piece holds characters of the text, none of them a separator. */
  lemma {:induction false} PieceOf(s: string, sep: char -> bool)
    ensures forall x, c :: x in SplitBy(s, sep) && c in x ==> c in s && !sep(c)
  {
    if s != [] {
      PieceOf(s[1..], sep);
      var r := SplitBy(s[1..], sep);
      forall x, c | x in SplitBy(s, sep) && c in x ensures c in s && !sep(c) {
        if !sep(s[0]) && x == [s[0]] + r[0] {
          assert c == s[0] || c in r[0];
        } else {
          assert x == [] || x in r;
        }
      }
    }
  }

  lemma {:induction false} NonEmptyIn(xs: seq<string>)
    ensures forall x :: x in NonEmpty(xs) <==> x in xs && x != ""
  {
    if xs != [] {
      NonEmptyIn(xs[..|xs| - 1]);
      assert xs == xs[..|xs| - 1] + [xs[|xs| - 1]];
    }
  }

  lemma {:induction false} NonEmptyAdds(xs: seq<string>, ys: seq<string>)
    ensures NonEmpty(xs + ys) == NonEmpty(xs) + NonEmpty(ys)
  {
    if ys == [] {
      assert xs + ys == xs;
    } else {
      NonEmptyAdds(xs, ys[..|ys| - 1]);
      assert (xs + ys)[..|xs + ys| - 1] == xs + ys[..|ys| - 1];
    }
  }

  lemma {:induction false} NonEmptyAll(xs: seq<string>)
    requires "" !in xs
    ensures NonEmpty(xs) == xs
  {
    if xs != [] {
      var init, x := xs[..|xs| - 1], xs[|xs| - 1];
      NonEmptyAll(init);
      assert x in xs && xs == init + [x];
    }
  }

  lemma NonEmptyOne(w: string)
    ensures NonEmpty([w]) == if w == "" then [] else [w]
  {
    assert [w][..0] == [];
  }

  lemma {:induction false} SplitEnd(s: string, c: char, sep: char -> bool)
    requires sep(c)
    ensures SplitBy(s + [c], sep) == SplitBy(s, sep) + [""]
  {
    if s == [] {
      assert SplitBy([c], sep) == [[]] + SplitBy([], sep);
    } else {
      SplitEnd(s[1..], c, sep);
      assert (s + [c])[1..] == s[1..] + [c];
    }
  }

  /** A word appended to a text joins its last piece. */
  lemma {:induction false} SplitExtend(s: string, w: string, sep: char -> bool)
    requires NoneOf(w, sep)
    ensures SplitBy(s + w, sep) == Extended(SplitBy(s, sep), w)
  {
    if s == [] {
      SplitWord(w, ' ', "", sep);
      assert [] + w == w;
    } else {
      SplitExtend(s[1..], w, sep);
      assert (s + w)[1..] == s[1..] + w;
      ExtendedFront(SplitBy(s[1..], sep), s[0], w);
    }
  }

  function Extended(xs: seq<string>, w: string): seq<string>
    requires xs != []
  {
    xs[..|xs| - 1] + [xs[|xs| - 1] + w]
  }

  lemma ExtendedFront(r: seq<string>, c: char, w: string)
    requires r != []
    ensures Extended([[]] + r, w) == [[]] + Extended(r, w)
    ensures var x := Extended(r, w); Extended([[c] + r[0]] + r[1..], w) == [[c] + x[0]] + x[1..]
  {
    if |r| == 1 {
      assert [c] + (r[0] + w) == [c] + r[0] + w;
    }
  }

  // ---- trimming ----

  lemma TrimNothing(s: string)
    requires NoneOf(s, IsSpace)
    ensures TrimSpace(s) == s
  {
    if s != [] {
      assert s[0] in s && s[|s| - 1] in s;
    }
  }

  /** Spaces at the end add no field, and what starts a line stays. */
  lemma {:induction false} FieldsTrimRight(s: string)
    ensures Fields(TrimRight(s)) == Fields(s)
    ensures s != "" && !IsSpace(s[0]) ==> TrimRight(s) != "" && TrimRight(s)[0] == s[0]
  {
    if s != [] && IsSpace(s[|s| - 1]) {
      var init := s[..|s| - 1];
      FieldsTrimRight(init);
      SplitEnd(init, s[|s| - 1], IsSpace);
      assert s == init + [s[|s| - 1]];
      assert (SplitBy(init, IsSpace) + [""])[..|SplitBy(init, IsSpace)|] == SplitBy(init, IsSpace);
    }
  }

  // ---- joining ----

  lemma Associative(a: string, b: string, c: string)
    ensures a + (b + c) == a + b + c
  {
  }

  lemma {:induction false} JoinMore(ws: seq<string>, w: string, c: char)
    requires ws != []
    ensures Join(ws + [w], c) == Join(ws, c) + ([c] + w)
  {
    assert (ws + [w])[1..] == ws[1..] + [w];
    if |ws| > 1 {
      JoinMore(ws[1..], w, c);
      Associative(ws[0] + [c], Join(ws[1..], c), [c] + w);
    }
  }

  lemma {:induction false} JoinClean(xs: seq<string>, c: char, bad: char -> bool)
    requires forall x :: x in xs ==> NoneOf(x, bad)
    requires !bad(c)
    ensures NoneOf(Join(xs, c), bad)
  {
    if xs != [] {
      assert xs[0] in xs;
      JoinClean(xs[1..], c, bad);
    }
  }

  /** Each word with a space before it. */
  function Tail(ws: seq<string>): string
  {
    if ws == [] then "" else Tail(ws[..|ws| - 1]) + ([' '] + ws[|ws| - 1])
  }

  lemma {:induction false} JoinTail(head: seq<string>, ws: seq<string>)
    requires head != []
    ensures Join(head + ws, ' ') == Join(head, ' ') + Tail(ws)
  {
    if ws == [] {
      assert head + ws == head;
    } else {
      var init, w := ws[..|ws| - 1], ws[|ws| - 1];
      JoinTail(head, init);
      assert head + ws == head + init + [w];
      JoinMore(head + init, w, ' ');
      Associative(Join(head, ' '), Tail(init), [' '] + w);
    }
  }

  /** A line of words without spaces comes apart into them; the empty ones are
      lost. */
  lemma JoinedFields(ws: seq<string>)
    requires ws != [] && forall w :: w in ws ==> NoneOf(w, IsSpace)
    ensures Fields(Join(ws, ' ')) == NonEmpty(ws) && '\n' !in Join(ws, ' ')
  {
    SplitJoin(ws, ' ', IsSpace);
    forall w | w in ws ensures NoneOf(w, Is('\n')) {
    }
    JoinClean(ws, ' ', Is('\n'));
  }

  /** Each line with its end. */
  function TextOf(lines: seq<string>): string
  {
    if lines == [] then "" else TextOf(lines[..|lines| - 1]) + lines[|lines| - 1] + ['\n']
  }

  lemma {:induction false} SplitText(lines: seq<string>)
    requires forall l :: l in lines ==> '\n' !in l
    ensures Split(TextOf(lines), '\n') == lines + [""]
  {
    if lines != [] {
      var init, l := lines[..|lines| - 1], lines[|lines| - 1];
      SplitText(init);
      assert l in lines;
      SplitExtend(TextOf(init), l, Is('\n'));
      OneMore(init, l);
      SplitEnd(TextOf(init) + l, '\n', Is('\n'));
      assert lines == init + [l];
    }
  }

  lemma OneMore(init: seq<string>, l: string)
    ensures Extended(init + [""], l) == init + [l]
  {
    assert (init + [""])[..|init|] == init && "" + l == l;
  }

  /** An empty second word is lost, and the third takes its place. */
  lemma LoseSecond(a: string, c: string, rest: seq<string>)
    requires a != "" && c != ""
    ensures NonEmpty([a, "", c] + rest) == [a, c] + NonEmpty(rest)
  {
    NonEmptyAdds([a, "", c], rest);
    LoseMiddle(a, c);
  }

  lemma LoseMiddle(a: string, c: string)
    requires a != "" && c != ""
    ensures NonEmpty([a, "", c]) == [a, c]
  {
    NonEmptyOne(a);
    assert [a, ""][..1] == [a];
    assert [a, "", c][..2] == [a, ""];
  }

  /** An empty fourth word is lost. */
  lemma LoseFourth(head: seq<string>, rest: seq<string>)
    requires "" !in head && "" !in rest
    ensures NonEmpty(head + [""] + rest) == head + rest
  {
    NonEmptyAll(head);
    NonEmptyAll(rest);
    NonEmptyOne("");
    NonEmptyAdds(head + [""], rest);
    NonEmptyAdds(head, [""]);
    assert head + [] == head;
  }
}
