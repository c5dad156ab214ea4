/** internal/acl/acl.go: which lists of rules survive being printed and read. */
module AclRoundTrip {
  import opened Ipv4
  import opened AclPolicy
  import opened Decimal
  import opened Strings
  import opened AclText

  /** A selector as a text can say it: a piece of a field that passes the check. */
  predicate GoodSelector(text: Text, s: string, to: bool)
  {
    Piece(s) && CheckSel(text, s, to)
  }

  predicate Piece(s: string)
  {
    s != "" && NoneOf(s, IsSpace) && ',' !in s
  }

  predicate GoodRule(text: Text, r: Rule)
  {
    (forall s :: s in r.from ==> GoodSelector(text, s, false))
    && (forall s :: s in r.to ==> GoodSelector(text, s, true))
    && (forall p :: p in r.ports ==> GoodPorts(p))
  }

  // ---- ports ----

  lemma PrintedReads(n: nat)
    requires n <= 65535
    ensures ParseUint16(Printed(n)) == Ok(n)
    ensures forall c :: c in Printed(n) ==> '0' <= c <= '9'
    ensures Printed(n) != ""
  {
    var s, ds := Printed(n), Digits(n);
    assert seq(|s|, i requires 0 <= i < |s| => DigitOf(s[i])) == ds;
    ValueOfDigits(n);
  }

  lemma RangeRoundTrip(proto: int, first: nat, last: nat)
    requires first <= last <= 65535
    ensures ParseRange(proto, RangeString(first, last)) == Ok(PortRange(proto, first, last))
    ensures forall c :: c in RangeString(first, last) ==> '0' <= c <= '9' || c == '-' || c == '*'
  {
    PrintedReads(first);
    PrintedReads(last);
    if first == 0 && last == 65535 {
    } else if first == last {
      OneReads(proto, Printed(first), first);
    } else {
      TwoRead(proto, Printed(first), Printed(last), first, last);
    }
  }

  lemma OneReads(proto: int, a: string, first: nat)
    requires a != "" && (forall c :: c in a ==> '0' <= c <= '9') && ParseUint16(a) == Ok(first)
    ensures ParseRange(proto, a) == Ok(PortRange(proto, first, first))
  {
    assert a[0] in a;
    CutWord(a, "", '-');
  }

  lemma TwoRead(proto: int, a: string, b: string, first: nat, last: nat)
    requires a != "" && (forall c :: c in a ==> '0' <= c <= '9') && first <= last
    requires ParseUint16(a) == Ok(first) && ParseUint16(b) == Ok(last)
    ensures ParseRange(proto, a + ['-'] + b) == Ok(PortRange(proto, first, last))
  {
    assert a[0] in a && (a + ['-'] + b)[0] == a[0];
    CutWord(a, b, '-');
  }

  lemma ReadsAs(name: string, rng: string)
    requires forall c :: c in name ==> 'a' <= c <= 'z'
    requires forall c :: c in rng ==> '0' <= c <= '9' || c == '-' || c == '*'
    ensures CutAt(ToLower(name + [':'] + rng), ':') == Cut(name, rng, true)
    ensures NoneOf(name + [':'] + rng, IsSpace) && ',' !in name + [':'] + rng
  {
    var s := name + [':'] + rng;
    assert forall c :: c in s ==> c in name || c == ':' || c in rng;
    LowerCase(s);
    CutWord(name, rng, ':');
  }

  lemma IcmpWord()
    ensures (forall c :: c in "icmp" ==> 'a' <= c <= 'z') && Piece("icmp")
  {
  }

  lemma IcmpRoundTrip()
    ensures ParsePorts("icmp") == AclText.Ok(PortRange(ICMP, 0, 0)) && Piece("icmp")
  {
    IcmpWord();
    var w := "icmp";
    LowerCase(w);
    assert ':' !in w;
    CutWord(w, "", ':');
  }

  lemma PortedRoundTrip(proto: int, first: nat, last: nat)
    requires (proto == TCP || proto == UDP) && first <= last <= 65535
    ensures var s := (if proto == TCP then "tcp" else "udp") + [':'] + RangeString(first, last);
      ParsePorts(s) == AclText.Ok(PortRange(proto, first, last)) && Piece(s)
  {
    RangeRoundTrip(proto, first, last);
    ReadsAs(if proto == TCP then "tcp" else "udp", RangeString(first, last));
  }

  /** A printed port range parses to itself and fits in one word. */
  lemma PortsRoundTrip(p: PortRange)
    requires GoodPorts(p)
    ensures ParsePorts(PortString(p)) == AclText.Ok(p)
    ensures Piece(PortString(p))
  {
    if p.proto == ICMP {
      IcmpRoundTrip();
    } else {
      PortedRoundTrip(p.proto, p.first, p.last);
    }
  }

  /** Whatever a port text is read as can be printed. */
  lemma ParsedPortsAreGood(s: string)
    ensures ParsePorts(s).Ok? ==> GoodPorts(ParsePorts(s).value)
  {
  }

  // ---- selectors ----

  lemma SelectorsRoundTrip(sels: seq<string>)
    requires sels != [] && forall s :: s in sels ==> Piece(s)
    ensures Selectors(Join(sels, ',')) == sels && Join(sels, ',') != ""
  {
    SplitJoin(sels, ',', Is(','));
    forall i | 0 <= i < |sels| ensures TrimSpace(sels[i]) == sels[i] {
      assert sels[i] in sels;
      TrimNothing(sels[i]);
    }
    assert Trimmed(sels) == sels;
    NonEmptyAll(sels);
  }

  /** The pieces of a field can be printed as they are. */
  lemma ParsedSelectorsAreGood(text: Text, w: string, to: bool)
    requires NoneOf(w, IsSpace)
    requires forall s :: s in Selectors(w) ==> CheckSel(text, s, to)
    ensures forall s :: s in Selectors(w) ==> GoodSelector(text, s, to)
  {
    var xs := Split(w, ',');
    PieceOf(w, Is(','));
    forall i | 0 <= i < |xs| ensures TrimSpace(xs[i]) == xs[i] {
      TrimNothing(xs[i]);
    }
    assert Trimmed(xs) == xs;
    NonEmptyIn(xs);
  }

  // ---- one rule ----

  /** The words of a printed rule. */
  function Words(r: Rule): (ws: seq<string>)
    ensures |ws| == 4 + |r.ports|
  {
    ["allow", Join(r.from, ','), "->", Join(r.to, ',')] + PortStrings(r.ports)
  }

  lemma JoinFour(a: string, b: string, c: string, d: string)
    ensures Join([a, b, c, d], ' ') == a + [' '] + (b + [' '] + (c + [' '] + d))
  {
    assert Join([c, d], ' ') == c + [' '] + d;
    assert [b, c, d][1..] == [c, d] && [a, b, c, d][1..] == [b, c, d];
  }

  lemma HeadWords(r: Rule)
    ensures Join(["allow", Join(r.from, ','), "->", Join(r.to, ',')], ' ') == RuleHead(r)
  {
    JoinFour("allow", Join(r.from, ','), "->", Join(r.to, ','));
    Spaced(Join(r.from, ','), Join(r.to, ','));
  }

  lemma Spaced(f: string, t: string)
    ensures "allow" + [' '] + (f + [' '] + ("->" + [' '] + t)) == "allow " + f + " -> " + t
  {
  }

  lemma PlainWords()
    ensures NoneOf("allow", IsSpace) && NoneOf("->", IsSpace)
  {
  }

  /** The words hold no space, so the line comes apart into them; the empty
      ones are lost. */
  lemma FieldsOfRule(text: Text, r: Rule)
    requires GoodRule(text, r)
    ensures Fields(RuleString(r)) == NonEmpty(Words(r))
    ensures '\n' !in RuleString(r)
  {
    JoinClean(r.from, ',', IsSpace);
    JoinClean(r.to, ',', IsSpace);
    PlainWords();
    PortWordsRoundTrip(r.ports);
    FourClean("allow", Join(r.from, ','), "->", Join(r.to, ','), PortStrings(r.ports));
    HeadWords(r);
  }

  lemma FourClean(a: string, b: string, c: string, d: string, ws: seq<string>)
    requires NoneOf(a, IsSpace) && NoneOf(b, IsSpace) && NoneOf(c, IsSpace) && NoneOf(d, IsSpace)
    requires forall w :: w in ws ==> NoneOf(w, IsSpace)
    ensures var line := Join([a, b, c, d], ' ') + Tail(ws);
      Fields(line) == NonEmpty([a, b, c, d] + ws) && '\n' !in line
  {
    JoinTail([a, b, c, d], ws);
    JoinedFields([a, b, c, d] + ws);
  }

  lemma {:induction false} PartsOfPieces(ws: seq<string>)
    requires forall w :: w in ws ==> Piece(w)
    ensures Parts(ws) == ws
  {
    if ws != [] {
      var w := ws[|ws| - 1];
      PartsOfPieces(ws[..|ws| - 1]);
      assert w in ws && NoneOf(w, Is(','));
      SplitWord(w, ',', "", Is(','));
      assert ws == ws[..|ws| - 1] + [w];
    }
  }

  lemma EachReads<T>(xs: seq<string>, f: string -> Result<T>, vs: seq<T>)
    requires |xs| == |vs| && forall i :: 0 <= i < |xs| ==> f(xs[i]) == AclText.Ok(vs[i])
    ensures Each(xs, f) == AclText.Ok(vs)
  {
    assert Each(xs, f).Ok? && Each(xs, f).value == vs;
  }

  lemma PortWordsRoundTrip(ports: seq<PortRange>)
    requires forall p :: p in ports ==> GoodPorts(p)
    ensures forall w :: w in PortStrings(ports) ==> Piece(w)
    ensures Each(PortStrings(ports), ParsePorts) == AclText.Ok(ports)
  {
    forall i | 0 <= i < |ports|
      ensures Piece(PortStrings(ports)[i]) && ParsePorts(PortStrings(ports)[i]) == AclText.Ok(ports[i])
    {
      assert ports[i] in ports;
      PortsRoundTrip(ports[i]);
    }
    EachReads(PortStrings(ports), ParsePorts, ports);
  }

  /** A rule with selectors on both sides survives. */
  lemma RuleRoundTrip(text: Text, r: Rule)
    requires GoodRule(text, r) && r.from != [] && r.to != []
    ensures RuleOf(text, RuleString(r)) == AclText.Ok(r)
  {
    FieldsOfRule(text, r);
    SelectorsRoundTrip(r.from);
    SelectorsRoundTrip(r.to);
    PortWordsRoundTrip(r.ports);
    PartsOfPieces(PortStrings(r.ports));
    WordsRead(text, r);
    NoEmptyWord(Join(r.from, ','), Join(r.to, ','), PortStrings(r.ports));
    PortsOfRule(text, r);
  }

  lemma NoEmptyWord(from: string, to: string, ps: seq<string>)
    requires from != "" && to != "" && forall p :: p in ps ==> p != ""
    ensures NonEmpty(["allow", from, "->", to] + ps) == ["allow", from, "->", to] + ps
  {
    NonEmptyAll(["allow", from, "->", to]);
    NonEmptyAll(ps);
    NonEmptyAdds(["allow", from, "->", to], ps);
  }

  lemma PortsOfRule(text: Text, r: Rule)
    requires GoodRule(text, r)
    requires Each(PortStrings(r.ports), ParsePorts) == AclText.Ok(r.ports)
    ensures RuleOfParts(text, r.from, r.to, PortStrings(r.ports)) == AclText.Ok(r)
  {
  }

  lemma WordsRead(text: Text, r: Rule)
    requires Selectors(Join(r.from, ',')) == r.from && Selectors(Join(r.to, ',')) == r.to
    requires Parts(PortStrings(r.ports)) == PortStrings(r.ports)
    ensures RuleOfFields(text, Words(r)) == RuleOfParts(text, r.from, r.to, PortStrings(r.ports))
  {
    assert Words(r)[4..] == PortStrings(r.ports);
  }

  lemma OnePiece(w: string)
    requires Piece(w)
    ensures Selectors(w) == [w]
  {
    SelectorsRoundTrip([w]);
  }

  /** No field of a printed rule is read as an empty list: with no selectors on
      one side the words shift and say something else, or nothing. */
  lemma EmptyListIsLost(text: Text, r: Rule)
    requires GoodRule(text, r) && (r.from == [] || r.to == [])
    ensures RuleOf(text, RuleString(r)) != AclText.Ok(r)
  {
    if r.from == [] {
      NoFromIsLost(text, r);
    } else {
      NoToIsLost(text, r);
    }
  }

  lemma NoFromIsLost(text: Text, r: Rule)
    requires GoodRule(text, r) && r.from == []
    ensures RuleOf(text, RuleString(r)) != AclText.Ok(r)
  {
    FieldsOfRule(text, r);
    ShiftedFrom(Join(r.to, ','), PortStrings(r.ports));
    OnePiece("->");
  }

  lemma NoToIsLost(text: Text, r: Rule)
    requires GoodRule(text, r) && r.from != [] && r.to == []
    ensures RuleOf(text, RuleString(r)) != AclText.Ok(r)
  {
    FieldsOfRule(text, r);
    PortWordsRoundTrip(r.ports);
    var ps := PortStrings(r.ports);
    SelectorsRoundTrip(r.from);
    ShiftedTo(Join(r.from, ','), ps);
    if ps != [] {
      OnePiece(ps[0]);
    }
  }

  lemma ShiftedFrom(to: string, ps: seq<string>)
    ensures var f := NonEmpty(["allow", "", "->", to] + ps); |f| >= 2 && f[1] == "->"
  {
    Prepended("allow", "", "->", to, ps);
    LoseSecond("allow", "->", [to] + ps);
  }

  lemma Prepended(a: string, b: string, c: string, d: string, ps: seq<string>)
    ensures [a, b, c, d] + ps == [a, b, c] + ([d] + ps) == [a, b, c] + [d] + ps
  {
  }

  lemma ShiftedTo(from: string, ps: seq<string>)
    requires from != "" && forall p :: p in ps ==> p != ""
    ensures NonEmpty(["allow", from, "->", ""] + ps) == ["allow", from, "->"] + ps
  {
    Prepended("allow", from, "->", "", ps);
    LoseFourth(["allow", from, "->"], ps);
  }

  /** Whatever is read as a rule is good. */
  lemma ParsedRuleIsGood(text: Text, line: string)
    ensures var r := RuleOf(text, line); r.Ok? ==> GoodRule(text, r.value)
  {
    var f, r := Fields(line), RuleOf(text, line);
    if r.Ok? {
      PieceOf(line, IsSpace);
      NonEmptyIn(SplitBy(line, IsSpace));
      assert f[1] in f && f[3] in f;
      ParsedSelectorsAreGood(text, f[1], false);
      ParsedSelectorsAreGood(text, f[3], true);
      var parts := Parts(f[4..]);
      forall p | p in r.value.ports ensures GoodPorts(p) {
        var i :| 0 <= i < |parts| && p == ParsePorts(parts[i]).value;
        assert parts[i] in parts;
        ParsedPortsAreGood(parts[i]);
      }
    }
  }

  // ---- whole texts ----

  predicate WellFormed(text: Text, r: Rule)
  {
    GoodRule(text, r) && r.from != [] && r.to != []
  }

  /** A printed rule is one line, and it reads back exactly if it is well-formed. */
  lemma LineSurvives(text: Text, r: Rule)
    requires GoodRule(text, r)
    ensures var line := TrimSpace(RuleString(r));
      !Skipped(line) && (RuleOf(text, line) == AclText.Ok(r) <==> WellFormed(text, r))
  {
    var s := RuleString(r);
    assert RuleHead(r)[0] == 'a';
    assert s[0] == 'a';
    FieldsTrimRight(s);
    if WellFormed(text, r) {
      RuleRoundTrip(text, r);
    } else {
      EmptyListIsLost(text, r);
    }
  }

  lemma {:induction false} LinesKept(xs: seq<string>)
    requires forall x :: x in xs ==> !Skipped(TrimSpace(x))
    ensures Lines(xs) == Trimmed(xs)
  {
    if xs != [] {
      var n := |xs| - 1;
      assert xs[n] in xs;
      LinesKept(xs[..n]);
      assert Trimmed(xs) == Trimmed(xs[..n]) + [TrimSpace(xs[n])];
    }
  }

  lemma LinesOfRendered(text: Text, rules: seq<Rule>)
    requires forall r :: r in rules ==> GoodRule(text, r)
    ensures Lines(Split(Rendered(rules), '\n')) == Trimmed(RuleStrings(rules))
  {
    forall r | r in rules ensures '\n' !in RuleString(r) && !Skipped(TrimSpace(RuleString(r))) {
      FieldsOfRule(text, r);
      LineSurvives(text, r);
    }
    SplitText(RuleStrings(rules));
    LinesKept(RuleStrings(rules));
    assert (RuleStrings(rules) + [""])[..|rules|] == RuleStrings(rules);
  }

  /** Each reads as vs exactly if every text reads as its value. */
  lemma EachIs<T>(xs: seq<string>, f: string -> Result<T>, vs: seq<T>)
    requires |xs| == |vs|
    ensures Each(xs, f) == AclText.Ok(vs) <==> forall i :: 0 <= i < |xs| ==> f(xs[i]) == AclText.Ok(vs[i])
  {
    if Each(xs, f) == AclText.Ok(vs) {
      forall i | 0 <= i < |xs| ensures f(xs[i]) == AclText.Ok(vs[i]) {
        assert xs[i] in xs;
      }
    } else if forall i :: 0 <= i < |xs| ==> f(xs[i]) == AclText.Ok(vs[i]) {
      EachReads(xs, f, vs);
    }
  }

  lemma EachFrom<T>(xs: seq<string>, f: string -> Result<T>, v: T)
    requires Each(xs, f).Ok? && v in Each(xs, f).value
    ensures exists x :: x in xs && f(x) == AclText.Ok(v)
  {
    var i :| 0 <= i < |xs| && v == Each(xs, f).value[i];
    assert xs[i] in xs;
  }

  /** Reading yields good rules only. */
  lemma ReadingIsGood(text: Text, s: string)
    ensures var r := Reading(text, s); r.Ok? ==> forall rule :: rule in r.value ==> GoodRule(text, rule)
  {
    var lines, r := Lines(Split(s, '\n')), Reading(text, s);
    if r.Ok? {
      forall rule | rule in r.value ensures GoodRule(text, rule) {
        EachFrom(lines, Reader(text), rule);
        var line :| line in lines && Reader(text)(line) == AclText.Ok(rule);
        ParsedRuleIsGood(text, line);
      }
    }
  }

  lemma EachLineSurvives(text: Text, rules: seq<Rule>, i: nat)
    requires i < |rules| && GoodRule(text, rules[i])
    ensures Reader(text)(Trimmed(RuleStrings(rules))[i]) == AclText.Ok(rules[i]) <==> WellFormed(text, rules[i])
  {
    LineSurvives(text, rules[i]);
  }

  lemma GoodRulesSurvive(text: Text, rules: seq<Rule>)
    requires forall r :: r in rules ==> GoodRule(text, r)
    ensures Each(Trimmed(RuleStrings(rules)), Reader(text)) == AclText.Ok(rules)
       <==> forall r :: r in rules ==> WellFormed(text, r)
  {
    var xs := Trimmed(RuleStrings(rules));
    EachIs(xs, Reader(text), rules);
    forall i | 0 <= i < |rules|
      ensures Reader(text)(xs[i]) == AclText.Ok(rules[i]) <==> WellFormed(text, rules[i])
    {
      assert rules[i] in rules;
      EachLineSurvives(text, rules, i);
    }
  }

  /** A list of rules survives being printed and read exactly if it holds at
      most 500 rules and each is well-formed. */
  lemma ParseOfString(text: Text, rules: seq<Rule>)
    ensures Reading(text, Rendered(rules)) == AclText.Ok(rules)
       <==> |rules| <= 500 && forall r :: r in rules ==> WellFormed(text, r)
  {
    ReadingIsGood(text, Rendered(rules));
    if forall r :: r in rules ==> GoodRule(text, r) {
      LinesOfRendered(text, rules);
      GoodRulesSurvive(text, rules);
    }
  }
}
