/** internal/acl/acl.go: the text form of rules. */
module AclText {
  import opened Ipv4
  import opened AclPolicy
  import opened Decimal
  import opened Strings

  datatype Result<T> = Ok(value: T) | Err

  function Printed(n: nat): string
  {
    var ds := Digits(n);
    seq(|ds|, i requires 0 <= i < |ds| => ('0' as int + ds[i]) as char)
  }

  function DigitOf(c: char): Digit
  {
    if '0' <= c <= '9' then c as int - '0' as int else 0
  }

  /** strconv.ParseUint(s, 10, 16). */
  function ParseUint16(s: string): Result<nat>
  {
    if s == "" || exists c :: c in s && !('0' <= c <= '9') then Err
    else
      var n := Value(seq(|s|, i requires 0 <= i < |s| => DigitOf(s[i])));
      if n > 65535 then Err else Ok(n)
  }

  // ---- ports ----

  function ParseRange(proto: int, rng: string): Result<PortRange>
  {
    if rng == "" || rng == "*" then Ok(PortRange(proto, 0, 65535))
    else
      var r := CutAt(rng, '-');
      match ParseUint16(r.before)
      case Err => Err
      case Ok(first) =>
        if !r.found then Ok(PortRange(proto, first, first))
        else
          match ParseUint16(r.after)
          case Err => Err
          case Ok(last) => if last < first then Err else Ok(PortRange(proto, first, last))
  }

  function ParsePorts(s: string): Result<PortRange>
  {
    var c := CutAt(ToLower(s), ':');
    if c.before == "tcp" then ParseRange(TCP, c.after)
    else if c.before == "udp" then ParseRange(UDP, c.after)
    else if c.before == "icmp" && c.after == "" then Ok(PortRange(ICMP, 0, 0))
    else Err
  }

  function RangeString(first: nat, last: nat): string
  {
    if first == 0 && last == 65535 then "*"
    else if first == last then Printed(first)
    else Printed(first) + ['-'] + Printed(last)
  }

  function PortString(p: PortRange): string
  {
    if p.proto == ICMP then "icmp"
    else (if p.proto == TCP then "tcp" else if p.proto == UDP then "udp" else "") + [':'] + RangeString(p.first, p.last)
  }

  predicate GoodPorts(p: PortRange)
  {
    if p.proto == ICMP then p.first == 0 && p.last == 0
    else (p.proto == TCP || p.proto == UDP) && p.first <= p.last <= 65535
  }

  // ---- selectors ----

  /** checkSel: what may stand in a rule; to: on its right side. */
  predicate CheckSel(text: Text, s: string, to: bool)
  {
    if s == "*" then true
    else if s == "internet" then to
    else if HasPrefix(s, "tag:") then |s| != 4
    else if '/' in s then !text.prefix(s).Invalid?
    else !text.addr(s).Invalid? || ByteLen(s) <= 40
  }

  function Trimmed(xs: seq<string>): seq<string>
  {
    seq(|xs|, i requires 0 <= i < |xs| => TrimSpace(xs[i]))
  }

  function Selectors(s: string): seq<string>
  {
    NonEmpty(Trimmed(Split(s, ',')))
  }

  // ---- rules ----

  /** The reading of each text, if all of them can be read. */
  ghost function Each<T>(xs: seq<string>, f: string -> Result<T>): Result<seq<T>>
  {
    if exists x :: x in xs && f(x).Err? then Err
    else Ok(seq(|xs|, i requires 0 <= i < |xs| => assert xs[i] in xs; f(xs[i]).value))
  }

  function Parts(words: seq<string>): seq<string>
  {
    if words == [] then [] else Parts(words[..|words| - 1]) + Split(words[|words| - 1], ',')
  }

  ghost function RuleOf(text: Text, line: string): Result<Rule>
  {
    RuleOfFields(text, Fields(line))
  }

  ghost function RuleOfFields(text: Text, f: seq<string>): Result<Rule>
  {
    if |f| < 4 || f[0] != "allow" || f[2] != "->" then Err
    else RuleOfParts(text, Selectors(f[1]), Selectors(f[3]), Parts(f[4..]))
  }

  ghost function RuleOfParts(text: Text, from: seq<string>, to: seq<string>, parts: seq<string>): Result<Rule>
  {
    if exists s :: s in from && !CheckSel(text, s, false) then Err
    else if exists s :: s in to && !CheckSel(text, s, true) then Err
    else
      match Each(parts, ParsePorts)
      case Err => Err
      case Ok(ports) => Ok(Rule(from, to, ports))
  }

  predicate Skipped(line: string)
  {
    line == "" || HasPrefix(line, "#")
  }

  /** The lines that are neither empty nor a comment. */
  function Lines(xs: seq<string>): seq<string>
  {
    if xs == [] then []
    else
      var line := TrimSpace(xs[|xs| - 1]);
      Lines(xs[..|xs| - 1]) + if Skipped(line) then [] else [line]
  }

  ghost function Reader(text: Text): string -> Result<Rule>
  {
    line => RuleOf(text, line)
  }

  /** What a text says: every line that counts is a rule, at most 500 of them. */
  ghost function Reading(text: Text, s: string): Result<seq<Rule>>
  {
    match Each(Lines(Split(s, '\n')), Reader(text))
    case Err => Err
    case Ok(rules) => if |rules| > 500 then Err else Ok(rules)
  }

  lemma {:induction false} LinesGrow(xs: seq<string>, i: nat)
    requires i <= |xs|
    ensures Lines(xs[..i]) <= Lines(xs)
  {
    if i < |xs| {
      LinesGrow(xs[..|xs| - 1], i);
      assert xs[..|xs| - 1][..i] == xs[..i];
    } else {
      assert xs[..i] == xs;
    }
  }

  lemma {:induction false} PartsGrow(words: seq<string>, i: nat)
    requires i <= |words|
    ensures Parts(words[..i]) <= Parts(words)
  {
    if i < |words| {
      PartsGrow(words[..|words| - 1], i);
      assert words[..|words| - 1][..i] == words[..i];
    } else {
      assert words[..i] == words;
    }
  }

  method SplitSel(s: string) returns (out: seq<string>)
    ensures out == Selectors(s)
  {
    out := [];
    var xs := Split(s, ',');
    for i := 0 to |xs|
      invariant out == NonEmpty(Trimmed(xs)[..i])
    {
      var x := TrimSpace(xs[i]);
      assert Trimmed(xs)[..i + 1][..i] == Trimmed(xs)[..i];
      if x != "" {
        out := out + [x];
      }
    }
    assert Trimmed(xs)[..|xs|] == Trimmed(xs);
  }

  method CheckAll(text: Text, sels: seq<string>, to: bool) returns (ok: bool)
    ensures ok <==> forall s :: s in sels ==> CheckSel(text, s, to)
  {
    for i := 0 to |sels|
      invariant forall s :: s in sels[..i] ==> CheckSel(text, s, to)
    {
      if !CheckSel(text, sels[i], to) {
        return false;
      }
    }
    assert sels[..|sels|] == sels;
    return true;
  }

  method ParseRule(text: Text, line: string) returns (r: Result<Rule>)
    ensures r == RuleOf(text, line)
  {
    var f := Fields(line);
    if |f| < 4 || f[0] != "allow" || f[2] != "->" {
      return Err;
    }
    var from := SplitSel(f[1]);
    var to := SplitSel(f[3]);
    var fromOk := CheckAll(text, from, false);
    if !fromOk {
      return Err;
    }
    var toOk := CheckAll(text, to, true);
    if !toOk {
      return Err;
    }
    var ports := PortWords(f[4..]);
    match ports
    case Err => return Err;
    case Ok(ps) => return Ok(Rule(from, to, ps));
  }

  /** The two nested loops at the end of parseRule. */
  method PortWords(words: seq<string>) returns (r: Result<seq<PortRange>>)
    ensures r == Each(Parts(words), ParsePorts)
  {
    var ports: seq<PortRange> := [];
    EachNothing(ParsePorts);
    for i := 0 to |words|
      invariant Each(Parts(words[..i]), ParsePorts) == Ok(ports)
    {
      var xs := Split(words[i], ',');
      ghost var was := Parts(words[..i]);
      assert words[..i + 1][..i] == words[..i];
      assert xs[..0] == [] && was + [] == was;
      PartsGrow(words, i + 1);
      for j := 0 to |xs|
        invariant Each(was + xs[..j], ParsePorts) == Ok(ports)
      {
        var one := ParsePorts(xs[j]);
        EachMore(was + xs[..j], xs[j], ParsePorts);
        assert was + xs[..j] + [xs[j]] == was + xs[..j + 1];
        match one {
          case Err =>
            assert Parts(words[..i + 1]) == was + xs;
            assert xs[j] in was + xs;
            return Err;
          case Ok(p) =>
            ports := ports + [p];
        }
      }
      assert xs[..|xs|] == xs;
    }
    assert words[..|words|] == words;
    return Ok(ports);
  }

  lemma EachNothing<T>(f: string -> Result<T>)
    ensures Each([], f) == Ok([])
  {
    assert Each([], f).value == [];
  }

  lemma EachMore<T>(xs: seq<string>, x: string, f: string -> Result<T>)
    ensures Each(xs + [x], f) == if Each(xs, f).Err? || f(x).Err? then Err else Ok(Each(xs, f).value + [f(x).value])
  {
    if y :| y in xs && f(y).Err? {
      assert y in xs + [x];
    } else if f(x).Err? {
      assert x in xs + [x];
    } else {
      assert forall y :: y in xs + [x] ==> y in xs || y == x;
      assert Each(xs + [x], f).value == Each(xs, f).value + [f(x).value];
    }
  }

  /** What the line x after those of init does to what was read so far. */
  lemma LineRead(f: string -> Result<Rule>, init: seq<string>, x: string, all: seq<string>, rules: seq<Rule>)
    requires Each(Lines(init), f) == Ok(rules) && Lines(init + [x]) <= all
    ensures After(all, Each(Lines(init + [x]), f), rules, Skipped(TrimSpace(x)), TrimSpace(x), f)
  {
    LinesMore(init, x);
    OneRead(Lines(init), TrimSpace(x), Skipped(TrimSpace(x)), all, f, rules);
  }

  /** more is what has been read with this line, which is one of all. */
  ghost predicate After<T>(
    all: seq<string>, more: Result<seq<T>>, read: seq<T>, skip: bool, line: string, f: string -> Result<T>)
  {
    if skip then more == Ok(read)
    else if f(line).Err? then Each(all, f) == Err
    else more == Ok(read + [f(line).value])
  }

  lemma OneRead<T>(before: seq<string>, line: string, skip: bool, all: seq<string>, f: string -> Result<T>, read: seq<T>)
    requires Each(before, f) == Ok(read) && before + (if skip then [] else [line]) <= all
    ensures After(all, Each(before + if skip then [] else [line], f), read, skip, line, f)
  {
    EachMore(before, line, f);
    if skip {
      assert before + [] == before;
    } else {
      PrefixKeeps(before, line, all);
    }
  }

  lemma LinesMore(xs: seq<string>, x: string)
    ensures Lines(xs + [x]) == Lines(xs) + if Skipped(TrimSpace(x)) then [] else [TrimSpace(x)]
  {
    assert (xs + [x])[..|xs|] == xs;
  }

  lemma PrefixKeeps(init: seq<string>, line: string, all: seq<string>)
    requires init + [line] <= all
    ensures line in all
  {
    assert (init + [line])[|init|] == all[|init|];
  }

  method Parse(text: Text, s: string) returns (r: Result<seq<Rule>>)
    ensures r == Reading(text, s)
  {
    var rules: seq<Rule> := [];
    var xs := Split(s, '\n');
    EachNothing(Reader(text));
    for i := 0 to |xs|
      invariant Each(Lines(xs[..i]), Reader(text)) == Ok(rules)
    {
      var line := TrimSpace(xs[i]);
      assert xs[..i + 1] == xs[..i] + [xs[i]];
      LinesGrow(xs, i + 1);
      LineRead(Reader(text), xs[..i], xs[i], Lines(xs), rules);
      if Skipped(line) {
        continue;
      }
      var one := ParseRule(text, line);
      match one {
        case Err =>
          return Err;
        case Ok(rule) =>
          rules := rules + [rule];
      }
    }
    assert xs[..|xs|] == xs;
    if |rules| > 500 {
      return Err;
    }
    return Ok(rules);
  }

  // ---- printing ----

  function PortStrings(ports: seq<PortRange>): (ws: seq<string>)
    ensures |ws| == |ports|
  {
    seq(|ports|, i requires 0 <= i < |ports| => PortString(ports[i]))
  }

  function RuleHead(r: Rule): string
  {
    "allow " + Join(r.from, ',') + " -> " + Join(r.to, ',')
  }

  function RuleString(r: Rule): string
  {
    RuleHead(r) + Tail(PortStrings(r.ports))
  }

  function RuleStrings(rules: seq<Rule>): (ws: seq<string>)
    ensures |ws| == |rules|
  {
    seq(|rules|, i requires 0 <= i < |rules| => RuleString(rules[i]))
  }

  function Rendered(rules: seq<Rule>): string
  {
    TextOf(RuleStrings(rules))
  }

  method RenderRule(r: Rule) returns (line: string)
    ensures line == RuleString(r)
  {
    line := RuleHead(r);
    ghost var ws := PortStrings(r.ports);
    for j := 0 to |r.ports|
      invariant line == RuleHead(r) + Tail(ws[..j])
    {
      var w := PortString(r.ports[j]);
      line := line + ([' '] + w);
      assert ws[..j + 1][..j] == ws[..j] && ws[..j + 1][j] == w;
      Associative(RuleHead(r), Tail(ws[..j]), [' '] + w);
    }
    assert ws[..|ws|] == ws;
  }

  /** String of the source: one line a rule. */
  method String(rules: seq<Rule>) returns (s: string)
    ensures s == Rendered(rules)
  {
    s := "";
    ghost var ws := RuleStrings(rules);
    for i := 0 to |rules|
      invariant s == TextOf(ws[..i])
    {
      var line := RenderRule(rules[i]);
      assert ws[..i + 1][..i] == ws[..i] && ws[..i + 1][i] == line;
      s := s + line + ['\n'];
    }
    assert ws[..|ws|] == ws;
  }
}
