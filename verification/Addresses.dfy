/** Addresses and tap devices of a microVM fleet as the text they are
    (providers/compute/microvm/net_config.go), and the /24 allocator (network.go). */
module Addresses {
  import opened Common

  // ---- decimal numbers ----

  predicate IsDigit(ch: char) {
    '0' <= ch <= '9'
  }

  predicate AllDigits(s: string) {
    forall i :: 0 <= i < |s| ==> IsDigit(s[i])
  }

  function Decimal(n: nat): string {
    var last := [('0' as int + n % 10) as char];
    if n < 10 then last else Decimal(n / 10) + last
  }

  /** fmt's %d */
  function Itoa(n: int): string {
    if n < 0 then "-" + Decimal(-n) else Decimal(n)
  }

  function Value(s: string): nat
    requires AllDigits(s)
  {
    if s == "" then 0 else 10 * Value(s[..|s| - 1]) + (s[|s| - 1] as int - '0' as int)
  }

  lemma {:induction false} DecimalValue(n: nat)
    ensures Decimal(n) != "" && AllDigits(Decimal(n)) && Value(Decimal(n)) == n
    ensures n > 0 ==> Decimal(n)[0] != '0'
    ensures n < 10 ==> |Decimal(n)| == 1
  {
    if n >= 10 {
      DecimalValue(n / 10);
      assert Decimal(n)[..|Decimal(n)| - 1] == Decimal(n / 10);
    }
  }

  lemma DecimalInjective(m: nat, n: nat)
    requires Decimal(m) == Decimal(n)
    ensures m == n
  {
    DecimalValue(m);
    DecimalValue(n);
  }

  /** strconv.Atoi on 64 bits */
  function Atoi(s: string): Option<int> {
    var neg := s != "" && s[0] == '-';
    var digits := if neg || (s != "" && s[0] == '+') then s[1..] else s;
    if digits == "" || !AllDigits(digits) then None
    else
      var v: int := if neg then 0 - Value(digits) else Value(digits);
      if -0x8000_0000_0000_0000 <= v < 0x8000_0000_0000_0000 then Some(v) else None
  }

  lemma AtoiDecimal(n: nat)
    requires n < 0x8000_0000_0000_0000
    ensures Atoi(Decimal(n)) == Some(n)
  {
    DecimalValue(n);
    assert IsDigit(Decimal(n)[0]);
  }

  // ---- IPv4 text ----

  /** One dotted field: digits, at most 255, no leading zero. */
  function ParseOctet(s: string): Option<nat> {
    if s == "" || !AllDigits(s) || (|s| > 1 && s[0] == '0') || Value(s) > 255 then None else Some(Value(s))
  }

  predicate Octets(parts: seq<string>, n: nat) {
    |parts| == n && forall i :: 0 <= i < n ==> ParseOctet(parts[i]).Some?
  }

  /** The last field of an IPv4 address, or -1. */
  function LastOctet(ip: string): int {
    var parts := Split(ip, '.');
    if Octets(parts, 4) then ParseOctet(parts[3]).value else -1
  }

  datatype NetConfig = NetConfig(subnet24: string, tapPrefix: string)

  const FIRST_OCTET := 2
  const LAST_OCTET := 254

  function Ip(c: NetConfig, octet: nat): string {
    c.subnet24 + "." + Decimal(octet)
  }

  function TapName(c: NetConfig, ip: string): string {
    c.tapPrefix + Itoa(LastOctet(ip))
  }

  predicate WellFormedSubnet(c: NetConfig) {
    Octets(Split(c.subnet24, '.'), 3)
  }

  lemma {:induction false} JoinSnoc(parts: seq<string>, last: string, sep: char)
    requires |parts| >= 1
    ensures Join(parts + [last], sep) == Join(parts, sep) + [sep] + last
  {
    if |parts| == 1 {
      assert (parts + [last])[1..] == [last];
    } else {
      assert (parts + [last])[1..] == parts[1..] + [last];
      JoinSnoc(parts[1..], last, sep);
      var head, mid := parts[0] + [sep], Join(parts[1..], sep);
      Associative(mid, [sep], last);
      Associative(head, mid, [sep] + last);
      Associative(head + mid, [sep], last);
    }
  }

  lemma SplitSnoc(s: string, last: string, sep: char)
    requires sep !in last
    ensures Split(s + [sep] + last, sep) == Split(s, sep) + [last]
  {
    var parts := Split(s, sep);
    JoinSplit(s, sep);
    JoinSnoc(parts, last, sep);
    forall k | 0 <= k < |parts| ensures sep !in parts[k] {
      SplitLacks(s, sep, k);
    }
    assert forall p :: p in parts + [last] ==> sep !in p;
    SplitJoin(parts + [last], sep);
  }

  /** lastOctet inverts ip within a well-formed /24. */
  lemma LastOctetOfIp(c: NetConfig, o: nat)
    requires WellFormedSubnet(c) && o <= 255
    ensures LastOctet(Ip(c, o)) == o
  {
    var d := Decimal(o);
    DecimalValue(o);
    assert '.' !in d by { assert forall i :: 0 <= i < |d| ==> IsDigit(d[i]); }
    SplitSnoc(c.subnet24, d, '.');
    var parts := Split(c.subnet24, '.');
    hide Split, Value, Decimal;
    assert Split(Ip(c, o), '.') == parts + [d];
    assert |d| > 1 && d[0] == '0' ==> o == 0;
    assert ParseOctet(d) == Some(o);
    assert forall i :: 0 <= i < 3 ==> (parts + [d])[i] == parts[i];
  }

  /** Distinct octets get distinct addresses and distinct tap devices. */
  lemma NamesAreInjective(c: NetConfig, m: nat, n: nat)
    requires WellFormedSubnet(c) && m <= 255 && n <= 255
    ensures Ip(c, m) == Ip(c, n) ==> m == n
    ensures TapName(c, Ip(c, m)) == c.tapPrefix + Decimal(m)
    ensures TapName(c, Ip(c, m)) == TapName(c, Ip(c, n)) ==> m == n
  {
    LastOctetOfIp(c, m);
    LastOctetOfIp(c, n);
    hide LastOctet, Decimal;
    var t, u := c.tapPrefix + Decimal(m), c.tapPrefix + Decimal(n);
    if t == u {
      assert t[|c.tapPrefix|..] == Decimal(m) && u[|c.tapPrefix|..] == Decimal(n);
      DecimalInjective(m, n);
    }
  }

  // ---- reading the host's links back ----

  predicate IsSpace(ch: char) {
    ch == ' ' || '\t' <= ch <= '\r' || ch == '\U{0085}' || ch == '\U{00A0}' || ch == '\U{1680}'
    || '\U{2000}' <= ch <= '\U{200A}' || ch == '\U{2028}' || ch == '\U{2029}' || ch == '\U{202F}'
    || ch == '\U{205F}' || ch == '\U{3000}'
  }

  function SkipSpace(s: string): string {
    if s != "" && IsSpace(s[0]) then SkipSpace(s[1..]) else s
  }

  function UpToSpace(s: string): string {
    if s == "" || IsSpace(s[0]) then "" else [s[0]] + UpToSpace(s[1..])
  }

  /** strings.Fields(line)[0], or "" on a blank line. */
  function FirstField(line: string): string {
    UpToSpace(SkipSpace(line))
  }

  /** The octet a line of `ip -br link show` names, if it names a tap of this fleet. */
  function LineOctet(prefix: string, line: string): Option<int> {
    var field := FirstField(line);
    var name := field[..IndexOf(field, '@')];
    if field == "" || !HasPrefix(name, prefix) then None else Atoi(name[|prefix|..])
  }

  function Found(prefix: string, line: string): seq<int> {
    match LineOctet(prefix, line) case None => [] case Some(o) => [o]
  }

  function OctetsIn(prefix: string, lines: seq<string>): seq<int> {
    if lines == [] then [] else Found(prefix, lines[0]) + OctetsIn(prefix, lines[1..])
  }

  lemma {:induction false} OctetsInSnoc(prefix: string, lines: seq<string>, line: string)
    ensures OctetsIn(prefix, lines + [line]) == OctetsIn(prefix, lines) + Found(prefix, line)
  {
    hide Found;
    if lines == [] {
      assert lines + [line] == [line];
    } else {
      assert (lines + [line])[1..] == lines[1..] + [line];
      OctetsInSnoc(prefix, lines[1..], line);
      Associative(Found(prefix, lines[0]), OctetsIn(prefix, lines[1..]), Found(prefix, line));
    }
  }

  /** tapOctets: the octets of this fleet's taps among the host's links. */
  method TapOctets(prefix: string, listing: string) returns (octets: seq<int>)
    ensures octets == OctetsIn(prefix, Split(listing, '\n'))
  {
    var lines := Split(listing, '\n');
    hide LineOctet, OctetsIn, Split;
    octets := [];
    var k := 0;
    assert lines[..0] == [];
    assert octets == OctetsIn(prefix, []) by { OctetsInNil(prefix); }
    while k < |lines|
      invariant 0 <= k <= |lines|
      invariant octets == OctetsIn(prefix, lines[..k])
    {
      OctetsInSnoc(prefix, lines[..k], lines[k]);
      assert lines[..k + 1] == lines[..k] + [lines[k]];
      var o := LineOctet(prefix, lines[k]);
      if o.Some? {
        octets := octets + [o.value];
      }
      k := k + 1;
    }
    assert lines[..k] == lines;
  }

  lemma OctetsInNil(prefix: string)
    ensures OctetsIn(prefix, []) == []
  {
  }

  /** One link as the host lists it: a device name, perhaps "@peer", then other columns. */
  datatype Link = Link(name: string, peer: string, columns: string)

  predicate NoSpace(s: string) {
    forall i :: 0 <= i < |s| ==> !IsSpace(s[i])
  }

  predicate WellFormedLink(l: Link) {
    && l.name != "" && NoSpace(l.name) && '@' !in l.name
    && NoSpace(l.peer) && (l.peer == "" || l.peer[0] == '@')
    && '\n' !in l.columns
  }

  function Line(l: Link): string {
    l.name + l.peer + " " + l.columns
  }

  function Listing(links: seq<Link>): string {
    if links == [] then "" else Line(links[0]) + "\n" + Listing(links[1..])
  }

  lemma {:induction false} UpToSpaceStops(s: string, rest: string)
    requires NoSpace(s) && rest != "" && IsSpace(rest[0])
    ensures UpToSpace(s + rest) == s
  {
    if s == "" {
      assert s + rest == rest;
    } else {
      assert (s + rest)[1..] == s[1..] + rest;
      UpToSpaceStops(s[1..], rest);
    }
  }

  lemma LineNamesTap(prefix: string, l: Link, o: nat)
    requires WellFormedLink(l) && l.name == prefix + Decimal(o) && o <= 255
    ensures LineOctet(prefix, Line(l)) == Some(o)
  {
    var field := l.name + l.peer;
    assert NoSpace(field);
    assert Line(l) == field + (" " + l.columns);
    UpToSpaceStops(field, " " + l.columns);
    assert SkipSpace(Line(l)) == Line(l);
    assert FirstField(Line(l)) == field;
    if l.peer == "" {
      assert field == l.name;
      IndexOfFirst(l.name, "", '@');
    } else {
      assert field == l.name + ['@'] + l.peer[1..];
      IndexOfFirst(l.name, l.peer[1..], '@');
    }
    assert field[..|l.name|] == l.name;
    assert l.name[|prefix|..] == Decimal(o);
    AtoiDecimal(o);
  }

  lemma LineHasNoNewline(l: Link)
    requires WellFormedLink(l)
    ensures '\n' !in Line(l)
  {
  }

  lemma ListingLines(links: seq<Link>)
    requires links != [] && WellFormedLink(links[0])
    ensures Split(Listing(links), '\n') == [Line(links[0])] + Split(Listing(links[1..]), '\n')
  {
    LineHasNoNewline(links[0]);
    SplitCons(Line(links[0]), Listing(links[1..]), '\n');
  }

  lemma OctetsInCons(prefix: string, line: string, lines: seq<string>)
    ensures OctetsIn(prefix, [line] + lines)
         == Found(prefix, line) + OctetsIn(prefix, lines)
  {
  }

  /** For any listing holding a device named tapName of an address, tapOctets yields that octet. */
  lemma {:induction false} VisibleTapIsRead(c: NetConfig, links: seq<Link>, i: nat, o: nat)
    requires WellFormedSubnet(c) && o <= 255 && i < |links|
    requires forall k :: 0 <= k < |links| ==> WellFormedLink(links[k])
    requires links[i].name == TapName(c, Ip(c, o))
    ensures o in OctetsIn(c.tapPrefix, Split(Listing(links), '\n'))
    decreases |links|
  {
    hide LineOctet, OctetsIn, Split, Line, Listing, TapName, Ip, WellFormedSubnet;
    ListingLines(links);
    OctetsInCons(c.tapPrefix, Line(links[0]), Split(Listing(links[1..]), '\n'));
    if i == 0 {
      NamesAreInjective(c, o, o);
      LineNamesTap(c.tapPrefix, links[0], o);
    } else {
      VisibleTapIsRead(c, links[1..], i - 1, o);
    }
  }

  // ---- the allocator ----

  predicate InRange(o: int) {
    FIRST_OCTET <= o <= LAST_OCTET
  }

  /** o is the octet allocIP hands out. */
  predicate LeastFree(used: set<int>, o: int) {
    InRange(o) && o !in used && forall p :: FIRST_OCTET <= p < o ==> p in used
  }

  ghost predicate Full(used: set<int>) {
    forall o :: InRange(o) ==> o in used
  }

  class VmNet {
    const cfg: NetConfig
    var used: set<int>

    constructor (cfg: NetConfig)
      ensures this.cfg == cfg && used == {}
    {
      this.cfg, used := cfg, {};
    }

    /** reserveExistingTaps: every octet of a visible tap is taken. */
    method ReserveExistingTaps(listing: string)
      modifies this
      ensures used == old(used) + set o | o in OctetsIn(cfg.tapPrefix, Split(listing, '\n'))
    {
      var octets := TapOctets(cfg.tapPrefix, listing);
      used := used + set o | o in octets;
    }

    /** allocIP: the least free octet, or an error when the /24 is full. */
    method AllocIP() returns (r: Option<nat>)
      modifies this
      ensures r.None? ==> Full(old(used)) && used == old(used)
      ensures r.Some? ==> LeastFree(old(used), r.value) && used == old(used) + {r.value}
      ensures r.None? <==> forall o :: 2 <= o <= 254 ==> o in old(used)
      ensures r.Some? ==> 2 <= r.value <= 254 && r.value !in old(used)
    {
      var o := FIRST_OCTET;
      while o <= LAST_OCTET
        invariant FIRST_OCTET <= o <= LAST_OCTET + 1
        invariant forall p :: FIRST_OCTET <= p < o ==> p in used
        invariant used == old(used)
      {
        if o !in used {
          used := used + {o};
          return Some(o);
        }
        o := o + 1;
      }
      return None;
    }

    method ReserveIP(ip: string)
      modifies this
      ensures used == if LastOctet(ip) >= 0 then old(used) + {LastOctet(ip)} else old(used)
    {
      var o := LastOctet(ip);
      if o >= 0 {
        used := used + {o};
      }
    }

    method FreeIP(ip: string)
      modifies this
      ensures used == if LastOctet(ip) >= 0 then old(used) - {LastOctet(ip)} else old(used)
    {
      var o := LastOctet(ip);
      if o >= 0 {
        used := used - {o};
      }
    }
  }

  // ---- the texts themselves ----

  lemma DecimalSnoc(n: nat, ch: char)
    requires n >= 1 && IsDigit(ch)
    ensures Decimal(n * 10 + (ch as int - '0' as int)) == Decimal(n) + [ch]
  {
    var m := n * 10 + (ch as int - '0' as int);
    assert m / 10 == n && m % 10 == ch as int - '0' as int;
  }

  lemma DecimalDigit(ch: char)
    requires IsDigit(ch)
    ensures Decimal(ch as int - '0' as int) == [ch]
  {
  }

  lemma ValueOfDigit(ch: char)
    requires IsDigit(ch)
    ensures AllDigits([ch]) && Value([ch]) == ch as int - '0' as int
  {
    assert [ch][..0] == "";
  }

  lemma {:induction false} DecimalOfValue(s: string)
    requires s != "" && AllDigits(s) && s[0] != '0'
    ensures Decimal(Value(s)) == s && Value(s) >= 1
  {
    hide Decimal;
    var front, ch := s[..|s| - 1], s[|s| - 1];
    if front == "" {
      assert s == [ch];
      ValueOfDigit(ch);
      DecimalDigit(ch);
    } else {
      assert s == front + [ch];
      assert AllDigits(front) && front[0] == s[0];
      DecimalOfValue(front);
      DecimalSnoc(Value(front), ch);
    }
  }

  /** An octet is read from its decimal text and from no other. */
  lemma OctetIff(s: string, o: nat)
    ensures ParseOctet(s) == Some(o) <==> o <= 255 && s == Decimal(o)
  {
    DecimalValue(o);
    if ParseOctet(s) == Some(o) {
      if s[0] != '0' {
        DecimalOfValue(s);
      } else {
        assert |s| == 1 && s[..0] == "" && s == [s[0]] && Value(s) == 0;
      }
    }
  }

  /** The address is the subnet, a dot, and the octet; the tap is the prefix and the octet. */
  lemma AddressTexts(c: NetConfig, o: nat)
    requires WellFormedSubnet(c) && o <= 255
    ensures Ip(c, o) == c.subnet24 + "." + Decimal(o) && TapName(c, Ip(c, o)) == c.tapPrefix + Decimal(o)
  {
    NamesAreInjective(c, o, o);
  }

  lemma FourFields(a: string, b: string, c: string, d: string)
    ensures Join([a, b, c, d], '.') == a + "." + b + "." + c + "." + d
  {
    assert [a, b, c, d][1..] == [b, c, d] && [b, c, d][1..] == [c, d] && [c, d][1..] == [d];
    assert Join([d], '.') == d && Join([c, d], '.') == c + "." + d && Join([b, c, d], '.') == b + "." + (c + "." + d);
    assert Join([a, b, c, d], '.') == a + "." + (b + "." + (c + "." + d));
  }

  /** Which texts are addresses: four octets in decimal, a dot between them; the last one is what is read. */
  lemma LastOctetIff(ip: string, o: nat)
    ensures LastOctet(ip) == o <==>
              o <= 255
              && exists p: nat, q: nat, r: nat ::
                   p <= 255 && q <= 255 && r <= 255
                   && ip == Decimal(p) + "." + Decimal(q) + "." + Decimal(r) + "." + Decimal(o)
  {
    if LastOctet(ip) == o {
      ReadsFourFields(ip, o);
    }
    if p: nat, q: nat, r: nat :|
      p <= 255 && q <= 255 && r <= 255 && o <= 255
      && ip == Decimal(p) + "." + Decimal(q) + "." + Decimal(r) + "." + Decimal(o)
    {
      FourFieldsRead(p, q, r, o);
    }
  }

  lemma FourFieldsRead(p: nat, q: nat, r: nat, o: nat)
    requires p <= 255 && q <= 255 && r <= 255 && o <= 255
    ensures LastOctet(Decimal(p) + "." + Decimal(q) + "." + Decimal(r) + "." + Decimal(o)) == o
  {
    hide Decimal, ParseOctet, LastOctet;
    OctetText(p);
    OctetText(q);
    OctetText(r);
    OctetText(o);
    FieldsRead(Decimal(p), Decimal(q), Decimal(r), Decimal(o));
  }

  lemma OctetText(o: nat)
    requires o <= 255
    ensures ParseOctet(Decimal(o)) == Some(o) && '.' !in Decimal(o)
  {
    hide Decimal, ParseOctet;
    DecimalValue(o);
    OctetIff(Decimal(o), o);
    DigitsLackDot(Decimal(o));
  }

  lemma FieldsRead(a: string, b: string, c: string, d: string)
    requires ParseOctet(a).Some? && ParseOctet(b).Some? && ParseOctet(c).Some? && ParseOctet(d).Some?
    requires '.' !in a && '.' !in b && '.' !in c && '.' !in d
    ensures LastOctet(a + "." + b + "." + c + "." + d) == ParseOctet(d).value
  {
    hide ParseOctet, Join, Split;
    FourFields(a, b, c, d);
    SplitJoin([a, b, c, d], '.');
  }

  lemma DigitsLackDot(s: string)
    requires AllDigits(s)
    ensures '.' !in s
  {
  }

  lemma ReadsFourFields(ip: string, o: nat)
    requires LastOctet(ip) == o
    ensures o <= 255
            && exists p: nat, q: nat, r: nat ::
                 p <= 255 && q <= 255 && r <= 255
                 && ip == Decimal(p) + "." + Decimal(q) + "." + Decimal(r) + "." + Decimal(o)
  {
    hide Decimal, ParseOctet, Join, Split;
    var parts := Split(ip, '.');
    var p, q, r := ParseOctet(parts[0]).value, ParseOctet(parts[1]).value, ParseOctet(parts[2]).value;
    OctetIff(parts[0], p);
    OctetIff(parts[1], q);
    OctetIff(parts[2], r);
    OctetIff(parts[3], o);
    JoinSplit(ip, '.');
    assert parts == [parts[0], parts[1], parts[2], parts[3]];
    FourFields(parts[0], parts[1], parts[2], parts[3]);
    assert ip == Decimal(p) + "." + Decimal(q) + "." + Decimal(r) + "." + Decimal(o);
  }

  /** A device whose name does not start with the prefix is none of the fleet's. */
  lemma ForeignLinkIsSkipped(prefix: string, l: Link)
    requires WellFormedLink(l) && !(prefix <= l.name)
    ensures LineOctet(prefix, Line(l)) == None
  {
    LinkName(l);
    hide UpToSpace, SkipSpace, IndexOf;
  }

  /** The name read from a line is the device's, without its peer. */
  lemma LinkName(l: Link)
    requires WellFormedLink(l)
    ensures var field := FirstField(Line(l)); field != "" && field[..IndexOf(field, '@')] == l.name
  {
    var field, rest := l.name + l.peer, " " + l.columns;
    assert Line(l) == field + rest;
    assert NoSpace(field) && !IsSpace(Line(l)[0]);
    UpToSpaceStops(field, rest);
    if l.peer == "" {
      assert field == l.name;
      IndexOfFirst(l.name, "", '@');
    } else {
      assert field == l.name + ['@'] + l.peer[1..];
      IndexOfFirst(l.name, l.peer[1..], '@');
    }
  }

  /** Numbers may carry a sign, must fit in 64 bits, and nothing but digits may follow. */
  lemma AtoiSigned(n: nat, s: string)
    ensures Atoi("-" + Decimal(n)) == if n <= 9223372036854775808 then Some(0 - n) else None
    ensures Atoi("+" + Decimal(n)) == if n < 9223372036854775808 then Some(n) else None
    ensures !AllDigits(s) && s != "" && s[0] != '-' && s[0] != '+' ==> Atoi(s) == None
    ensures Atoi("") == None && Atoi("-") == None && Atoi("+") == None
  {
    DecimalValue(n);
    assert ("-" + Decimal(n))[1..] == Decimal(n) && ("+" + Decimal(n))[1..] == Decimal(n);
    hide Decimal, Value;
  }

  /** White space before the first field is skipped, and a blank line names no device. */
  lemma FieldAfterSpace(prefix: string, ch: char, line: string)
    requires ch == ' ' || ch == '\t' || ch == '\r'
    ensures FirstField([ch] + line) == FirstField(line) && LineOctet(prefix, [ch] + line) == LineOctet(prefix, line)
    ensures LineOctet(prefix, "") == None
  {
    assert ([ch] + line)[1..] == line;
    hide UpToSpace;
    assert FirstField([ch] + line) == FirstField(line);
  }
}
