/** The names that batch generation makes up: decimal numbers, user names and tags. */
module Labels {

  function Digit(d: nat): char
    requires d < 10
  {
    ['0', '1', '2', '3', '4', '5', '6', '7', '8', '9'][d]
  }

  predicate IsDigit(c: char) {
    '0' <= c <= '9'
  }

  function DigitValue(c: char): nat {
    if '0' <= c then c as nat - '0' as nat else 0
  }

  function Decimal(n: nat): (s: string)
    ensures s != "" && forall i :: 0 <= i < |s| ==> IsDigit(s[i])
  {
    if n < 10 then [Digit(n)] else Decimal(n / 10) + [Digit(n % 10)]
  }

  function NatOf(s: string): nat {
    if s == "" then 0 else 10 * NatOf(s[..|s| - 1]) + DigitValue(s[|s| - 1])
  }

  lemma {:induction false} DecimalRoundTrip(n: nat)
    ensures NatOf(Decimal(n)) == n
  {
    if n < 10 {
      assert Decimal(n)[..0] == "";
    } else {
      DecimalRoundTrip(n / 10);
      assert Decimal(n)[..|Decimal(n)| - 1] == Decimal(n / 10);
    }
  }

  /** A number as a port is written into a tag. */
  function Numeral(n: int): string {
    if n < 0 then "-" + Decimal(-n) else Decimal(n)
  }

  function IntOf(s: string): int {
    if s != "" && s[0] == '-' then 0 - NatOf(s[1..]) else NatOf(s)
  }

  lemma NumeralRoundTrip(n: int)
    ensures IntOf(Numeral(n)) == n
  {
    var size: nat := if n < 0 then -n else n;
    DecimalRoundTrip(size);
  }

  lemma NumeralInjective(m: int, n: int)
    ensures Numeral(m) == Numeral(n) ==> m == n
  {
    NumeralRoundTrip(m);
    NumeralRoundTrip(n);
  }

  lemma SamePrefix(prefix: string, a: string, b: string)
    ensures prefix + a == prefix + b ==> a == b
  {
    assert (prefix + a)[|prefix|..] == a && (prefix + b)[|prefix|..] == b;
  }

  /** Digits end where the first other character stands. */
  lemma DigitsEnd(a: string, x: string, b: string, y: string)
    requires forall i :: 0 <= i < |a| ==> IsDigit(a[i])
    requires forall i :: 0 <= i < |b| ==> IsDigit(b[i])
    requires x != "" && !IsDigit(x[0]) && y != "" && !IsDigit(y[0])
    requires a + x == b + y
    ensures a == b
  {
    var w := a + x;
    assert w[|a|] == x[0] && w[|b|] == y[0];
    assert forall i :: 0 <= i < |a| ==> w[i] == a[i];
    assert forall i :: 0 <= i < |b| ==> w[i] == b[i];
    assert (a + x)[..|a|] == a && (b + y)[..|b|] == b;
  }

  /** What follows the last dot of an address. */
  function LastPart(ip: string): string {
    if ip == "" || ip[|ip| - 1] == '.' then "" else LastPart(ip[..|ip| - 1]) + [ip[|ip| - 1]]
  }

  function Ending(ip: string): (e: string)
    ensures e != "" && !IsDigit(e[0])
  {
    (if LastPart(ip) != "" then "_" + LastPart(ip) else "") + "@gosea"
  }

  /** The user name of an entry: its number within the batch and the end of its address. */
  function Username(number: nat, ip: string): string {
    "gs" + Decimal(number) + Ending(ip)
  }

  /** Within one batch no name occurs twice, whatever the addresses are. */
  lemma UsernameNumber(m: nat, a: string, n: nat, b: string)
    ensures Username(m, a) == Username(n, b) ==> m == n
  {
    if Username(m, a) == Username(n, b) {
      assert Username(m, a) == "gs" + (Decimal(m) + Ending(a)) && Username(n, b) == "gs" + (Decimal(n) + Ending(b));
      SamePrefix("gs", Decimal(m) + Ending(a), Decimal(n) + Ending(b));
      DigitsEnd(Decimal(m), Ending(a), Decimal(n), Ending(b));
      DecimalRoundTrip(m);
      DecimalRoundTrip(n);
    }
  }

  function Dashed(ip: string): string {
    if ip == "" then "" else Dashed(ip[..|ip| - 1]) + [if ip[|ip| - 1] == '.' then '-' else ip[|ip| - 1]]
  }

  function SocksTag(port: int): string {
    "gosea-socks5-" + Numeral(port)
  }

  function RelayTag(protocol: string, port: int): string {
    "gosea-relay-" + protocol + "-" + Numeral(port)
  }

  lemma SocksTagInjective(p: int, q: int)
    ensures SocksTag(p) == SocksTag(q) ==> p == q
  {
    SamePrefix("gosea-socks5-", Numeral(p), Numeral(q));
    NumeralInjective(p, q);
  }

  lemma RelayTagInjective(protocol: string, p: int, q: int)
    ensures RelayTag(protocol, p) == RelayTag(protocol, q) ==> p == q
  {
    SamePrefix("gosea-relay-" + protocol + "-", Numeral(p), Numeral(q));
    NumeralInjective(p, q);
  }

  /** The email of a relay client keeps eight characters of its uuid. */
  function RelayEmail(uuid: string): string {
    "relay-" + (if |uuid| <= 8 then uuid else uuid[..8]) + "@gosea"
  }

  function DirectTag(ip: string): string {
    "gosea-direct-" + Dashed(ip)
  }

  lemma {:induction false} DashedInjective(a: string, b: string)
    requires '-' !in a && '-' !in b && Dashed(a) == Dashed(b)
    ensures a == b
    decreases |a|
  {
    if a != "" && b != "" {
      assert Dashed(a)[..|Dashed(a)| - 1] == Dashed(a[..|a| - 1]) && Dashed(b)[..|Dashed(b)| - 1] == Dashed(b[..|b| - 1]);
      assert Dashed(a)[|Dashed(a)| - 1] == Dashed(b)[|Dashed(b)| - 1];
      DashedInjective(a[..|a| - 1], b[..|b| - 1]);
      assert a == a[..|a| - 1] + [a[|a| - 1]] && b == b[..|b| - 1] + [b[|b| - 1]];
    }
  }

  lemma DirectTagInjective(a: string, b: string)
    requires '-' !in a && '-' !in b && DirectTag(a) == DirectTag(b)
    ensures a == b
  {
    SamePrefix("gosea-direct-", Dashed(a), Dashed(b));
    DashedInjective(a, b);
  }

  function ProxyTag(ip: string, port: int): string {
    "gosea-socks5-" + Dashed(ip) + "-" + Numeral(port)
  }

  /** Every dot becomes a dash and nothing else changes. */
  lemma {:induction false} DashedMeaning(ip: string)
    ensures |Dashed(ip)| == |ip| && forall i :: 0 <= i < |ip| ==> Dashed(ip)[i] == if ip[i] == '.' then '-' else ip[i]
    decreases |ip|
  {
    if ip != "" { DashedMeaning(ip[..|ip| - 1]); }
  }

  /** The part after the last dot, or everything when there is no dot. */
  lemma {:induction false} LastPartMeaning(ip: string)
    ensures '.' !in LastPart(ip) && |LastPart(ip)| <= |ip| && ip[|ip| - |LastPart(ip)|..] == LastPart(ip)
    ensures |LastPart(ip)| < |ip| ==> ip[|ip| - |LastPart(ip)| - 1] == '.'
    decreases |ip|
  {
    if ip != "" && ip[|ip| - 1] != '.' {
      var before := ip[..|ip| - 1];
      LastPartMeaning(before);
      assert ip[|ip| - |LastPart(ip)|..] == before[|before| - |LastPart(before)|..] + [ip[|ip| - 1]];
    }
  }

  /** The names around those parts. */
  lemma NamesLookLike()
    ensures Username(7, "9") == "gs7_9@gosea" && Username(7, ".") == "gs7@gosea"
    ensures SocksTag(8) == "gosea-socks5-8" && RelayTag("vless", 8) == "gosea-relay-vless-8"
    ensures DirectTag("a") == "gosea-direct-a" && ProxyTag("a", 8) == "gosea-socks5-a-8"
    ensures RelayEmail("0123456789") == "relay-01234567@gosea"
  {
    assert LastPart("9") == "9" && LastPart(".") == "";
    DashedMeaning("a");
    assert Dashed("a") == "a";
  }
}
