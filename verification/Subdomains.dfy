/**
 * Names: which subdomains are valid, which are reserved, how they are generated, and how the names
 * and ports the server prints are read back (`tcp-<port>` names, tunnel URLs and their routing).
 */
module Subdomains {
  import opened Collections

  const DEFAULT_SUBDOMAIN_LENGTH := 6

  const RESERVED := {
    "www", "api", "admin", "app", "mail", "ftp", "blog", "shop", "status", "health", "test", "dev", "staging"
  }

  function Letters(): (s: string)
    ensures |s| == 26 && forall i :: 0 <= i < 26 ==> s[i] as int == 'a' as int + i
  {
    "abcdefghijklmnopqrstuvwxyz"
  }

  function DecimalDigits(): (s: string)
    ensures |s| == 10 && forall i :: 0 <= i < 10 ==> s[i] as int == '0' as int + i
  {
    "0123456789"
  }

  function SubdomainChars(): (s: string)
    ensures |s| == 36
  {
    Letters() + DecimalDigits()
  }

  predicate IsAlphanumeric(c: char) {
    'a' <= c <= 'z' || '0' <= c <= '9'
  }

  /** The regular expression: an alphanumeric, 1 to 61 alphanumerics or hyphens, an alphanumeric. */
  ghost predicate MatchesPattern(s: string) {
    exists first, middle, last :: s == [first] + middle + [last] && IsAlphanumeric(first) && IsMiddle(middle) && IsAlphanumeric(last)
  }

  predicate IsMiddle(middle: string) {
    1 <= |middle| <= 61 && forall i :: 0 <= i < |middle| ==> IsAlphanumeric(middle[i]) || middle[i] == '-'
  }

  /** The check as one scan: length, both ends, and every character. */
  predicate ValidateSubdomain(s: string) {
    && 3 <= |s| <= 63
    && IsAlphanumeric(s[0]) && IsAlphanumeric(s[|s| - 1])
    && forall i :: 0 <= i < |s| ==> IsAlphanumeric(s[i]) || s[i] == '-'
  }

  /** A name is valid exactly when the regular expression matches; the length check before it adds nothing. */
  lemma ValidIsPattern(s: string)
    ensures ValidateSubdomain(s) <==> MatchesPattern(s)
    ensures ValidateSubdomain(s) <==>
            && 3 <= |s| <= 63 && s[0] != '-' && s[|s| - 1] != '-'
            && forall i :: 0 <= i < |s| ==> 'a' <= s[i] <= 'z' || '0' <= s[i] <= '9' || s[i] == '-'
  {
    if ValidateSubdomain(s) {
      var middle := s[1..|s| - 1];
      assert s == [s[0]] + middle + [s[|s| - 1]];
      assert IsMiddle(middle);
    }
    if MatchesPattern(s) {
      var first, middle, last :| s == [first] + middle + [last] && IsAlphanumeric(first) && IsMiddle(middle) && IsAlphanumeric(last);
      forall i | 0 <= i < |s| ensures IsAlphanumeric(s[i]) || s[i] == '-' {
        assert s[i] == if i == 0 then first else if i == |s| - 1 then last else middle[i - 1];
      }
    }
  }

  predicate IsReserved(s: string) {
    s in RESERVED
  }

  /** The thirteen reserved names; the longest is "staging", and none begins like a TCP name. */
  lemma ReservedNames(s: string)
    ensures IsReserved(s) ==> 3 <= |s| <= 7 && s[..2] != "tc"
    ensures IsReserved(s) <==>
            || s == "www" || s == "api" || s == "admin" || s == "app" || s == "mail" || s == "ftp" || s == "blog"
            || s == "shop" || s == "status" || s == "health" || s == "test" || s == "dev" || s == "staging"
  {
    if IsReserved(s) {
      assert s[..2][1] == s[1] && "tc"[1] == 'c';
    }
  }

  /** A string the generator may return for a given length. */
  predicate IsGenerated(s: string, length: nat) {
    |s| == length && forall i :: 0 <= i < |s| ==> s[i] in SubdomainChars()
  }

  lemma CharsAreAlphanumeric(c: char)
    ensures c in SubdomainChars() ==> IsAlphanumeric(c)
  {
    hide Letters, DecimalDigits;
  }

  /** What the manager relies on: 6 and 8 character names are valid, and no 8 character name is reserved. */
  lemma GeneratedNamesAreValid(s: string, length: nat)
    requires IsGenerated(s, length) && 3 <= length <= 63
    ensures ValidateSubdomain(s) && (length >= 8 ==> !IsReserved(s))
  {
    hide SubdomainChars, IsReserved, IsAlphanumeric;
    forall i | 0 <= i < |s| ensures IsAlphanumeric(s[i]) {
      CharsAreAlphanumeric(s[i]);
    }
    ReservedNames(s);
  }

  lemma CharsInOrder()
    ensures forall d :: 0 <= d < 36 ==> SubdomainChars()[d] as int == if d < 26 then 'a' as int + d else '0' as int + d - 26
  {
  }

  /** `random(i)` is the i-th draw of the random source, or nothing where it fails. */
  method GenerateSubdomain(length: int, random: nat -> Option<nat>) returns (s: string)
    requires forall i :: random(i).Some? ==> random(i).value < |SubdomainChars()|
    ensures IsGenerated(s, if length <= 0 then DEFAULT_SUBDOMAIN_LENGTH else length)
    ensures |s| == if length <= 0 then 6 else length
    ensures forall i :: 0 <= i < |s| ==>
              var draw := match random(i) case Some(v) => v case None => i % 36;
              s[i] as int == if draw < 26 then 'a' as int + draw else '0' as int + draw - 26
  {
    CharsInOrder();
    hide SubdomainChars;
    var n := if length <= 0 then DEFAULT_SUBDOMAIN_LENGTH else length;
    var result := new char[n];
    var chars := SubdomainChars();
    for i := 0 to n
      invariant forall k :: 0 <= k < i ==> result[k] in chars
      invariant forall k :: 0 <= k < i ==> result[k] == chars[match random(k) case Some(v) => v case None => k % 36]
    {
      var num := random(i);
      var pick := match num case Some(v) => v case None => i % |chars|;
      result[i] := chars[pick];
    }
    s := result[..];
  }

  // ---------------------------------------------------------------- decimal numbers

  function Digit(d: nat): char
    requires d < 10
  {
    DecimalDigits()[d]
  }

  /** `%d` of a non-negative number. */
  function Decimal(n: nat): string {
    if n < 10 then [Digit(n)] else Decimal(n / 10) + [Digit(n % 10)]
  }

  predicate IsDigit(c: char) {
    '0' <= c <= '9'
  }

  function DigitValue(c: char): nat
    requires IsDigit(c)
  {
    c as int - '0' as int
  }

  predicate AllDigits(s: string) {
    forall i :: 0 <= i < |s| ==> IsDigit(s[i])
  }

  function DigitsValue(s: string): nat
    requires AllDigits(s)
  {
    if s == [] then 0 else DigitsValue(s[..|s| - 1]) * 10 + DigitValue(s[|s| - 1])
  }

  /** `strconv.Atoi` up to its range check, which the callers here repeat more strictly. */
  function Atoi(s: string): Option<int> {
    var digits := if s != [] && (s[0] == '+' || s[0] == '-') then s[1..] else s;
    if digits == [] || !AllDigits(digits) then None
    else if s[0] == '-' then Some(0 - DigitsValue(digits) as int)
    else Some(DigitsValue(digits))
  }

  lemma {:induction false} DecimalReadsBack(n: nat)
    ensures |Decimal(n)| >= 1 && AllDigits(Decimal(n)) && DigitsValue(Decimal(n)) == n
  {
    if n < 10 {
      assert DigitsValue([]) == 0;
      assert [Digit(n)][..0] == [];
      DigitReadsBack(n);
    } else {
      DecimalReadsBack(n / 10);
      DigitReadsBack(n % 10);
      assert Decimal(n)[..|Decimal(n)| - 1] == Decimal(n / 10);
      assert n == n / 10 * 10 + n % 10;
    }
  }

  /** A port in decimal: as many digits as it needs, the most significant first. */
  lemma PortInDigits(n: nat)
    requires n < 100000
    ensures var s := Decimal(n);
      && |s| == (if n < 10 then 1 else if n < 100 then 2 else if n < 1000 then 3 else if n < 10000 then 4 else 5)
      && (forall i :: 0 <= i < |s| ==> '0' <= s[i] <= '9')
      && n == (if |s| == 5 then 10000 * (s[0] as int - '0' as int) else 0)
              + (if |s| >= 4 then 1000 * (s[|s| - 4] as int - '0' as int) else 0)
              + (if |s| >= 3 then 100 * (s[|s| - 3] as int - '0' as int) else 0)
              + (if |s| >= 2 then 10 * (s[|s| - 2] as int - '0' as int) else 0)
              + (s[|s| - 1] as int - '0' as int)
  {
    if n >= 10 {
      PortInDigits(n / 10);
      assert Decimal(n) == Decimal(n / 10) + [Digit(n % 10)];
      assert n == n / 10 * 10 + n % 10;
    }
  }

  lemma DigitReadsBack(d: nat)
    requires d < 10
    ensures IsDigit(Digit(d)) && DigitValue(Digit(d)) == d
  {
  }

  lemma {:induction false} DecimalLength(n: nat, digits: nat)
    requires digits >= 1 && n < Power(digits)
    ensures |Decimal(n)| <= digits
    decreases digits
  {
    if n >= 10 {
      DecimalLength(n / 10, digits - 1);
    }
  }

  function Power(digits: nat): nat {
    if digits == 0 then 1 else 10 * Power(digits - 1)
  }

  lemma DecimalOfPort(port: nat)
    requires port <= 65535
    ensures |Decimal(port)| <= 5
  {
    assert Power(5) == 10 * Power(4) && Power(3) == 10 * Power(2) && Power(1) == 10;
    DecimalLength(port, 5);
  }

  // ---------------------------------------------------------------- tcp-<port> names

  function TcpName(port: nat): string {
    "tcp-" + Decimal(port)
  }

  function ParseTcpSubdomainPort(subdomain: string): Option<nat> {
    if !("tcp-" <= subdomain) then None
    else
      var portStr := subdomain[4..];
      if portStr == "" then None
      else match Atoi(portStr)
        case None => None
        case Some(port) => if port < 1 || port > 65535 then None else Some(port)
  }

  /** The name made for an allocated port is registrable and is read back as that port. */
  lemma TcpNameRoundTrip(port: nat)
    requires 1 <= port <= 65535
    ensures ParseTcpSubdomainPort(TcpName(port)) == Some(port)
    ensures ValidateSubdomain(TcpName(port)) && !IsReserved(TcpName(port))
  {
    hide Decimal, DigitsValue, Power, IsReserved;
    DecimalReadsBack(port);
    DecimalOfPort(port);
    var d, s := Decimal(port), TcpName(port);
    assert s[4..] == d;
    assert IsDigit(d[0]);
    forall i | 0 <= i < |s| ensures IsAlphanumeric(s[i]) || s[i] == '-' {
      if i >= 4 {
        assert s[i] == d[i - 4] && IsDigit(d[i - 4]);
      } else {
        assert s[i] == "tcp-"[i];
      }
    }
    assert s[|s| - 1] == d[|d| - 1] && IsDigit(d[|d| - 1]);
    assert s[..2] == "tc";
    ReservedNames(s);
  }

  /** Which names claim a port: `tcp-`, perhaps a plus sign, and digits that come to 1 to 65535. */
  lemma ClaimsPortExactly(s: string, port: nat)
    ensures ParseTcpSubdomainPort(s) == Some(port) <==>
            && "tcp-" <= s && 1 <= port <= 65535
            && var digits := if |s| > 4 && s[4] == '+' then s[5..] else s[4..];
               digits != [] && (forall i :: 0 <= i < |digits| ==> '0' <= digits[i] <= '9') && DigitsValue(digits) == port
  {
    hide DigitsValue;
    if "tcp-" <= s && |s| > 4 {
      assert s[4..][0] == s[4] && s[4..][1..] == s[5..];
    }
  }

  /** A valid name that claims a port is `tcp-` followed by digits only, possibly with leading zeros. */
  lemma ValidTcpNameIsDigits(s: string, port: nat)
    requires ValidateSubdomain(s) && ParseTcpSubdomainPort(s) == Some(port)
    ensures 1 <= port <= 65535 && s == "tcp-" + s[4..] && AllDigits(s[4..]) && DigitsValue(s[4..]) == port
  {
    assert s[4] == s[4..][0];
  }

  // ---------------------------------------------------------------- URLs and routing

  function Scheme(): (s: string)
    ensures |s| == 8
  {
    "https://"
  }

  function BuildHTTPURL(tunnelDomain: string, publicPort: nat, subdomain: string): string {
    if publicPort == 443 then Scheme() + subdomain + "." + tunnelDomain
    else Scheme() + subdomain + "." + tunnelDomain + ":" + Decimal(publicPort)
  }

  /** The `Host` a client sends for a URL this server printed. */
  function HostOf(url: string): string
    requires |url| >= 8
  {
    url[8..]
  }

  /** `host` up to its first colon. */
  function BeforeColon(host: string): string {
    if host == "" || host[0] == ':' then "" else [host[0]] + BeforeColon(host[1..])
  }

  datatype Routing = Home | Found(subdomain: string) | NotFound

  function ExtractSubdomain(serverDomain: string, tunnelDomain: string, host: string): Routing {
    var host := BeforeColon(host);
    var suffix := "." + tunnelDomain;
    if host == serverDomain then Home
    else if |host| >= |suffix| && host[|host| - |suffix|..] == suffix then Found(host[..|host| - |suffix|])
    else NotFound
  }

  lemma {:induction false} BeforeColonKeeps(a: string, b: string)
    requires ':' !in a
    ensures BeforeColon(a + b) == a + BeforeColon(b)
  {
    if a == "" {
      assert a + b == b;
    } else {
      assert (a + b)[0] == a[0] && (a + b)[1..] == a[1..] + b;
      assert a[0] in a;
      BeforeColonKeeps(a[1..], b);
    }
  }

  lemma ColonFirst(s: string)
    requires s == "" || s[0] == ':'
    ensures BeforeColon(s) == ""
  {
  }

  lemma NoColon(s: string)
    requires ValidateSubdomain(s)
    ensures ':' !in s
  {
  }

  /** The printed port reads back as the public port; the standard one is left out. */
  lemma UrlTellsPort(tunnelDomain: string, publicPort: nat, s: string)
    ensures var url := BuildHTTPURL(tunnelDomain, publicPort, s); var front := "https://" + s + "." + tunnelDomain;
      && front <= url
      && (publicPort == 443 ==> url == front)
      && (publicPort != 443 ==>
            && |url| > |front| + 1 && url[|front|] == ':'
            && AllDigits(url[|front| + 1..]) && DigitsValue(url[|front| + 1..]) == publicPort)
  {
    hide Decimal, DigitsValue, AllDigits;
    DecimalReadsBack(publicPort);
    var url, front := BuildHTTPURL(tunnelDomain, publicPort, s), "https://" + s + "." + tunnelDomain;
    if publicPort != 443 {
      assert url == front + ":" + Decimal(publicPort);
      assert url[|front| + 1..] == Decimal(publicPort);
    }
  }

  /** A printed tunnel URL is routed back to the tunnel it was printed for, unless that is the server itself. */
  lemma UrlRoutesBack(serverDomain: string, tunnelDomain: string, publicPort: nat, s: string)
    requires ValidateSubdomain(s) && ':' !in tunnelDomain
    ensures var url := BuildHTTPURL(tunnelDomain, publicPort, s);
      && |url| >= 8
      && ExtractSubdomain(serverDomain, tunnelDomain, HostOf(url))
         == if s + "." + tunnelDomain == serverDomain then Home else Found(s)
  {
    hide Scheme, ValidateSubdomain, Decimal, BeforeColon;
    assert ':' !in s by { NoColon(s); }
    var name := s + "." + tunnelDomain;
    var url := BuildHTTPURL(tunnelDomain, publicPort, s);
    var rest := if publicPort == 443 then "" else ":" + Decimal(publicPort);
    assert url == Scheme() + (name + rest);
    assert HostOf(url) == name + rest;
    BeforeColonKeeps(name, rest);
    ColonFirst(rest);
    assert name + "" == name;
    assert name[|s|..] == "." + tunnelDomain && name[..|s|] == s;
  }

  /** The host without its port: everything before the first colon. */
  lemma BeforeColonExactly(host: string)
    ensures var h := BeforeColon(host);
      h <= host && ':' !in h && (h == host || host[|h|] == ':')
  {
  }

  /**
   * Routing finds a name only for hosts of the form name.tunnelDomain, with or without a port, and the
   * server itself only for its own domain.
   */
  lemma RoutingIsExact(serverDomain: string, tunnelDomain: string, host: string, s: string)
    ensures ExtractSubdomain(serverDomain, tunnelDomain, host) == Home <==> BeforeColon(host) == serverDomain
    ensures ExtractSubdomain(serverDomain, tunnelDomain, host) == Found(s)
            <==> BeforeColon(host) == s + "." + tunnelDomain && BeforeColon(host) != serverDomain
  {
    var h, suffix := BeforeColon(host), "." + tunnelDomain;
    if h == s + "." + tunnelDomain {
      assert h == s + suffix;
      assert h[|s|..] == suffix && h[..|s|] == s;
    }
    if ExtractSubdomain(serverDomain, tunnelDomain, host) == Found(s) {
      assert h == h[..|h| - |suffix|] + h[|h| - |suffix|..];
      assert s + suffix == s + "." + tunnelDomain;
    }
  }
}
