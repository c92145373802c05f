/**
 * The private-address test `isPrivateIP` of app.js. It is a purely textual
 * match: two prefixes, a regular expression for the 172.16.0.0/12 block and
 * two exact loopback literals. The second half of the module relates it to
 * the numeric blocks of section 3 of RFC 1918 on canonical dotted-quad text.
 */
module PrivateIp {
  import opened Base

  /** The two characters after `172.` accepted by `(1[6-9]|2[0-9]|3[0-1])`. */
  predicate SecondOctetDigits(tens: char, units: char)
  {
    || (tens == '1' && '6' <= units <= '9')
    || (tens == '2' && '0' <= units <= '9')
    || (tens == '3' && '0' <= units <= '1')
  }

  /** `172.`, then the decimal text of a number from 16 to 31, then a dot, at the head of `ip`. */
  ghost predicate Starts172Block(ip: string)
  {
    exists n :: 16 <= n <= 31 && StartsWith(ip, "172." + Decimal(n) + ".")
  }

  /**
   * The regular expression `/^172\.(1[6-9]|2[0-9]|3[0-1])\./` applied to
   * `ip`. It accepts exactly `172.`, then the decimal text of a number from
   * 16 to 31, then a dot.
   */
  predicate Matches172Block(ip: string)
    ensures Matches172Block(ip) <==> Starts172Block(ip)
  {
    RegexText172(ip);
    StartsWith(ip, "172.") && |ip| >= 7 && SecondOctetDigits(ip[4], ip[5]) && ip[6] == '.'
  }

  /**
   * True for the prefixes `10.` and `192.168.`, for `172.` followed by the
   * decimal text of 16 to 31 and a dot, and for exactly `127.0.0.1` and `::1`.
   */
  predicate IsPrivateIP(ip: string)
    ensures IsPrivateIP(ip) <==> (
      || StartsWith(ip, "10.")
      || StartsWith(ip, "192.168.")
      || Starts172Block(ip)
      || ip == "127.0.0.1"
      || ip == "::1")
  {
    || StartsWith(ip, "10.")
    || StartsWith(ip, "192.168.")
    || Matches172Block(ip)
    || ip == "127.0.0.1"
    || ip == "::1"
  }

  // ---------------------------------------------------------------------
  // Decimal rendering and dotted-quad addresses: the reference the textual
  // test is measured against.
  // ---------------------------------------------------------------------

  function Digit(d: nat): (c: char)
    requires d < 10
    ensures '0' <= c <= '9'
    ensures c as int - '0' as int == d
  {
    ('0' as int + d) as char
  }

  /** The decimal rendering of `n`, without leading zeros. */
  function Decimal(n: nat): (s: string)
    ensures 1 <= |s|
    ensures forall i :: 0 <= i < |s| ==> '0' <= s[i] <= '9'
    ensures |s| == 1 <==> n < 10
    decreases n
  {
    if n < 10 then [Digit(n)] else Decimal(n / 10) + [Digit(n % 10)]
  }

  lemma {:induction false} DecimalInjective(m: nat, n: nat)
    requires Decimal(m) == Decimal(n)
    ensures m == n
    decreases m
  {
    var sm, sn := Decimal(m), Decimal(n);
    if m < 10 {
      assert Digit(m) == sm[0] == sn[0] == Digit(n);
    } else {
      assert sm[|sm| - 1] == Digit(m % 10) && sn[|sn| - 1] == Digit(n % 10);
      assert Decimal(m / 10) == sm[..|sm| - 1] == sn[..|sn| - 1] == Decimal(n / 10);
      DecimalInjective(m / 10, n / 10);
    }
  }

  /** Exactly the numbers from 10 to 99 are written with two digits. */
  lemma TwoDigitDecimal(n: nat)
    ensures |Decimal(n)| == 2 <==> 10 <= n < 100
    ensures 10 <= n < 100 ==> Decimal(n) == [Digit(n / 10), Digit(n % 10)]
  {
  }

  type Octet = n: nat | n < 256

  datatype IPv4 = IPv4(a: Octet, b: Octet, c: Octet, d: Octet)

  function Dotted(head: string, rest: string): string
  {
    head + "." + rest
  }

  /** The canonical text of an IPv4 address: four decimal octets joined by dots. */
  function DottedQuad(addr: IPv4): string
  {
    Dotted(Decimal(addr.a), Dotted(Decimal(addr.b), Dotted(Decimal(addr.c), Decimal(addr.d))))
  }

  /**
   * The blocks 10/8, 172.16/12 and 192.168/16 reserved by section 3 of
   * RFC 1918, plus the single loopback address 127.0.0.1 that the source lists.
   */
  predicate InPrivateBlock(addr: IPv4)
  {
    || addr.a == 10
    || (addr.a == 172 && 16 <= addr.b <= 31)
    || (addr.a == 192 && addr.b == 168)
    || addr == IPv4(127, 0, 0, 1)
  }

  /** A dot-free leading segment is fixed by any dot-terminated prefix of the text. */
  lemma LeadingSegment(head: string, rest: string, p: string)
    requires '.' !in head && '.' !in p
    requires StartsWith(Dotted(head, rest), p + ".")
    ensures head == p
    ensures Dotted(head, rest)[|p| + 1..] == rest
  {
    var s := Dotted(head, rest);
    assert forall j :: 0 <= j < |p| ==> s[j] == p[j] && s[j] != '.';
    assert forall j :: 0 <= j < |head| ==> s[j] == head[j] && s[j] != '.';
    assert s[|head|] == '.';
    assert s[|p|] == (p + ".")[|p|] == '.';
    assert head == s[..|head|] == p;
  }

  lemma DecimalHasNoDot(n: nat)
    ensures '.' !in Decimal(n)
  {
  }

  /** Distinct addresses have distinct dotted-quad texts. */
  lemma DottedQuadInjective(x: IPv4, y: IPv4)
    requires DottedQuad(x) == DottedQuad(y)
    ensures x == y
  {
    DecimalHasNoDot(x.a); DecimalHasNoDot(x.b); DecimalHasNoDot(x.c); DecimalHasNoDot(x.d);
    DecimalHasNoDot(y.a); DecimalHasNoDot(y.b); DecimalHasNoDot(y.c); DecimalHasNoDot(y.d);
    var rx1 := Dotted(Decimal(x.b), Dotted(Decimal(x.c), Decimal(x.d)));
    var ry1 := Dotted(Decimal(y.b), Dotted(Decimal(y.c), Decimal(y.d)));
    LeadingSegment(Decimal(x.a), rx1, Decimal(y.a));
    DecimalInjective(x.a, y.a);
    var rx2 := Dotted(Decimal(x.c), Decimal(x.d));
    var ry2 := Dotted(Decimal(y.c), Decimal(y.d));
    LeadingSegment(Decimal(x.b), rx2, Decimal(y.b));
    DecimalInjective(x.b, y.b);
    LeadingSegment(Decimal(x.c), Decimal(x.d), Decimal(y.c));
    DecimalInjective(x.c, y.c);
    DecimalInjective(x.d, y.d);
  }

  lemma DecimalLiterals()
    ensures Decimal(0) == "0" && Decimal(1) == "1" && Decimal(10) == "10"
    ensures Decimal(127) == "127" && Decimal(168) == "168"
    ensures Decimal(172) == "172" && Decimal(192) == "192"
  {
  }

  /** The text after the first octet and its dot. */
  function AfterFirstOctet(addr: IPv4): string
  {
    Dotted(Decimal(addr.b), Dotted(Decimal(addr.c), Decimal(addr.d)))
  }

  lemma TenBlock(addr: IPv4)
    ensures StartsWith(DottedQuad(addr), "10.") <==> addr.a == 10
  {
    DecimalLiterals();
    DecimalHasNoDot(addr.a);
    if StartsWith(DottedQuad(addr), "10.") {
      assert "10." == "10" + ".";
      LeadingSegment(Decimal(addr.a), AfterFirstOctet(addr), "10");
      DecimalInjective(addr.a, 10);
    }
    if addr.a == 10 {
      assert DottedQuad(addr) == "10." + AfterFirstOctet(addr);
    }
  }

  lemma Block192Only(addr: IPv4)
    requires StartsWith(DottedQuad(addr), "192.168.")
    ensures addr.a == 192 && addr.b == 168
  {
    var s, r1 := DottedQuad(addr), AfterFirstOctet(addr);
    var r2 := Dotted(Decimal(addr.c), Decimal(addr.d));
    DecimalLiterals();
    DecimalHasNoDot(addr.a);
    DecimalHasNoDot(addr.b);
    assert s[..4] == s[..8][..4] == "192" + ".";
    LeadingSegment(Decimal(addr.a), r1, "192");
    DecimalInjective(addr.a, 192);
    assert r1 == s[4..];
    assert r1[..4] == s[4..8] == "168" + ".";
    LeadingSegment(Decimal(addr.b), r2, "168");
    DecimalInjective(addr.b, 168);
  }

  lemma Block192Text(addr: IPv4)
    requires addr.a == 192 && addr.b == 168
    ensures StartsWith(DottedQuad(addr), "192.168.")
  {
    DecimalLiterals();
    var r2 := Dotted(Decimal(addr.c), Decimal(addr.d));
    assert DottedQuad(addr) == "192.168." + r2;
  }

  lemma Block192(addr: IPv4)
    ensures StartsWith(DottedQuad(addr), "192.168.") <==> addr.a == 192 && addr.b == 168
  {
    if StartsWith(DottedQuad(addr), "192.168.") {
      Block192Only(addr);
    }
    if addr.a == 192 && addr.b == 168 {
      Block192Text(addr);
    }
  }

  lemma Block172Only(addr: IPv4)
    requires Matches172Block(DottedQuad(addr))
    ensures addr.a == 172 && 16 <= addr.b <= 31
  {
    var s, r1 := DottedQuad(addr), AfterFirstOctet(addr);
    var r2 := Dotted(Decimal(addr.c), Decimal(addr.d));
    DecimalLiterals();
    DecimalHasNoDot(addr.a);
    DecimalHasNoDot(addr.b);
    TwoDigitDecimal(addr.b);
    assert s[..4] == "172" + ".";
    LeadingSegment(Decimal(addr.a), r1, "172");
    DecimalInjective(addr.a, 172);
    assert r1 == s[4..];
    var p := [s[4], s[5]];
    assert r1[..3] == p + ".";
    LeadingSegment(Decimal(addr.b), r2, p);
    assert Digit(addr.b / 10) == s[4] && Digit(addr.b % 10) == s[5];
  }

  lemma Block172Text(addr: IPv4)
    requires addr.a == 172 && 16 <= addr.b <= 31
    ensures Matches172Block(DottedQuad(addr))
  {
    var s := DottedQuad(addr);
    var r2 := Dotted(Decimal(addr.c), Decimal(addr.d));
    DecimalLiterals();
    TwoDigitDecimal(addr.b);
    assert s == "172." + Decimal(addr.b) + "." + r2;
    assert s[4] == Digit(addr.b / 10) && s[5] == Digit(addr.b % 10) && s[6] == '.';
  }

  lemma Block172(addr: IPv4)
    ensures Matches172Block(DottedQuad(addr)) <==> addr.a == 172 && 16 <= addr.b <= 31
  {
    if Matches172Block(DottedQuad(addr)) {
      Block172Only(addr);
    }
    if addr.a == 172 && 16 <= addr.b <= 31 {
      Block172Text(addr);
    }
  }

  lemma LoopbackLiteral(addr: IPv4)
    ensures DottedQuad(addr) == "127.0.0.1" <==> addr == IPv4(127, 0, 0, 1)
    ensures DottedQuad(addr) != "::1"
  {
    DecimalLiterals();
    assert DottedQuad(IPv4(127, 0, 0, 1)) == "127.0.0.1";
    if DottedQuad(addr) == "127.0.0.1" {
      DottedQuadInjective(addr, IPv4(127, 0, 0, 1));
    }
    assert DottedQuad(addr)[0] == Decimal(addr.a)[0];
  }

  /**
   * On canonical dotted-quad text the textual test is exactly membership in
   * the RFC 1918 blocks or the address 127.0.0.1.
   */
  lemma DottedQuadClassification(addr: IPv4)
    ensures IsPrivateIP(DottedQuad(addr)) <==> InPrivateBlock(addr)
  {
    TenBlock(addr);
    Block192(addr);
    Block172(addr);
    LoopbackLiteral(addr);
  }

  /** The character-level reading of the 172 pattern, in terms of decimal text. */
  lemma RegexText172(ip: string)
    ensures (StartsWith(ip, "172.") && |ip| >= 7 && SecondOctetDigits(ip[4], ip[5]) && ip[6] == '.')
            <==> Starts172Block(ip)
  {
    if StartsWith(ip, "172.") && |ip| >= 7 && SecondOctetDigits(ip[4], ip[5]) && ip[6] == '.' {
      var n := 10 * (ip[4] as int - '0' as int) + (ip[5] as int - '0' as int);
      TwoDigitDecimal(n);
      assert Decimal(n) == [ip[4], ip[5]];
      assert ip[..7] == "172." + Decimal(n) + ".";
    }
    if exists n :: 16 <= n <= 31 && StartsWith(ip, "172." + Decimal(n) + ".") {
      var n :| 16 <= n <= 31 && StartsWith(ip, "172." + Decimal(n) + ".");
      TwoDigitDecimal(n);
      var t := "172." + Decimal(n) + ".";
      assert ip[4] == t[4] == Digit(n / 10) && ip[5] == t[5] == Digit(n % 10) && ip[6] == t[6] == '.';
      assert ip[..4] == t[..4] == "172.";
    }
  }

  /** Addresses the textual test reports as private, including text that is no address at all. */
  lemma PrivateExamples()
    ensures IsPrivateIP("10.0.0.5") && IsPrivateIP("192.168.1.1") && IsPrivateIP("172.16.0.1")
    ensures IsPrivateIP("172.31.255.255") && IsPrivateIP("127.0.0.1") && IsPrivateIP("::1")
    ensures IsPrivateIP("10.not-an-address")
  {
    assert StartsWith("10.0.0.5", "10.");
    assert StartsWith("192.168.1.1", "192.168.");
    assert Matches172Block("172.16.0.1") && Matches172Block("172.31.255.255");
    assert StartsWith("10.not-an-address", "10.");
  }

  /** Addresses the textual test reports as public, next to private ranges. */
  lemma PublicExamples()
    ensures !IsPrivateIP("100.1.1.1") && !IsPrivateIP("172.160.0.1") && !IsPrivateIP("172.32.0.1")
    ensures !IsPrivateIP("127.0.0.2") && !IsPrivateIP("")
  {
    var a, b, c, d := "100.1.1.1", "172.160.0.1", "172.32.0.1", "127.0.0.2";
    assert !StartsWith(a, "10.") by { assert a[..3][2] == '0'; }
    assert !StartsWith(a, "192.168.") && !Matches172Block(a) by { assert a[1] == '0'; }
    assert !Matches172Block(b) by { assert b[6] == '0'; }
    assert !StartsWith(b, "10.") && !StartsWith(b, "192.168.") by { assert b[1] == '7'; }
    assert !Matches172Block(c) by { assert c[5] == '2'; }
    assert !StartsWith(c, "10.") && !StartsWith(c, "192.168.") by { assert c[1] == '7'; }
    assert !StartsWith(d, "10.") && !StartsWith(d, "192.168.") && !Matches172Block(d) by { assert d[1] == '2'; }
    assert d != "127.0.0.1" by { assert d[8] == '2'; }
  }

  /** No text with a colon before its first dot starts with a dot-terminated prefix that has no colon. */
  lemma ColonBeforeDot(ip: string, k: nat, p: string, d: nat)
    requires k < |ip| && ip[k] == ':'
    requires forall j :: 0 <= j < k ==> ip[j] != '.'
    requires d < |p| && p[d] == '.'
    requires forall j :: 0 <= j < d ==> p[j] != ':'
    ensures !StartsWith(ip, p)
  {
    assert forall j :: 0 <= j < |p| && j < |ip| && StartsWith(ip, p) ==> ip[j] == ip[..|p|][j] == p[j];
  }

  /**
   * Colon-form text (a colon before any dot) is private only as the literal
   * `::1`: every other IPv6 address, IPv4-mapped ones included, is public.
   */
  lemma ColonFormPrivateOnlyLoopback(ip: string, k: nat)
    requires k < |ip| && ip[k] == ':'
    requires '.' !in ip[..k]
    ensures IsPrivateIP(ip) <==> ip == "::1"
  {
    assert forall j :: 0 <= j < k ==> ip[..k][j] == ip[j] != '.';
    ColonBeforeDot(ip, k, "10.", 2);
    ColonBeforeDot(ip, k, "192.168.", 3);
    ColonBeforeDot(ip, k, "172.", 3);
    ColonBeforeDot(ip, k, "127.0.0.1", 3);
    assert ip == "127.0.0.1" ==> StartsWith(ip, "127.0.0.1");
  }

  /** `::ffff:10.0.0.1` is public although it maps the private 10.0.0.1. */
  lemma MappedPrivateIsPublic()
    ensures !IsPrivateIP("::ffff:10.0.0.1")
  {
    ColonFormPrivateOnlyLoopback("::ffff:10.0.0.1", 0);
  }
}
