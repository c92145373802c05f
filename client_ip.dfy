/**
 * How the home route of app.js picks the address it looks up: the
 * `x-forwarded-for` header if it is a non-empty string, else the socket's
 * remote address; a loopback address is replaced by a public demo address,
 * and otherwise a comma-separated list is cut at its first comma.
 */
module ClientIp {
  import opened Base
  import opened PrivateIp

  /** The address substituted for loopback traffic during local development. */
  const LOCAL_FALLBACK: string := "8.8.8.8"

  /**
   * `req.headers["x-forwarded-for"] || req.socket.remoteAddress`: an absent
   * or empty header (both falsy) falls through to the socket address, which
   * may itself be absent.
   */
  function RawAddress(forwarded: Option<string>, remote: Option<string>): (raw: Option<string>)
    ensures raw.None? <==> remote.None? && (forwarded.None? || forwarded.value == "")
    ensures raw.Some? ==> raw == forwarded || raw == remote
    ensures raw.Some? && raw.value == "" ==> raw == remote
    ensures forwarded.Some? && forwarded.value != "" ==> raw == forwarded
  {
    if forwarded.Some? && forwarded.value != "" then forwarded else remote
  }

  /** `s.split(",")[0]`: the longest prefix of `s` that holds no comma. */
  function FirstField(s: string): (r: string)
    ensures ',' !in r
    ensures ',' !in s ==> r == s
    ensures ',' in s ==> StartsWith(s, r + ",")
  {
    if s == [] || s[0] == ',' then [] else [s[0]] + FirstField(s[1..])
  }

  /** Any comma-free text followed by a comma at the head of `s` is the first field of `s`. */
  lemma {:induction false} FirstFieldIsBeforeFirstComma(s: string, q: string)
    requires ',' !in q
    requires StartsWith(s, q + ",")
    ensures FirstField(s) == q
  {
    if q != [] {
      assert s[0] == q[0] != ',';
      assert StartsWith(s[1..], q[1..] + ",") by {
        assert s[1..][..|q| ] == s[1..|q| + 1] == (q + ",")[1..] == q[1..] + ",";
      }
      FirstFieldIsBeforeFirstComma(s[1..], q[1..]);
      assert FirstField(s) == [q[0]] + q[1..] == q;
    }
  }

  /** `ip === "::1" || ip.startsWith("::ffff:127")` */
  predicate IsLoopback(ip: string)
    ensures IsLoopback(ip) ==> ip == "::1" || !IsPrivateIP(ip)
  {
    if ip == "::1" then true
    else if StartsWith(ip, "::ffff:127") then
      ColonFormPrivateOnlyLoopback(ip, 0);
      true
    else false
  }

  /** A decimal octet is at most three digits long. */
  lemma OctetDigits(n: Octet)
    ensures |Decimal(n)| <= 3
  {
    if n >= 10 {
      TwoDigitDecimal(n / 10);
    }
  }

  /**
   * On IPv4-mapped text `::ffff:a.b.c.d` the loopback test holds exactly for
   * the block 127/8.
   */
  lemma MappedLoopbackBlock(addr: IPv4)
    ensures IsLoopback("::ffff:" + DottedQuad(addr)) <==> addr.a == 127
  {
    var q := DottedQuad(addr);
    var s := "::ffff:" + q;
    var head := Decimal(addr.a);
    var rest := Dotted(Decimal(addr.b), Dotted(Decimal(addr.c), Decimal(addr.d)));
    DecimalLiterals();
    DecimalHasNoDot(addr.a);
    OctetDigits(addr.a);
    assert s != "::1" by { assert |s| > 3; }
    assert q == Dotted(head, rest);
    assert StartsWith(s, "::ffff:127") <==> StartsWith(q, "127") by {
      assert StartsWith(s, "::ffff:127") <==> |s| >= 10 && s[7..10] == "127";
      assert |q| >= 3 ==> s[7..10] == q[..3];
    }
    if StartsWith(q, "127") {
      assert forall j :: 0 <= j < 3 ==> q[j] != '.';
      assert q[|head|] == '.';
      assert head == q[..3] == "127";
      DecimalInjective(addr.a, 127);
    }
    if addr.a == 127 {
      assert q[..3] == head;
    }
  }

  /**
   * The address the home route looks up. The loopback test runs on the raw
   * string, before any split.
   */
  function ResolveIp(raw: string): (ip: string)
    ensures IsLoopback(raw) ==> ip == LOCAL_FALLBACK
    ensures !IsLoopback(raw) ==> ',' !in ip && (ip == raw || StartsWith(raw, ip + ","))
  {
    if IsLoopback(raw) then LOCAL_FALLBACK
    else if ',' in raw then FirstField(raw)
    else raw
  }

  /**
   * The two postconditions of ResolveIp determine its result: off loopback it
   * is the whole string when there is no comma and exactly the text before
   * the first comma otherwise.
   */
  lemma ResolveIpUnique(raw: string, q: string)
    requires !IsLoopback(raw)
    requires ',' !in q && (q == raw || StartsWith(raw, q + ","))
    ensures ResolveIp(raw) == q
  {
    if q != raw {
      FirstFieldIsBeforeFirstComma(raw, q);
      assert raw[|q|] == ',';
    }
  }

  /**
   * Because the loopback check comes before the split, a forwarded list that
   * starts with `::1` resolves to `::1` itself, which the classifier then
   * reports as private; only the bare `::1` becomes the demo address.
   */
  lemma LoopbackListIsNotSubstituted(rest: string)
    ensures ResolveIp("::1," + rest) == "::1"
    ensures IsPrivateIP(ResolveIp("::1," + rest))
    ensures ResolveIp("::1") == LOCAL_FALLBACK && !IsPrivateIP(LOCAL_FALLBACK)
  {
    var raw := "::1," + rest;
    assert raw[2] == '1' && "::ffff:127"[2] == 'f';
    assert !IsLoopback(raw) by {
      assert raw != "::1" by { assert |raw| > 3; }
    }
    assert StartsWith(raw, "::1" + ",");
    ResolveIpUnique(raw, "::1");
    assert DottedQuad(IPv4(8, 8, 8, 8)) == LOCAL_FALLBACK;
    DottedQuadClassification(IPv4(8, 8, 8, 8));
  }

  /** A forwarded list resolves to its first entry. */
  lemma ResolveForwardedList()
    ensures ResolveIp("203.0.113.5, 10.0.0.1") == "203.0.113.5"
  {
    var listed := "203.0.113.5, 10.0.0.1";
    assert !IsLoopback(listed) by { assert listed[0] == '2'; }
    assert StartsWith(listed, "203.0.113.5" + ",") by {
      assert listed[..12] == "203.0.113.5" + ",";
    }
    ResolveIpUnique(listed, "203.0.113.5");
  }

  /** An IPv4-mapped loopback becomes the demo address; any other mapped address is kept whole. */
  lemma ResolveMappedAddresses()
    ensures ResolveIp("::ffff:127.0.0.1") == LOCAL_FALLBACK
    ensures ResolveIp("::ffff:198.51.100.7") == "::ffff:198.51.100.7"
  {
    var mapped := "::ffff:198.51.100.7";
    assert !IsLoopback(mapped) by { assert mapped[8] == '9'; }
    assert ',' !in mapped;
  }
}
