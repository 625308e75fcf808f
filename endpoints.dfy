/**
 * The app's server addresses: whether the configured host is an IP
 * literal, and the http/websocket addresses composed from it. An IP host is
 * reached over plain http/ws on fixed ports; a domain over https/wss on
 * fixed routes.
 *
 * The two patterns are matched against the whole host, as `SELF MATCHES`
 * does; each is written as the split of the host at its separator.
 */
module Endpoints {
  import opened Decimal

  // ------------------------------------------------------------- splitting

  /** The pieces of `s` between occurrences of `sep` (always at least one). */
  function Split(s: string, sep: char): (parts: seq<string>)
    ensures |parts| >= 1
    ensures forall i :: 0 <= i < |parts| ==> sep !in parts[i]
  {
    if |s| == 0 then [""]
    else
      var rest := Split(s[1..], sep);
      if s[0] == sep then [""] + rest
      else [[s[0]] + rest[0]] + rest[1..]
  }

  /** The pieces put back together with `sep` between them. */
  function Join(parts: seq<string>, sep: char): string
    requires |parts| >= 1
  {
    if |parts| == 1 then parts[0] else parts[0] + [sep] + Join(parts[1..], sep)
  }

  /** Splitting and joining are inverse: joining the pieces gives the string back. */
  lemma {:induction false} JoinSplit(s: string, sep: char)
    ensures Join(Split(s, sep), sep) == s
  {
    if |s| > 0 {
      JoinSplit(s[1..], sep);
      var rest := Split(s[1..], sep);
      if s[0] != sep {
        if |rest| > 1 {
          assert ([s[0]] + rest[0]) + [sep] + Join(rest[1..], sep) == [s[0]] + (rest[0] + [sep] + Join(rest[1..], sep));
        }
      } else {
        assert [""] + rest == [""] + rest;
      }
      assert s == [s[0]] + s[1..];
    }
  }

  /** ... and splitting the joined pieces gives the pieces back, when none contains `sep`. */
  lemma {:induction false} SplitJoin(parts: seq<string>, sep: char)
    requires |parts| >= 1
    requires forall i :: 0 <= i < |parts| ==> sep !in parts[i]
    ensures Split(Join(parts, sep), sep) == parts
  {
    if |parts| == 1 {
      SplitWithoutSep(parts[0], sep);
    } else {
      SplitJoin(parts[1..], sep);
      SplitAfterPiece(parts[0], Join(parts[1..], sep), sep);
      assert [parts[0]] + parts[1..] == parts;
    }
  }

  lemma {:induction false} SplitWithoutSep(a: string, sep: char)
    requires sep !in a
    ensures Split(a, sep) == [a]
  {
    if |a| > 0 {
      SplitWithoutSep(a[1..], sep);
      assert a == [a[0]] + a[1..];
    }
  }

  /** A piece without `sep` followed by `sep` splits off as the first piece. */
  lemma {:induction false} SplitAfterPiece(a: string, t: string, sep: char)
    requires sep !in a
    ensures Split(a + [sep] + t, sep) == [a] + Split(t, sep)
  {
    var s := a + [sep] + t;
    if |a| == 0 {
      assert s == [sep] + t;
      assert s[1..] == t;
    } else {
      SplitAfterPiece(a[1..], t, sep);
      assert s[0] == a[0] != sep;
      assert s[1..] == a[1..] + [sep] + t;
      var rest := Split(s[1..], sep);
      assert rest == [a[1..]] + Split(t, sep);
      assert Split(s, sep) == [[a[0]] + rest[0]] + rest[1..];
      assert [a[0]] + a[1..] == a;
      assert rest[1..] == Split(t, sep);
    }
  }

  // ------------------------------------------------------------------ IPv4

  predicate IsHexDigit(c: char) {
    IsDigit(c) || 'a' <= c <= 'f' || 'A' <= c <= 'F'
  }

  /** One octet of the IPv4 pattern: `25[0-5]`, `2[0-4][0-9]` or `[0-1]?[0-9]{1,2}`. */
  predicate IsOctet(s: string) {
    (|s| == 3 && s[0] == '2' && s[1] == '5' && '0' <= s[2] <= '5') ||
    (|s| == 3 && s[0] == '2' && '0' <= s[1] <= '4' && IsDigit(s[2])) ||
    (|s| == 3 && '0' <= s[0] <= '1' && IsDigit(s[1]) && IsDigit(s[2])) ||
    (1 <= |s| <= 2 && AllDigits(s))
  }

  /**
   * An octet is one to three digits worth at most 255; leading zeros are
   * allowed ("007", "00"), unlike the dec-octet of section 3.2.2 of RFC 3986.
   */
  lemma OctetIff(s: string)
    ensures IsOctet(s) <==> 1 <= |s| <= 3 && AllDigits(s) && DecimalValue(s) <= 255
    ensures IsOctet("007") && IsOctet("00") && !IsOctet("256")
  {
    if |s| == 3 && AllDigits(s) {
      ThreeDigitOctet(s);
    } else if |s| == 2 && AllDigits(s) {
      TwoDigitValue(s);
    } else if |s| == 1 && AllDigits(s) {
      assert s[..0] == [];
    }
    ThreeDigitOctet("256");
  }

  /** Three digits form an octet exactly when their value is at most 255. */
  lemma ThreeDigitOctet(s: string)
    requires |s| == 3 && AllDigits(s)
    ensures IsOctet(s) <==> DecimalValue(s) <= 255
  {
    ThreeDigitValue(s);
    assert IsDigit(s[0]) && IsDigit(s[1]) && IsDigit(s[2]);
  }

  lemma TwoDigitValue(s: string)
    requires |s| == 2 && AllDigits(s)
    ensures DecimalValue(s) == 10 * DigitValue(s[0]) + DigitValue(s[1])
  {
    var p := s[..1];
    assert p[..0] == [] && p[0] == s[0];
    assert DecimalValue(p) == DigitValue(s[0]);
  }

  lemma ThreeDigitValue(s: string)
    requires |s| == 3 && AllDigits(s)
    ensures DecimalValue(s) == 100 * DigitValue(s[0]) + 10 * DigitValue(s[1]) + DigitValue(s[2])
  {
    var p := s[..2];
    TwoDigitValue(p);
    assert p[0] == s[0] && p[1] == s[1];
  }

  /** The IPv4 pattern: four octets separated by dots. */
  predicate IsIPv4(s: string) {
    var parts := Split(s, '.');
    |parts| == 4 && forall i :: 0 <= i < 4 ==> IsOctet(parts[i])
  }

  /** `octet(\.octet){3}`: a host is IPv4 exactly when it is four octets joined by dots. */
  lemma IPv4Iff(s: string)
    ensures IsIPv4(s) <==> exists a, b, c, d ::
      IsOctet(a) && IsOctet(b) && IsOctet(c) && IsOctet(d) && s == a + "." + b + "." + c + "." + d
  {
    if IsIPv4(s) {
      var parts := Split(s, '.');
      JoinSplit(s, '.');
      assert parts == [parts[0], parts[1], parts[2], parts[3]];
      JoinFour(parts[0], parts[1], parts[2], parts[3], '.');
      assert s == parts[0] + "." + parts[1] + "." + parts[2] + "." + parts[3];
    }
    if exists a, b, c, d :: IsOctet(a) && IsOctet(b) && IsOctet(c) && IsOctet(d) && s == a + "." + b + "." + c + "." + d {
      var a, b, c, d :| IsOctet(a) && IsOctet(b) && IsOctet(c) && IsOctet(d) && s == a + "." + b + "." + c + "." + d;
      FourOctetsAreIPv4(a, b, c, d);
    }
  }

  lemma FourOctetsAreIPv4(a: string, b: string, c: string, d: string)
    requires IsOctet(a) && IsOctet(b) && IsOctet(c) && IsOctet(d)
    ensures IsIPv4(a + "." + b + "." + c + "." + d)
  {
    OctetHasNoDot(a);
    OctetHasNoDot(b);
    OctetHasNoDot(c);
    OctetHasNoDot(d);
    SplitJoin([a, b, c, d], '.');
    JoinFour(a, b, c, d, '.');
  }

  lemma JoinFour(a: string, b: string, c: string, d: string, sep: char)
    ensures Join([a, b, c, d], sep) == a + [sep] + b + [sep] + c + [sep] + d
  {
    assert [a, b, c, d][1..] == [b, c, d] && [b, c, d][1..] == [c, d] && [c, d][1..] == [d];
    assert Join([d], sep) == d;
    assert Join([c, d], sep) == c + [sep] + d;
    assert Join([b, c, d], sep) == b + [sep] + c + [sep] + d by {
      assert Join([b, c, d], sep) == b + [sep] + Join([c, d], sep);
    }
    assert Join([a, b, c, d], sep) == a + [sep] + (b + [sep] + c + [sep] + d);
  }

  lemma OctetHasNoDot(s: string)
    requires IsOctet(s)
    ensures '.' !in s
  {
  }

  // ------------------------------------------------------------------ IPv6

  predicate IsHexGroup(s: string) {
    1 <= |s| <= 4 && forall i :: 0 <= i < |s| ==> IsHexDigit(s[i])
  }

  /** The IPv6 pattern: eight groups of one to four hex digits separated by colons. */
  predicate IsIPv6(s: string) {
    var parts := Split(s, ':');
    |parts| == 8 && forall i :: 0 <= i < 8 ==> IsHexGroup(parts[i])
  }

  /** Only the full eight-group form is accepted: "::" compression and dotted tails are not. */
  lemma IPv6FullFormOnly(s: string)
    ensures IsIPv6(s) ==> |s| >= 15 && '.' !in s
    ensures IsIPv6(s) ==> forall i :: 0 <= i < |s| - 1 ==> !(s[i] == ':' && s[i + 1] == ':')
  {
    if IsIPv6(s) {
      var parts := Split(s, ':');
      JoinSplit(s, ':');
      FullFormJoin(parts);
    }
  }

  /** The joined hex groups: long enough, no dot, and no empty group between colons. */
  lemma {:induction false} FullFormJoin(parts: seq<string>)
    requires |parts| >= 1 && forall i :: 0 <= i < |parts| ==> IsHexGroup(parts[i])
    ensures var s := Join(parts, ':');
      |s| >= 2 * |parts| - 1 && '.' !in s && s[0] != ':' && s[|s| - 1] != ':' &&
      forall i :: 0 <= i < |s| - 1 ==> !(s[i] == ':' && s[i + 1] == ':')
  {
    if |parts| > 1 {
      FullFormJoin(parts[1..]);
      var t := Join(parts[1..], ':');
      var s := Join(parts, ':');
      var p := parts[0];
      assert s == p + [':'] + t;
      forall i | 0 <= i < |s| - 1
        ensures !(s[i] == ':' && s[i + 1] == ':')
      {
        if i < |p| {
          assert s[i] == p[i];
        } else if i == |p| {
          assert s[i + 1] == t[0];
        } else {
          assert s[i] == t[i - |p| - 1] && s[i + 1] == t[i - |p|];
        }
      }
    }
  }

  /** `isValidIPAddress`: either pattern. */
  predicate IsValidIPAddress(host: string) {
    IsIPv4(host) || IsIPv6(host)
  }

  // ------------------------------------------------------------- addresses

  const BUSSINESS_PORT := ":10008"
  const BUSSINESS_ROUTE := "/chat"
  const ADMIN_PORT := ":10008"
  const ADMIN_ROUTE := "/chat"
  const SDK_API_PORT := ":10002"
  const SDK_API_ROUTE := "/api"
  const SDK_WS_PORT := ":10001"
  const SDK_WS_ROUTE := "/msg_gateway"
  const DEFAULT_HOST := "your-server-ip"

  datatype Addresses = Addresses(appServer: string, admin: string, sdkAPI: string, sdkWS: string)

  /**
   * The addresses composed at launch: TLS and domain routing both mean the
   * host is not an IP literal.
   */
  function ServerAddresses(host: string): (a: Addresses) {
    var isIP := IsValidIPAddress(host);
    var enableTLS := !isIP;
    var enableDomain := !isIP;
    var httpScheme := if enableTLS then "https://" else "http://";
    var wsScheme := if enableTLS then "wss://" else "ws://";
    Addresses(
      httpScheme + host + (if !enableDomain then BUSSINESS_PORT else BUSSINESS_ROUTE),
      httpScheme + host + (if !enableDomain then ADMIN_PORT else ADMIN_ROUTE),
      httpScheme + host + (if !enableDomain then SDK_API_PORT else SDK_API_ROUTE),
      wsScheme + host + (if !enableDomain then SDK_WS_PORT else SDK_WS_ROUTE))
  }

  predicate HasPrefix(s: string, p: string) {
    |p| <= |s| && s[..|p|] == p
  }

  predicate HasSuffix(s: string, p: string) {
    |p| <= |s| && s[|s| - |p|..] == p
  }

  /**
   * Every address is secure exactly when the host is not an IP literal, and
   * then ends in a route rather than a port.
   */
  lemma AddressesSecureIffDomain(host: string)
    ensures var a := ServerAddresses(host);
      (HasPrefix(a.appServer, "https://") <==> !IsValidIPAddress(host)) &&
      (HasPrefix(a.admin, "https://") <==> !IsValidIPAddress(host)) &&
      (HasPrefix(a.sdkAPI, "https://") <==> !IsValidIPAddress(host)) &&
      (HasPrefix(a.sdkWS, "wss://") <==> !IsValidIPAddress(host))
    ensures var a := ServerAddresses(host);
      (HasSuffix(a.sdkAPI, SDK_API_PORT) <==> IsValidIPAddress(host)) &&
      (HasSuffix(a.sdkWS, SDK_WS_PORT) <==> IsValidIPAddress(host)) &&
      (HasSuffix(a.appServer, BUSSINESS_PORT) <==> IsValidIPAddress(host))
  {
    var a := ServerAddresses(host);
    if IsValidIPAddress(host) {
      assert a.appServer[..8][4] == ':';
      assert a.admin[..8][4] == ':';
      assert a.sdkAPI[..8][4] == ':';
      assert a.sdkWS[..6][2] == ':';
      assert a.sdkAPI[|a.sdkAPI| - |SDK_API_PORT|..] == SDK_API_PORT;
      assert a.sdkWS[|a.sdkWS| - |SDK_WS_PORT|..] == SDK_WS_PORT;
      assert a.appServer[|a.appServer| - |BUSSINESS_PORT|..] == BUSSINESS_PORT;
    } else {
      assert a.appServer[..8] == "https://";
      assert a.admin[..8] == "https://";
      assert a.sdkAPI[..8] == "https://";
      assert a.sdkWS[..6] == "wss://";
      SuffixLast(a.sdkAPI, SDK_API_PORT);
      SuffixLast(a.sdkWS, SDK_WS_PORT);
      SuffixLast(a.appServer, BUSSINESS_PORT);
      assert a.sdkAPI[|a.sdkAPI| - 1] == 'i';
      assert a.sdkWS[|a.sdkWS| - 1] == 'y';
      assert a.appServer[|a.appServer| - 1] == 't';
    }
  }

  lemma SuffixLast(s: string, p: string)
    requires |p| > 0
    ensures HasSuffix(s, p) ==> s[|s| - 1] == p[|p| - 1]
  {
    if HasSuffix(s, p) {
      assert s[|s| - |p|..][|p| - 1] == s[|s| - 1];
    }
  }

  lemma DefaultHostHasNoSeparator()
    ensures '.' !in DEFAULT_HOST && ':' !in DEFAULT_HOST
  {
  }

  /** The shipped placeholder host is a domain name, so the shipped addresses use TLS and routes. */
  lemma DefaultHostIsDomain()
    ensures !IsValidIPAddress(DEFAULT_HOST)
  {
    DefaultHostHasNoSeparator();
    SplitWithoutSep(DEFAULT_HOST, '.');
    SplitWithoutSep(DEFAULT_HOST, ':');
  }
}
