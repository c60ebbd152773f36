/** Destination entries: parsed, canonicalized and printed.
    Source: src/agent_containment/destination_egress.py. */
module Destinations {
  import opened Wrappers
  import opened Ordering
  import Decimal

  datatype Destination = Destination(host: string, port: nat)

  datatype ParseError =
    | EmptyEntry
    | HasWhitespace
    | BadBrackets
    | NotHostPort
    | PortNotDecimal
    | PortOutOfRange
    | BadHost

  /** What the parser takes from Python: the Unicode tables behind `str.isspace`, `str.isdecimal` with
      `int`, and `str.lower`, and `str(ipaddress.ip_address(text))`, absent when that raises. */
  datatype Python = Python(
    isSpace: char -> bool,
    digit: char -> Option<nat>,
    lower: string -> string,
    ip: string -> Option<string>)

  // ----- host names -----

  predicate IsAlnum(c: char) {
    'a' <= c <= 'z' || 'A' <= c <= 'Z' || '0' <= c <= '9'
  }

  predicate IsHostChar(c: char) {
    IsAlnum(c) || c == '-' || c == '.'
  }

  /** One label: up to 63 letters, digits and hyphens, no hyphen at either end. */
  predicate IsLabel(s: string) {
    && 1 <= |s| <= 63
    && IsAlnum(s[0]) && IsAlnum(s[|s| - 1])
    && forall i :: 0 <= i < |s| ==> IsAlnum(s[i]) || s[i] == '-'
  }

  /** The position of the first `c`, or the length. */
  function IndexOf(s: string, c: char): (k: nat)
    ensures k <= |s| && (k < |s| ==> s[k] == c) && forall i :: 0 <= i < k ==> s[i] != c
  {
    if s == "" || s[0] == c then 0 else 1 + IndexOf(s[1..], c)
  }

  /** Labels joined by dots. */
  predicate AreLabels(s: string) {
    var k := IndexOf(s, '.');
    if k == |s| then IsLabel(s) else IsLabel(s[..k]) && AreLabels(s[k + 1..])
  }

  /** The host name grammar of `_HOSTNAME_RE`. */
  predicate IsHostname(s: string) {
    |s| <= 253 && AreLabels(s)
  }

  function Joined(labels: seq<string>): string
    requires labels != []
  {
    if |labels| == 1 then labels[0] else labels[0] + "." + Joined(labels[1..])
  }

  /** 1 to 63 letters, digits and hyphens, with a hyphen neither first nor last. */
  predicate HostPart(s: string) {
    && 1 <= |s| <= 63 && s[0] != '-' && s[|s| - 1] != '-'
    && forall k :: 0 <= k < |s| ==>
         'a' <= s[k] <= 'z' || 'A' <= s[k] <= 'Z' || '0' <= s[k] <= '9' || s[k] == '-'
  }

  lemma LabelIsPart(s: string)
    ensures IsLabel(s) <==> HostPart(s)
  {
    assert HostPart(s) ==> forall k :: 0 <= k < |s| ==> IsAlnum(s[k]) || s[k] == '-';
  }

  ghost predicate JoinsParts(s: string, parts: seq<string>) {
    parts != [] && s == Joined(parts) && forall i :: 0 <= i < |parts| ==> HostPart(parts[i])
  }

  /** A host name is what one gets by joining one such part or more with single dots, up to 253 characters. */
  lemma {:induction false} HostnameMeans(s: string)
    ensures IsHostname(s) <==> |s| <= 253 && exists parts :: JoinsParts(s, parts)
  {
    if AreLabels(s) {
      var parts := LabelsOf(s);
      forall i | 0 <= i < |parts| ensures HostPart(parts[i]) {
        LabelIsPart(parts[i]);
      }
      assert JoinsParts(s, parts);
    }
    if parts :| JoinsParts(s, parts) {
      forall i | 0 <= i < |parts| ensures IsLabel(parts[i]) {
        LabelIsPart(parts[i]);
      }
      JoinedAreLabels(parts);
    }
  }

  lemma {:induction false} LabelsOf(s: string) returns (labels: seq<string>)
    requires AreLabels(s)
    ensures labels != [] && s == Joined(labels) && forall i :: 0 <= i < |labels| ==> IsLabel(labels[i])
  {
    var k := IndexOf(s, '.');
    if k == |s| {
      labels := [s];
    } else {
      var rest := LabelsOf(s[k + 1..]);
      labels := [s[..k]] + rest;
      assert labels[1..] == rest;
      assert s == s[..k] + "." + s[k + 1..];
    }
  }

  lemma {:induction false} JoinedAreLabels(labels: seq<string>)
    requires labels != [] && forall i :: 0 <= i < |labels| ==> IsLabel(labels[i])
    ensures AreLabels(Joined(labels))
  {
    var first := labels[0];
    assert '.' !in first;
    if |labels| == 1 {
      assert first[..|first|] == first;
      IndexIs(first, '.', |first|);
    } else {
      JoinedAreLabels(labels[1..]);
      LabelThenLabels(first, Joined(labels[1..]));
    }
  }

  lemma LabelThenLabels(first: string, rest: string)
    requires IsLabel(first) && '.' !in first && AreLabels(rest)
    ensures AreLabels(first + "." + rest)
  {
    var s := first + "." + rest;
    assert s[..|first|] == first && s[|first| + 1..] == rest;
    IndexIs(s, '.', |first|);
  }

  lemma {:induction false} LabelChars(s: string)
    requires AreLabels(s)
    ensures s != "" && s[|s| - 1] != '.' && forall i :: 0 <= i < |s| ==> IsHostChar(s[i])
  {
    var k := IndexOf(s, '.');
    if k < |s| {
      LabelChars(s[k + 1..]);
      assert s == s[..k] + [s[k]] + s[k + 1..];
      assert s[|s| - 1] == s[k + 1..][|s[k + 1..]| - 1];
    }
  }

  /** `str.rstrip(".")` */
  function StripDots(s: string): (r: string)
    ensures r == "" || r[|r| - 1] != '.'
    ensures |r| <= |s| && r == s[..|r|] && forall i :: |r| <= i < |s| ==> s[i] == '.'
  {
    if s != "" && s[|s| - 1] == '.' then StripDots(s[..|s| - 1]) else s
  }

  predicate HasUpper(s: string) {
    exists i :: 0 <= i < |s| && 'A' <= s[i] <= 'Z'
  }

  // ----- parsing -----

  predicate AllDecimal(py: Python, s: string) {
    s != "" && forall i :: 0 <= i < |s| ==> py.digit(s[i]).Some?
  }

  function NumberOf(py: Python, s: string): nat
    requires forall i :: 0 <= i < |s| ==> py.digit(s[i]).Some?
  {
    if s == "" then 0 else 10 * NumberOf(py, s[..|s| - 1]) + py.digit(s[|s| - 1]).value
  }

  /** Host text and port text. */
  function Split(value: string): Result<(string, string), ParseError>
    requires value != ""
  {
    if value[0] == '[' then
      var end := IndexOf(value, ']');
      if end + 1 >= |value| || value[end + 1] != ':' then Err(BadBrackets)
      else Ok((value[1..end], value[end + 2..]))
    else
      var colon := IndexOf(value, ':');
      if colon == |value| || IndexOf(value[colon + 1..], ':') != |value| - colon - 1 then Err(NotHostPort)
      else Ok((value[..colon], value[colon + 1..]))
  }

  function ParseHost(py: Python, text: string): Result<string, ParseError> {
    match py.ip(text)
    case Some(canonical) => Ok(canonical)
    case None =>
      var host := py.lower(StripDots(text));
      if IsHostname(host) then Ok(host) else Err(BadHost)
  }

  function ParseDestination(py: Python, value: string): Result<Destination, ParseError> {
    if value == "" then Err(EmptyEntry)
    else if exists i :: 0 <= i < |value| && py.isSpace(value[i]) then Err(HasWhitespace)
    else
      match Split(value)
      case Err(e) => Err(e)
      case Ok((hostText, portText)) =>
        if !AllDecimal(py, portText) then Err(PortNotDecimal)
        else
          var port := NumberOf(py, portText);
          if port < 1 || port > 65535 then Err(PortOutOfRange)
          else
            match ParseHost(py, hostText)
            case Err(e) => Err(e)
            case Ok(host) => Ok(Destination(host, port))
  }

  function Print(d: Destination): string {
    (if ':' in d.host then "[" + d.host + "]" else d.host) + ":" + Decimal.Numeral(d.port)
  }

  // ----- what is assumed of Python -----

  predicate Graphic(c: char) {
    IsHostChar(c) || c == ':' || c == '[' || c == ']'
  }

  ghost predicate Spaceless(py: Python, s: string) {
    forall i :: 0 <= i < |s| ==> !py.isSpace(s[i])
  }

  /** The ASCII characters of an entry are not white space, ASCII digits mean what they say, lowering
      leaves a host name without capitals and changes none that has none, and printing an IP address
      is idempotent, adds no colon, bracket or white space, and leaves alone what reads as a host
      name; an address printed without a colon reads as one. */
  ghost predicate Sane(py: Python) {
    && (forall c :: Graphic(c) ==> !py.isSpace(c))
    && (forall c :: Decimal.IsDigit(c) ==> py.digit(c) == Some(Decimal.DigitValue(c)))
    && (forall s {:trigger py.lower(s)} :: IsHostname(py.lower(s)) ==> !HasUpper(py.lower(s)))
    && (forall s {:trigger py.lower(s)} :: IsHostname(s) && !HasUpper(s) ==> py.lower(s) == s)
    && (forall s {:trigger py.ip(s)} :: py.ip(s).Some? ==> Printed(py, s, py.ip(s).value))
  }

  ghost predicate Printed(py: Python, s: string, c: string) {
    && py.ip(c) == Some(c)
    && (Spaceless(py, s) ==> Spaceless(py, c))
    && (']' !in s ==> ']' !in c)
    && (':' !in s ==> ':' !in c)
    && (':' !in c ==> IsHostname(c))
    && (IsHostname(s) ==> c == s)
  }

  // ----- the round trip -----

  lemma {:induction false} NumberOfNumeral(py: Python, n: nat)
    requires Sane(py)
    ensures AllDecimal(py, Decimal.Numeral(n)) && NumberOf(py, Decimal.Numeral(n)) == n
  {
    var s := Decimal.Numeral(n);
    if n < 10 {
      assert s[..|s| - 1] == "";
    } else {
      NumberOfNumeral(py, n / 10);
      assert s[..|s| - 1] == Decimal.Numeral(n / 10);
    }
  }

  /** Leading zeros of a port do not matter. */
  lemma {:induction false} LeadingZeros(py: Python, zeros: string, s: string)
    requires forall i :: 0 <= i < |zeros| ==> py.digit(zeros[i]) == Some(0)
    requires forall i :: 0 <= i < |s| ==> py.digit(s[i]).Some?
    ensures NumberOf(py, zeros + s) == NumberOf(py, s)
    decreases |s|, |zeros|
  {
    var all := zeros + s;
    if s != [] {
      assert all[..|all| - 1] == zeros + s[..|s| - 1];
      LeadingZeros(py, zeros, s[..|s| - 1]);
    } else if zeros != [] {
      assert all[..|all| - 1] == zeros[..|zeros| - 1] + s;
      LeadingZeros(py, zeros[..|zeros| - 1], s);
    }
  }

  lemma {:induction false} IndexIs(s: string, c: char, k: nat)
    requires k <= |s| && (k < |s| ==> s[k] == c) && c !in s[..k]
    ensures IndexOf(s, c) == k
  {
    forall i | 0 <= i < k ensures s[i] != c {
      assert s[i] == s[..k][i];
    }
  }

  /** A printed bracketed entry splits where it was joined. */
  lemma {:induction false} SplitBracketed(host: string, port: string)
    requires ']' !in host
    ensures Split("[" + host + "]" + ":" + port) == Ok((host, port))
  {
    var value := "[" + host + "]" + ":" + port;
    var end := |host| + 1;
    assert value[..end] == "[" + host;
    IndexIs(value, ']', end);
    assert value[1..end] == host && value[end + 2..] == port;
  }

  lemma {:induction false} SplitAtColon(host: string, port: string)
    requires ':' !in host && ':' !in port && (host + ":" + port)[0] != '['
    ensures Split(host + ":" + port) == Ok((host, port))
  {
    var value := host + ":" + port;
    assert value[..|host|] == host && value[|host| + 1..] == port;
    IndexIs(value, ':', |host|);
    assert port[..|port|] == port;
    IndexIs(port, ':', |port|);
  }

  lemma {:induction false} SplitJoins(value: string, host: string, port: string)
    requires value != "" && Split(value) == Ok((host, port))
    ensures value[0] == '[' ==> value == "[" + host + "]" + ":" + port && ']' !in host
    ensures value[0] != '[' ==> value == host + ":" + port && ':' !in host && ':' !in port
  {
    if value[0] == '[' {
      var end := IndexOf(value, ']');
      assert value == [value[0]] + value[1..end] + [value[end]] + [value[end + 1]] + value[end + 2..];
    } else {
      var colon := IndexOf(value, ':');
      assert value == value[..colon] + [value[colon]] + value[colon + 1..];
    }
  }

  /** An entry splits in just two ways: a host in brackets and a port, or a host and a port around the one
      colon there is. */
  lemma {:induction false} SplitMeans(value: string, host: string, port: string)
    requires value != ""
    ensures Split(value) == Ok((host, port)) <==>
              if value[0] == '[' then value == "[" + host + "]" + ":" + port && ']' !in host
              else value == host + ":" + port && ':' !in host && ':' !in port
  {
    if Split(value) == Ok((host, port)) {
      SplitJoins(value, host, port);
    }
    if value[0] == '[' && value == "[" + host + "]" + ":" + port && ']' !in host {
      SplitBracketed(host, port);
    }
    if value[0] != '[' && value == host + ":" + port && ':' !in host && ':' !in port {
      SplitAtColon(host, port);
    }
  }

  /** Trailing dots and capitals of a host name do not matter. */
  lemma {:induction false} HostNormalised(py: Python, text: string, dots: string)
    requires text == "" || text[|text| - 1] != '.'
    requires forall i :: 0 <= i < |dots| ==> dots[i] == '.'
    requires py.ip(text).None? && py.ip(text + dots).None?
    ensures ParseHost(py, text + dots) == ParseHost(py, text)
            == if IsHostname(py.lower(text)) then Ok(py.lower(text)) else Err(BadHost)
  {
    var all := text + dots;
    var r := StripDots(all);
    assert all[..|text|] == text;
    assert StripDots(text) == text;
  }

  /** The text is `[host]:port`, or `host:port` with no other colon. */
  predicate SplitsInto(value: string, host: string, port: string) {
    value != "" &&
    if value[0] == '[' then value == "[" + host + "]" + ":" + port && ']' !in host
    else value == host + ":" + port && ':' !in host && ':' !in port
  }

  /** The text denotes the host: it is an IP address that prints as it, or a host name that is it, up to
      trailing dots and case. */
  predicate NamesHost(py: Python, text: string, host: string) {
    if py.ip(text).Some? then py.ip(text).value == host
    else host == py.lower(StripDots(text)) && IsHostname(host)
  }

  /** `value`, split into `host` and `port`, denotes `d`. */
  predicate Denotes(py: Python, value: string, host: string, port: string, d: Destination) {
    SplitsInto(value, host, port) && NamesHost(py, host, d.host) && AllDecimal(py, port)
    && NumberOf(py, port) == d.port
  }

  lemma {:induction false} DenotedParses(py: Python, value: string, host: string, port: string, d: Destination)
    requires Denotes(py, value, host, port, d) && 1 <= d.port <= 65535
    requires forall i :: 0 <= i < |value| ==> !py.isSpace(value[i])
    ensures ParseDestination(py, value) == Ok(d)
  {
    SplitMeans(value, host, port);
  }

  /** Exactly which entries parse, canonical or not, and to what. */
  lemma {:induction false} ParsesIff(py: Python, value: string, d: Destination)
    ensures ParseDestination(py, value) == Ok(d) <==>
              && (forall i :: 0 <= i < |value| ==> !py.isSpace(value[i]))
              && 1 <= d.port <= 65535
              && exists host, port :: Denotes(py, value, host, port, d)
  {
    if ParseDestination(py, value) == Ok(d) {
      var (host, port) := Split(value).value;
      SplitMeans(value, host, port);
      assert Denotes(py, value, host, port, d);
    } else if host, port :| Denotes(py, value, host, port, d) && 1 <= d.port <= 65535
                            && forall i :: 0 <= i < |value| ==> !py.isSpace(value[i]) {
      DenotedParses(py, value, host, port, d);
    }
  }

  /** What a successful parse guarantees about the host. */
  ghost predicate Canonical(py: Python, host: string) {
    && Spaceless(py, host) && ']' !in host
    && (py.ip(host) == Some(host) || (py.ip(host).None? && IsHostname(host) && !HasUpper(host)))
    && (':' !in host ==> IsHostname(host))
  }

  lemma {:induction false} HostnameIsPlain(py: Python, host: string)
    requires Sane(py) && IsHostname(host)
    ensures Spaceless(py, host) && ']' !in host && ':' !in host && '[' !in host && host != ""
  {
    LabelChars(host);
  }

  lemma {:induction false} ParsedHostIsCanonical(py: Python, text: string)
    requires Sane(py) && Spaceless(py, text) && (']' !in text || ':' !in text) && ParseHost(py, text).Ok?
    ensures Canonical(py, ParseHost(py, text).value)
  {
    var host := ParseHost(py, text).value;
    if py.ip(text).Some? {
      assert Printed(py, text, host);
      if ':' !in host {
        HostnameIsPlain(py, host);
      }
    } else {
      HostnameIsPlain(py, host);
      if py.ip(host).Some? {
        assert Printed(py, host, py.ip(host).value);
      }
    }
  }

  lemma {:induction false} CanonicalHostIsFixed(py: Python, host: string)
    requires Sane(py) && Canonical(py, host)
    ensures ParseHost(py, host) == Ok(host)
  {
    if py.ip(host).None? {
      LabelChars(host);
    }
  }

  lemma {:induction false} SplitHost(value: string)
    requires value != "" && Split(value).Ok?
    ensures var host := Split(value).value.0;
            && (']' !in host || ':' !in host)
            && forall i :: 0 <= i < |host| ==> host[i] in value
  {
    if value[0] != '[' {
      var host := Split(value).value.0;
      assert ':' !in host;
    }
  }

  lemma {:induction false} ParsedIsCanonical(py: Python, value: string)
    requires Sane(py) && ParseDestination(py, value).Ok?
    ensures var d := ParseDestination(py, value).value; Canonical(py, d.host) && 1 <= d.port <= 65535
  {
    SplitHost(value);
    var host := Split(value).value.0;
    forall i | 0 <= i < |host| ensures !py.isSpace(host[i]) {
      assert host[i] in value;
    }
    ParsedHostIsCanonical(py, host);
  }

  lemma {:induction false} PrintedHasNoSpace(py: Python, d: Destination)
    requires Sane(py) && Spaceless(py, d.host)
    ensures Spaceless(py, Print(d))
  {
    var port := Decimal.Numeral(d.port);
    assert forall i :: 0 <= i < |port| ==> Decimal.IsDigit(port[i]) && Graphic(port[i]);
    assert Graphic('[') && Graphic(']') && Graphic(':');
  }

  /** Every printed canonical destination parses back to itself. */
  lemma {:induction false} PrintedParsesBack(py: Python, d: Destination)
    requires Sane(py) && Canonical(py, d.host) && 1 <= d.port <= 65535
    ensures ParseDestination(py, Print(d)) == Ok(d)
  {
    var port := Decimal.Numeral(d.port);
    NumberOfNumeral(py, d.port);
    CanonicalHostIsFixed(py, d.host);
    PrintedHasNoSpace(py, d);
    if ':' in d.host {
      SplitBracketed(d.host, port);
    } else {
      HostnameIsPlain(py, d.host);
      SplitAtColon(d.host, port);
    }
  }

  /** A parsed entry, printed, parses to the same destination. */
  lemma {:induction false} RoundTrip(py: Python, value: string)
    requires Sane(py) && ParseDestination(py, value).Ok?
    ensures ParseDestination(py, Print(ParseDestination(py, value).value)) == ParseDestination(py, value)
  {
    ParsedIsCanonical(py, value);
    PrintedParsesBack(py, ParseDestination(py, value).value);
  }

  // ----- lists of entries -----

  predicate BeforeDestination(a: Destination, b: Destination) {
    Before(a.host, b.host) || (a.host == b.host && a.port < b.port)
  }

  lemma {:induction false} DestinationsAreOrdered()
    ensures StrictOrder(BeforeDestination)
  {
    StringsAreOrdered();
    forall x: Destination, y: Destination, z: Destination | BeforeDestination(x, y) && BeforeDestination(y, z)
      ensures BeforeDestination(x, z)
    {
      if Before(x.host, y.host) && Before(y.host, z.host) {
        BeforeTransitive(x.host, y.host, z.host);
      }
    }
    forall x: Destination, y: Destination ensures BeforeDestination(x, y) || x == y || BeforeDestination(y, x) {
      BeforeTotal(x.host, y.host);
    }
    forall x: Destination ensures !BeforeDestination(x, x) {
      BeforeIrreflexive(x.host);
    }
  }

  ghost predicate AllParse(py: Python, values: seq<string>) {
    forall v :: v in values ==> ParseDestination(py, v).Ok?
  }

  /** The destinations a list of entries denotes. */
  ghost function Denoted(py: Python, values: seq<string>): set<Destination>
    requires AllParse(py, values)
  {
    set v | v in values :: ParseDestination(py, v).value
  }

  function Printing(ds: seq<Destination>): (r: seq<string>)
    ensures |r| == |ds| && forall i :: 0 <= i < |ds| ==> r[i] == Print(ds[i])
  {
    seq(|ds|, i requires 0 <= i < |ds| => Print(ds[i]))
  }

  ghost function InOrder(ds: set<Destination>): (r: seq<Destination>)
    ensures forall d :: d in r <==> d in ds
  {
    DestinationsAreOrdered();
    Sorted(ds, BeforeDestination)
  }

  ghost function CanonicalStrings(py: Python, values: seq<string>): seq<string>
    requires AllParse(py, values)
  {
    Printing(InOrder(Denoted(py, values)))
  }

  lemma {:induction false} DenotedPrintsBack(py: Python, values: seq<string>, d: Destination)
    requires Sane(py) && AllParse(py, values) && d in Denoted(py, values)
    ensures ParseDestination(py, Print(d)) == Ok(d)
  {
    var v :| v in values && ParseDestination(py, v).value == d;
    RoundTrip(py, v);
  }

  /** Strings printed from a set of destinations that print back denote that set. */
  lemma {:induction false} PrintedDenote(py: Python, ds: seq<Destination>, strings: seq<string>)
    requires strings == Printing(ds) && forall d :: d in ds ==> ParseDestination(py, Print(d)) == Ok(d)
    ensures AllParse(py, strings)
    ensures forall d :: d in Denoted(py, strings) <==> d in ds
  {
    forall i | 0 <= i < |strings| ensures ParseDestination(py, strings[i]) == Ok(ds[i]) {
      assert ds[i] in ds;
    }
    forall d | d in ds ensures d in Denoted(py, strings) {
      var i :| 0 <= i < |ds| && ds[i] == d;
      assert strings[i] in strings;
    }
  }

  /** The printed strings denote the same destinations again. */
  lemma {:induction false} StringsDenoteTheSame(py: Python, values: seq<string>)
    requires Sane(py) && AllParse(py, values)
    ensures AllParse(py, CanonicalStrings(py, values))
    ensures Denoted(py, CanonicalStrings(py, values)) == Denoted(py, values)
  {
    var ds := InOrder(Denoted(py, values));
    forall d | d in ds ensures ParseDestination(py, Print(d)) == Ok(d) {
      DenotedPrintsBack(py, values, d);
    }
    PrintedDenote(py, ds, CanonicalStrings(py, values));
  }

  /** Canonical strings are a fixed point. */
  lemma {:induction false} CanonicalStringsAreFixed(py: Python, values: seq<string>)
    requires Sane(py) && AllParse(py, values)
    ensures AllParse(py, CanonicalStrings(py, values))
    ensures CanonicalStrings(py, CanonicalStrings(py, values)) == CanonicalStrings(py, values)
  {
    StringsDenoteTheSame(py, values);
  }

  /** Two lists print alike exactly when they denote the same destinations. */
  lemma {:induction false} CanonicalStringsDecide(py: Python, a: seq<string>, b: seq<string>)
    requires Sane(py) && AllParse(py, a) && AllParse(py, b)
    ensures CanonicalStrings(py, a) == CanonicalStrings(py, b) <==> Denoted(py, a) == Denoted(py, b)
  {
    StringsDenoteTheSame(py, a);
    StringsDenoteTheSame(py, b);
  }

  /** Neither the order nor the repetition of the entries matters, not even to whether they parse. */
  lemma {:induction false} OrderAndRepetitionDoNotMatter(py: Python, a: seq<string>, b: seq<string>)
    requires forall v :: v in a <==> v in b
    ensures AllParse(py, a) <==> AllParse(py, b)
    ensures AllParse(py, a) ==> CanonicalStrings(py, a) == CanonicalStrings(py, b)
  {
    if AllParse(py, a) {
      assert Denoted(py, a) == Denoted(py, b);
    }
  }

  /** The first entry that does not parse is the one reported. */
  method CanonicalizeDestinations(py: Python, values: seq<string>) returns (r: Result<seq<Destination>, ParseError>)
    ensures r.Ok? <==> AllParse(py, values)
    ensures r.Ok? ==> r.value == InOrder(Denoted(py, values))
    // By host, and by port where the host is the same.
    ensures r.Ok? ==>
              && (forall d :: d in r.value <==> exists v :: v in values && ParseDestination(py, v) == Ok(d))
              && forall i, j :: 0 <= i < j < |r.value| ==>
                   || Before(r.value[i].host, r.value[j].host)
                   || (r.value[i].host == r.value[j].host && r.value[i].port < r.value[j].port)
    ensures r.Err? ==>
              exists i :: 0 <= i < |values| && ParseDestination(py, values[i]) == Err(r.error)
                && AllParse(py, values[..i])
  {
    var found: set<Destination> := {};
    for i := 0 to |values|
      invariant AllParse(py, values[..i]) && found == Denoted(py, values[..i])
    {
      assert values[..i + 1] == values[..i] + [values[i]];
      var parsed := ParseDestination(py, values[i]);
      if parsed.Err? {
        assert values[i] in values;
        return Err(parsed.error);
      }
      ghost var before := found;
      found := found + {parsed.value};
      forall d ensures d in found <==> d in Denoted(py, values[..i + 1]) {
        if d in before {
          var v :| v in values[..i] && ParseDestination(py, v).value == d;
          assert v in values[..i + 1];
        }
        if d == parsed.value {
          assert values[i] in values[..i + 1];
        }
      }
    }
    assert values[..|values|] == values;
    DestinationsAreOrdered();
    var sorted := Sort(found, BeforeDestination);
    forall d ensures d in sorted <==> exists v :: v in values && ParseDestination(py, v) == Ok(d) {
      assert d in sorted <==> d in Denoted(py, values);
    }
    return Ok(sorted);
  }

  method PrintAll(ds: seq<Destination>) returns (result: seq<string>)
    ensures result == Printing(ds)
    ensures forall i :: 0 <= i < |ds| ==>
              result[i] == (if ':' in ds[i].host then "[" + ds[i].host + "]" else ds[i].host) + ":"
                           + Decimal.Numeral(ds[i].port)
  {
    result := [];
    for i := 0 to |ds|
      invariant |result| == i && forall k :: 0 <= k < i ==> result[k] == Print(ds[k])
    {
      var host := ds[i].host;
      if ':' in host {
        host := "[" + host + "]";
      }
      result := result + [host + ":" + Decimal.Numeral(ds[i].port)];
    }
  }

  method CanonicalDestinationStrings(py: Python, values: seq<string>) returns (r: Result<seq<string>, ParseError>)
    ensures r.Ok? <==> AllParse(py, values)
    ensures r.Ok? ==> r.value == CanonicalStrings(py, values)
    // Only a host with a colon is put in brackets.
    ensures r.Ok? ==>
              var ds := InOrder(Denoted(py, values));
              && |r.value| == |ds|
              && forall i :: 0 <= i < |ds| ==>
                   r.value[i] == (if ':' in ds[i].host then "[" + ds[i].host + "]" else ds[i].host) + ":"
                                 + Decimal.Numeral(ds[i].port)
  {
    var canonical := CanonicalizeDestinations(py, values);
    if canonical.Err? {
      return Err(canonical.error);
    }
    var result := PrintAll(canonical.value);
    return Ok(result);
  }
}
