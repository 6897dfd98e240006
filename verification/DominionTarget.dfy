/** Parsing and printing service targets: app/service:port, with or without the scheme. */
module DominionTarget {
  import opened Wrappers
  import opened Texts
  import opened EndpointFilter

  const SCHEME_PREFIX: string := "dominion:///"
  const STATEFUL_PREFIX: string := "dominion-stateful:///"
  const MAX_PORT: int := 65535
  const MAX_INT64: int := 0x7FFF_FFFF_FFFF_FFFF

  datatype Target = Target(app: string, service: string, port: PortSelector)

  datatype TargetError = NotATarget | UnknownScheme | PortInvalid | PortRequired | PortOutOfRange

  // ------------------------------------------------------------------ the pieces

  predicate HasPrefix(s: string, prefix: string) {
    |prefix| <= |s| && s[..|prefix|] == prefix
  }

  predicate AllDigits(s: string) {
    s != "" && forall i :: 0 <= i < |s| ==> IsDigit(s[i])
  }

  /** strconv.Atoi: an optional sign and digits within 64 bits. */
  function Atoi(s: string): Option<int> {
    var signed := s != "" && (s[0] == '+' || s[0] == '-');
    var digits := if signed then s[1..] else s;
    if !AllDigits(digits) then None
    else
      var n: int := if signed && s[0] == '-' then -(Numeral(digits) as int) else Numeral(digits);
      if -MAX_INT64 - 1 <= n <= MAX_INT64 then Some(n) else None
  }

  predicate DnsLabel(s: string) {
    && s != "" && 'a' <= s[0] <= 'z'
    && forall i :: 0 <= i < |s| ==> 'a' <= s[i] <= 'z' || '0' <= s[i] <= '9' || s[i] == '-'
  }

  /** The selector as a target writes it; port 0 is written as nothing. */
  function PortText(p: PortSelector): string {
    if p.numeric > 0 then Decimal(p.numeric) else p.name
  }

  function ParsePort(portPart: string, hasPort: bool): Result<PortSelector, TargetError> {
    if portPart == "" then Err(if hasPort then PortInvalid else PortRequired)
    else
      var n := Atoi(portPart);
      if n.Some? then
        if n.value < 0 || n.value > MAX_PORT then Err(PortOutOfRange) else Ok(PortSelector(n.value, ""))
      else if DnsLabel(portPart) then Ok(PortSelector(0, portPart))
      else Err(PortInvalid)
  }

  /** app/service: two segments, neither empty. */
  function ParsePath(path: string): Result<(string, string), TargetError> {
    var slash := Find(path, '/');
    if slash == |path| then Err(NotATarget) else ParseSegments(path[..slash], path[slash + 1..])
  }

  function ParseSegments(first: string, second: string): Result<(string, string), TargetError> {
    var app, service := Trim(first, GoTrim), Trim(second, GoTrim);
    if app == "" || service == "" || '/' in service then Err(NotATarget) else Ok((app, service))
  }

  function PathPart(s: string): string {
    s[..Find(s, ':')]
  }

  function PortPart(s: string): string {
    if Find(s, ':') < |s| then s[Find(s, ':') + 1..] else ""
  }

  /** app/service:port without a scheme. */
  function ParseBare(s: string): Result<Target, TargetError> {
    var path := ParsePath(PathPart(s));
    if path.Err? then Err(path.error)
    else
      var port := ParsePort(Trim(PortPart(s), GoTrim), Find(s, ':') < |s|);
      if port.Err? then Err(port.error) else Ok(Target(path.value.0, path.value.1, port.value))
  }

  function ParseTarget(raw: string): Result<Target, TargetError> {
    var trimmed := Trim(raw, GoTrim);
    if trimmed == "" then Err(NotATarget)
    else if HasPrefix(trimmed, SCHEME_PREFIX) then ParseBare(trimmed[|SCHEME_PREFIX|..])
    else if Includes(trimmed, "://") then Err(UnknownScheme)
    else ParseBare(trimmed)
  }

  function Print(t: Target): string {
    t.app + "/" + t.service + ":" + PortText(t.port)
  }

  lemma ItoaEnds(n: int)
    ensures Itoa(n) != "" && !Strips(GoTrim, Itoa(n)[|Itoa(n)| - 1])
  {
    var d := Decimal(if n < 0 then -n else n);
    assert IsDigit(d[|d| - 1]) && Itoa(n)[|Itoa(n)| - 1] == d[|d| - 1];
  }

  /** What follows the scheme when an instance is named. */
  function InstanceText(t: Target, instance: int): (s: string)
    ensures s != "" && !Strips(GoTrim, s[|s| - 1])
  {
    ItoaEnds(instance);
    var s := Print(t) + "?instance=" + Itoa(instance);
    assert s[|s| - 1] == Itoa(instance)[|Itoa(instance)| - 1];
    s
  }

  /** The URI of a raw target, for one instance of a stateful service when `instance` is given. */
  function URI(raw: string, instance: Option<int>): string {
    var t := ParseTarget(raw);
    if t.Err? then raw
    else if instance.Some? then STATEFUL_PREFIX + InstanceText(t.value, instance.value)
    else SCHEME_PREFIX + Print(t.value)
  }

  // ------------------------------------------------------------ what parsing gives

  /** Trimmed, not empty, and without the separators. */
  predicate Segment(s: string) {
    s != "" && !Strips(GoTrim, s[0]) && !Strips(GoTrim, s[|s| - 1]) && '/' !in s && ':' !in s
  }

  predicate ParsedPort(p: PortSelector) {
    || (p.name == "" && 0 <= p.numeric <= MAX_PORT)
    || (p.numeric == 0 && DnsLabel(p.name) && Atoi(p.name).None?)
  }

  predicate Parsed(t: Target) {
    Segment(t.app) && Segment(t.service) && ParsedPort(t.port)
  }

  lemma PrefixKeepsOut(s: string, j: nat, c: char)
    requires j <= |s| && c !in s
    ensures c !in s[..j]
  {
  }

  lemma SuffixKeepsOut(s: string, i: nat, c: char)
    requires i <= |s| && c !in s
    ensures c !in s[i..]
  {
  }

  lemma TrimKeepsOut(s: string, c: char)
    requires c !in s
    ensures c !in Trim(s, GoTrim)
  {
    var first, t := Lead(s, GoTrim, 0), Trim(s, GoTrim);
    forall i | 0 <= i < |t| ensures t[i] != c {
      assert t[i] == s[first + i];
    }
  }

  lemma TrimmedSegment(part: string)
    requires ':' !in part && Trim(part, GoTrim) != "" && '/' !in Trim(part, GoTrim)
    ensures Segment(Trim(part, GoTrim))
  {
    TrimKeepsOut(part, ':');
  }

  lemma {:induction false} ParsedPath(path: string, slash: nat)
    requires slash == Find(path, '/') < |path| && ':' !in path
    requires Trim(path[..slash], GoTrim) != ""
    requires Trim(path[slash + 1..], GoTrim) != "" && '/' !in Trim(path[slash + 1..], GoTrim)
    ensures Segment(Trim(path[..slash], GoTrim)) && Segment(Trim(path[slash + 1..], GoTrim))
  {
    FindFirst(path, '/');
    PrefixKeepsOut(path, slash, ':');
    SuffixKeepsOut(path, slash + 1, ':');
    TrimKeepsOut(path[..slash], '/');
    TrimmedSegment(path[..slash]);
    TrimmedSegment(path[slash + 1..]);
  }

  lemma PortIsParsed(portPart: string, hasPort: bool)
    requires ParsePort(portPart, hasPort).Ok?
    ensures ParsedPort(ParsePort(portPart, hasPort).value)
  {
  }

  /** A port is accepted as a number from 0 to 65535 or, when it is no number, as a DNS label; nothing else is. */
  lemma PortAcceptedIff(portPart: string, hasPort: bool)
    ensures ParsePort(portPart, hasPort).Ok? <==>
              && portPart != ""
              && if Atoi(portPart).Some? then 0 <= Atoi(portPart).value <= 65535 else DnsLabel(portPart)
    ensures ParsePort(portPart, hasPort).Ok? ==>
              ParsePort(portPart, hasPort).value ==
              if Atoi(portPart).Some? then PortSelector(Atoi(portPart).value, "") else PortSelector(0, portPart)
  {
  }

  lemma ParsedBare(s: string)
    requires ParseBare(s).Ok?
    ensures Parsed(ParseBare(s).value)
  {
    FindFirst(s, ':');
    ParsedPath(PathPart(s), Find(PathPart(s), '/'));
    PortIsParsed(Trim(PortPart(s), GoTrim), Find(s, ':') < |s|);
  }

  lemma ParsedTarget(raw: string)
    requires ParseTarget(raw).Ok?
    ensures Parsed(ParseTarget(raw).value)
  {
    var trimmed := Trim(raw, GoTrim);
    if HasPrefix(trimmed, SCHEME_PREFIX) {
      ParsedBare(trimmed[|SCHEME_PREFIX|..]);
    } else {
      ParsedBare(trimmed);
    }
  }

  // ------------------------------------------------------------- printing, parsing

  lemma AtoiOfDecimal(n: nat)
    requires n <= MAX_PORT
    ensures Atoi(Decimal(n)) == Some(n)
  {
    NumeralOfDecimal(n);
    assert IsDigit(Decimal(n)[0]);
  }

  lemma PortRoundTrip(p: PortSelector)
    requires ParsedPort(p)
    ensures ParsePort(PortText(p), true) == if p.IsEmpty() then Err(PortInvalid) else Ok(p)
    ensures Trim(PortText(p), GoTrim) == PortText(p)
  {
    if p.numeric > 0 {
      AtoiOfDecimal(p.numeric);
      var d := Decimal(p.numeric);
      assert IsDigit(d[0]) && IsDigit(d[|d| - 1]);
      TrimKeeps(d, GoTrim);
    } else {
      TrimKeeps(p.name, GoTrim);
    }
  }

  lemma PathRoundTrip(app: string, service: string)
    requires Segment(app) && Segment(service)
    ensures ParsePath(app + "/" + service) == Ok((app, service))
    ensures ':' !in app + "/" + service
  {
    var path := app + "/" + service;
    PathParts(app, service);
    FindUnique(path, '/', |app|);
    TrimKeeps(app, GoTrim);
    TrimKeeps(service, GoTrim);
    CutPath(path, app, service);
    SegmentsParse(app, service);
  }

  lemma PathParts(app: string, service: string)
    ensures var path := app + "/" + service;
            && |path| == |app| + 1 + |service| && path[..|app|] == app && path[|app|] == '/'
            && path[|app| + 1..] == service
            && (forall i :: 0 <= i < |app| ==> path[i] == app[i])
  {
  }

  lemma CutPath(path: string, app: string, service: string)
    requires Find(path, '/') == |app| < |path| && path[..|app|] == app && path[|app| + 1..] == service
    ensures ParsePath(path) == ParseSegments(app, service)
  {
  }

  lemma SegmentsParse(app: string, service: string)
    requires Trim(app, GoTrim) == app && Trim(service, GoTrim) == service
    requires app != "" && service != "" && '/' !in service
    ensures ParseSegments(app, service) == Ok((app, service))
  {
  }

  lemma CutsAtColon(path: string, port: string)
    requires ':' !in path
    ensures var s := path + ":" + port;
            Find(s, ':') == |path| && PathPart(s) == path && PortPart(s) == port
  {
    var s := path + ":" + port;
    assert s[..|path|] == path && s[|path| + 1..] == port;
    FindUnique(s, ':', |path|);
  }

  lemma {:induction false} BareOf(s: string, app: string, service: string, port: string)
    requires ParsePath(PathPart(s)) == Ok((app, service)) && PortPart(s) == port && Find(s, ':') < |s|
    requires Trim(port, GoTrim) == port
    ensures ParseBare(s) == var p := ParsePort(port, true);
                            if p.Err? then Err(p.error) else Ok(Target(app, service, p.value))
  {
    assert Trim(PortPart(s), GoTrim) == port;
  }

  /** A printed target parses back, unless its port is 0, which prints as no port. */
  lemma {:induction false} BareRoundTrip(t: Target)
    requires Parsed(t)
    ensures ParseBare(Print(t)) == if t.port.IsEmpty() then Err(PortInvalid) else Ok(t)
  {
    var path, port := t.app + "/" + t.service, PortText(t.port);
    PathRoundTrip(t.app, t.service);
    CutsAtColon(path, port);
    PortRoundTrip(t.port);
    BareOf(path + ":" + port, t.app, t.service, port);
    assert Print(t) == path + ":" + port;
  }

  /** A text between two characters that are not white space is not trimmed. */
  lemma Untrimmed(prefix: string, rest: string)
    requires prefix != "" && rest != "" && !Strips(GoTrim, prefix[0]) && !Strips(GoTrim, rest[|rest| - 1])
    ensures Trim(prefix + rest, GoTrim) == prefix + rest
    ensures HasPrefix(prefix + rest, prefix) && (prefix + rest)[|prefix|..] == rest
  {
    var s := prefix + rest;
    assert s[0] == prefix[0] && s[|s| - 1] == rest[|rest| - 1];
    TrimKeeps(s, GoTrim);
  }

  lemma SchemeRoundTrip(t: Target)
    requires Parsed(t)
    ensures ParseTarget(SCHEME_PREFIX + Print(t)) == if t.port.IsEmpty() then Err(PortInvalid) else Ok(t)
  {
    LastOfPrint(t);
    Untrimmed(SCHEME_PREFIX, Print(t));
    BareRoundTrip(t);
  }

  lemma {:induction false} NoSchemeInside(path: string, port: string)
    requires ':' !in path && '/' !in port
    ensures !Includes(path + ":" + port, "://")
  {
    var s := path + ":" + port;
    assert forall i :: 0 <= i < |path| ==> s[i] == path[i] && path[i] in path;
    assert forall i :: |path| < i < |s| ==> s[i] == port[i - |path| - 1] && port[i - |path| - 1] in port;
    forall i: nat ensures !IncludesAt(s, "://", i) {
      SchemeAt(s, i);
    }
  }

  lemma SchemeAt(s: string, i: nat)
    ensures IncludesAt(s, "://", i) ==> i + 3 <= |s| && s[i] == ':' && s[i + 1] == '/'
  {
    if IncludesAt(s, "://", i) {
      assert s[i..i + 3][0] == ':' && s[i..i + 3][1] == '/';
    }
  }

  lemma PrefixHasScheme(s: string)
    requires HasPrefix(s, SCHEME_PREFIX)
    ensures Includes(s, "://")
  {
    assert s[8..11] == s[..|SCHEME_PREFIX|][8..11] == "://";
    assert IncludesAt(s, "://", 8);
  }

  /** A trimmed text without a scheme is parsed as it stands. */
  lemma BareIsParsed(s: string)
    requires s != "" && Trim(s, GoTrim) == s && !Includes(s, "://")
    ensures ParseTarget(s) == ParseBare(s)
  {
    if HasPrefix(s, SCHEME_PREFIX) {
      PrefixHasScheme(s);
    }
  }

  lemma PortHasNoSlash(p: PortSelector)
    requires ParsedPort(p)
    ensures '/' !in PortText(p)
  {
    if p.numeric > 0 {
      NumeralOfDecimal(p.numeric);
    }
  }

  /** The scheme is optional: a target printed without it parses the same. */
  lemma SchemeIsOptional(t: Target)
    requires Parsed(t)
    ensures ParseTarget(Print(t)) == ParseTarget(SCHEME_PREFIX + Print(t))
    ensures ParseTarget(Print(t)) == if t.port.IsEmpty() then Err(PortInvalid) else Ok(t)
  {
    SchemeRoundTrip(t);
    BareRoundTrip(t);
    PrintIsTrimmed(t);
    PathRoundTrip(t.app, t.service);
    PortHasNoSlash(t.port);
    NoSchemeInside(t.app + "/" + t.service, PortText(t.port));
    BareIsParsed(Print(t));
  }

  lemma PrintIsTrimmed(t: Target)
    requires Parsed(t)
    ensures Print(t) != "" && Trim(Print(t), GoTrim) == Print(t)
    ensures Print(t) == t.app + "/" + t.service + ":" + PortText(t.port)
  {
    LastOfPrint(t);
    assert Print(t)[0] == t.app[0];
    TrimKeeps(Print(t), GoTrim);
  }

  lemma BlankHasNoMark(s: string)
    requires Blank(s, GoTrim)
    ensures '/' !in s && ':' !in s
  {
  }

  /** The target `t` written with white space around its segments and before its port. */
  function Spaced(t: Target, gaps: (string, string, string, string, string)): string {
    gaps.0 + t.app + gaps.1 + "/" + (gaps.2 + t.service + gaps.3) + ":" + (gaps.4 + PortText(t.port))
  }

  predicate BlankGaps(gaps: (string, string, string, string, string)) {
    && Blank(gaps.0, GoTrim) && Blank(gaps.1, GoTrim) && Blank(gaps.2, GoTrim) && Blank(gaps.3, GoTrim)
    && Blank(gaps.4, GoTrim)
  }

  lemma {:induction false} SpacedPath(first: string, app: string, second: string, service: string)
    requires Trim(first, GoTrim) == app && Trim(second, GoTrim) == service && app != "" && service != ""
    requires '/' !in first && '/' !in second
    ensures ParsePath(first + "/" + second) == Ok((app, service))
  {
    PathParts(first, second);
    FindUnique(first + "/" + second, '/', |first|);
    CutPath(first + "/" + second, first, second);
    TrimKeepsOut(second, '/');
    SegmentsTrimmed(first, app, second, service);
  }

  lemma SegmentsTrimmed(first: string, app: string, second: string, service: string)
    requires Trim(first, GoTrim) == app && Trim(second, GoTrim) == service && app != "" && service != ""
    requires '/' !in service
    ensures ParseSegments(first, second) == Ok((app, service))
  {
  }

  lemma PaddedSegment(before: string, s: string, after: string)
    requires Blank(before, GoTrim) && Blank(after, GoTrim) && Segment(s)
    ensures Trim(before + s + after, GoTrim) == s
    ensures '/' !in before + s + after && ':' !in before + s + after
  {
    TrimPadded(before, s, after, GoTrim);
    BlankHasNoMark(before);
    BlankHasNoMark(after);
  }

  lemma PaddedPort(before: string, p: PortSelector)
    requires Blank(before, GoTrim) && ParsedPort(p)
    ensures Trim(before + PortText(p), GoTrim) == PortText(p)
  {
    PortRoundTrip(p);
    var port := PortText(p);
    if port == "" {
      assert before + port == before;
      TrimsToNothing(before, GoTrim);
    } else {
      PortEnds(p);
      TrimPadded(before, port, "", GoTrim);
      assert before + port + "" == before + port;
    }
  }

  lemma PortEnds(p: PortSelector)
    requires ParsedPort(p) && PortText(p) != ""
    ensures !Strips(GoTrim, PortText(p)[0]) && !Strips(GoTrim, PortText(p)[|PortText(p)| - 1])
  {
    if p.numeric > 0 {
      var d := Decimal(p.numeric);
      assert IsDigit(d[0]) && IsDigit(d[|d| - 1]);
    }
  }

  /** White space around the segments and the port is ignored, with the scheme in front. */
  lemma {:induction false} SpacesAreIgnored(t: Target, gaps: (string, string, string, string, string))
    requires Parsed(t) && BlankGaps(gaps)
    ensures ParseBare(Spaced(t, gaps)) == ParseBare(Print(t))
    ensures ParseBare(Spaced(t, gaps)) == if t.port.IsEmpty() then Err(PortInvalid) else Ok(t)
  {
    var first, second := gaps.0 + t.app + gaps.1, gaps.2 + t.service + gaps.3;
    var port := gaps.4 + PortText(t.port);
    PaddedSegment(gaps.0, t.app, gaps.1);
    PaddedSegment(gaps.2, t.service, gaps.3);
    PaddedPort(gaps.4, t.port);
    SpacedPath(first, t.app, second, t.service);
    NoColon(first, second);
    CutsAtColon(first + "/" + second, port);
    PortRoundTrip(t.port);
    BareParts(first + "/" + second + ":" + port, t.app, t.service, port, t.port);
    BareRoundTrip(t);
  }

  lemma NoColon(first: string, second: string)
    requires ':' !in first && ':' !in second
    ensures ':' !in first + "/" + second
  {
  }

  lemma {:induction false} BareParts(s: string, app: string, service: string, port: string, p: PortSelector)
    requires ParsePath(PathPart(s)) == Ok((app, service)) && PortPart(s) == port && Find(s, ':') < |s|
    requires Trim(port, GoTrim) == PortText(p)
    requires ParsePort(PortText(p), true) == if p.IsEmpty() then Err(PortInvalid) else Ok(p)
    ensures ParseBare(s) == if p.IsEmpty() then Err(PortInvalid) else Ok(Target(app, service, p))
  {
    assert Trim(PortPart(s), GoTrim) == PortText(p);
  }

  /** Any other scheme is refused. */
  lemma OtherSchemesAreRefused(raw: string)
    requires Includes(Trim(raw, GoTrim), "://") && !HasPrefix(Trim(raw, GoTrim), SCHEME_PREFIX)
    ensures ParseTarget(raw) == Err(UnknownScheme)
  {
    assert Trim(raw, GoTrim) != "";
  }

  lemma LastOfPrint(t: Target)
    requires Parsed(t)
    ensures Print(t) != "" && !Strips(GoTrim, Print(t)[|Print(t)| - 1])
  {
    var port := PortText(t.port);
    if t.port.numeric > 0 {
      assert IsDigit(port[|port| - 1]);
    }
    assert port != "" ==> Print(t)[|Print(t)| - 1] == port[|port| - 1];
  }

  /** The URI of an accepted string is its printed target, which parses back unless its port is 0. */
  lemma AcceptedUri(raw: string, t: Target)
    requires ParseTarget(raw) == Ok(t)
    ensures URI(raw, None) == SCHEME_PREFIX + Print(t)
    ensures ParseTarget(SCHEME_PREFIX + Print(t)) == if t.port.IsEmpty() then Err(PortInvalid) else Ok(t)
  {
    ParsedTarget(raw);
    SchemeRoundTrip(t);
  }

  lemma RejectedUri(raw: string, instance: Option<int>)
    requires ParseTarget(raw).Err?
    ensures URI(raw, instance) == raw
  {
  }

  /** The URI of any string parses to what the string parses to, exactly unless the string names port 0. */
  lemma UriParsesAlike(raw: string)
    ensures ParseTarget(URI(raw, None)) == ParseTarget(raw) <==>
              !(ParseTarget(raw).Ok? && ParseTarget(raw).value.port.IsEmpty())
  {
    match ParseTarget(raw)
    case Ok(t) => AcceptedUri(raw, t);
    case Err(_) => RejectedUri(raw, None);
  }

  /** Printing a URI of a URI changes nothing, accepted or not. */
  lemma UriIsIdempotent(raw: string)
    ensures URI(URI(raw, None), None) == URI(raw, None)
  {
    match ParseTarget(raw)
    case Ok(t) =>
      AcceptedUri(raw, t);
      if t.port.IsEmpty() {
        RejectedUri(SCHEME_PREFIX + Print(t), None);
      } else {
        AcceptedUri(SCHEME_PREFIX + Print(t), t);
      }
    case Err(_) => RejectedUri(raw, None);
  }

  /** A URI with an instance is no target any more, so every further URI leaves it alone. */
  lemma InstanceUriIsFinal(raw: string, instance: int, again: Option<int>)
    requires ParseTarget(raw).Ok?
    ensures ParseTarget(URI(raw, Some(instance))) == Err(UnknownScheme)
    ensures URI(URI(raw, Some(instance)), again) == URI(raw, Some(instance))
  {
    var rest := InstanceText(ParseTarget(raw).value, instance);
    NotATargetAnyMore(rest);
    RejectedUri(STATEFUL_PREFIX + rest, again);
  }

  lemma NotATargetAnyMore(rest: string)
    requires rest != "" && !Strips(GoTrim, rest[|rest| - 1])
    ensures ParseTarget(STATEFUL_PREFIX + rest) == Err(UnknownScheme)
  {
    Untrimmed(STATEFUL_PREFIX, rest);
    OtherScheme(rest);
  }

  lemma PrefixAt(s: string, prefix: string, i: nat)
    requires i < |prefix|
    ensures HasPrefix(s, prefix) ==> s[i] == prefix[i]
  {
  }

  lemma OtherScheme(rest: string)
    ensures !HasPrefix(STATEFUL_PREFIX + rest, SCHEME_PREFIX)
    ensures Includes(STATEFUL_PREFIX + rest, "://")
  {
    var s := STATEFUL_PREFIX + rest;
    assert s[8] == STATEFUL_PREFIX[8] == '-' && SCHEME_PREFIX[8] == ':';
    PrefixAt(s, SCHEME_PREFIX, 8);
    assert s[17..20] == STATEFUL_PREFIX[17..20] == "://";
    assert IncludesAt(s, "://", 17);
  }
}
