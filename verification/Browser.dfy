/** Opening URLs on the host: validation, the sliding-window limiter and the rewriting of loopback
    ports (`src/host/browser.rs`, `validate_open_url` in `src/protocol.rs`). */
module Browser {
  import opened Wrappers
  import opened PortSearch
  import opened Text

  // ---- Rewriting loopback ports ---------------------------------------------

  /** `parse::<u16>()` of a digit run. */
  function ParsePort(s: string): Option<Port>
    requires AllDigits(s)
  {
    if s == "" || Value(s) >= 65536 then None else Some(Value(s))
  }

  function LowerChar(c: char): char {
    if 'A' <= c <= 'Z' then (c as int + 32) as char else c
  }

  function Lower(s: string): (r: string)
    ensures |r| == |s| && forall i | 0 <= i < |s| :: r[i] == LowerChar(s[i])
  {
    seq(|s|, i requires 0 <= i < |s| => LowerChar(s[i]))
  }

  /** Equal, or the two cases of an ASCII letter. */
  predicate SameLetter(c: char, d: char) {
    || c == d
    || ('a' <= c <= 'z' && c as int == d as int + 32) || ('a' <= d <= 'z' && d as int == c as int + 32)
  }

  predicate SameIgnoringCase(a: string, b: string) {
    |a| == |b| && forall i | 0 <= i < |a| :: SameLetter(a[i], b[i])
  }

  lemma LowerIgnoresCase(a: string, b: string)
    requires forall c | c in b :: !('A' <= c <= 'Z')
    ensures Lower(a) == b <==> SameIgnoringCase(a, b)
  {
    if |a| == |b| {
      assert forall i | 0 <= i < |b| :: b[i] in b;
      assert forall i | 0 <= i < |a| :: LowerChar(a[i]) == b[i] <==> SameLetter(a[i], b[i]);
      assert forall i | 0 <= i < |a| :: Lower(a)[i] == LowerChar(a[i]);
    }
  }

  const SCHEME_SEPARATOR: string := "://"

  /** Position of the first "://" at or after i, or the length of s. */
  function SeparatorFrom(s: string, i: nat): (n: nat)
    requires i <= |s|
    ensures i <= n <= |s|
    ensures n < |s| ==> SCHEME_SEPARATOR <= s[n..]
    ensures forall j | i <= j < n :: !(SCHEME_SEPARATOR <= s[j..])
    decreases |s| - i
  {
    if i == |s| || SCHEME_SEPARATOR <= s[i..] then i else SeparatorFrom(s, i + 1)
  }

  /** Length of the leading digit run. */
  function DigitRun(s: string): (n: nat)
    ensures n <= |s| && AllDigits(s[..n]) && (n < |s| ==> !IsDigit(s[n]))
  {
    if s == "" || !IsDigit(s[0]) then 0
    else
      assert s[1..][..DigitRun(s[1..])] == s[1..1 + DigitRun(s[1..])];
      1 + DigitRun(s[1..])
  }

  const LOOPBACK_HOSTS: seq<string> := ["localhost:", "127.0.0.1:", "[::1]:"]

  /** Length of the loopback host and colon at the start of s, ignoring ASCII case; 0 if none. */
  function LoopbackLength(s: string): (n: nat)
    ensures n <= |s|
    ensures n > 0 ==> Lower(s[..n]) in LOOPBACK_HOSTS
  {
    var low := Lower(s);
    assert forall k | 0 <= k <= |s| :: Lower(s[..k]) == low[..k];
    var n := if LOOPBACK_HOSTS[0] <= low then |LOOPBACK_HOSTS[0]|
             else if LOOPBACK_HOSTS[1] <= low then |LOOPBACK_HOSTS[1]|
             else if LOOPBACK_HOSTS[2] <= low then |LOOPBACK_HOSTS[2]|
             else 0;
    assert n > 0
        ==> Lower(s[..n]) == low[..n]
            && (low[..n] == LOOPBACK_HOSTS[0] || low[..n] == LOOPBACK_HOSTS[1] || low[..n] == LOOPBACK_HOSTS[2]);
    n
  }

  function RewriteUrl(url: string, portMap: map<Port, Port>): string {
    var separator := SeparatorFrom(url, 0);
    if separator == |url| || portMap == map[] then url
    else
      var schemeEnd := separator + |SCHEME_SEPARATOR|;
      var rest := url[schemeEnd..];
      var hostLength := LoopbackLength(rest);
      if hostLength == 0 then url
      else
        var afterHost := rest[hostLength..];
        var run := DigitRun(afterHost);
        match ParsePort(afterHost[..run])
        case None => url
        case Some(port) =>
          if port in portMap then
            url[..schemeEnd + hostLength] + Decimal(portMap[port]) + afterHost[run..]
          else url
  }

  /** `prefix` is a scheme, its "://", and a loopback host with its colon. */
  ghost predicate LoopbackPrefix(prefix: string) {
    exists n: nat :: LoopbackAt(prefix, n)
  }

  predicate LoopbackAt(prefix: string, n: nat) {
    n + 3 <= |prefix| && SCHEME_SEPARATOR <= prefix[n..]
    && (forall j | 0 <= j < n :: !(SCHEME_SEPARATOR <= prefix[j..]))
    && Lower(prefix[n + 3..]) in LOOPBACK_HOSTS
  }

  /** The URL is a loopback prefix, a digit run that is a port, and a suffix the run does not reach into. */
  ghost predicate HasLoopbackPort(url: string, prefix: string, port: string, suffix: string) {
    url == prefix + port + suffix && LoopbackPrefix(prefix)
    && AllDigits(port) && ParsePort(port).Some? && (suffix != "" ==> !IsDigit(suffix[0]))
  }

  /** ... and the port is mapped. */
  ghost predicate HasMappedPort(url: string, portMap: map<Port, Port>, prefix: string, port: string, suffix: string) {
    HasLoopbackPort(url, prefix, port, suffix) && ParsePort(port).value in portMap
  }

  /** The first separator of a string is found where it is. */
  lemma SeparatorIsFirst(s: string, n: nat)
    requires n <= |s| && SCHEME_SEPARATOR <= s[n..]
    requires forall j | 0 <= j < n :: !(SCHEME_SEPARATOR <= s[j..])
    ensures SeparatorFrom(s, 0) == n && n + 3 <= |s|
  {
  }

  /** Appending to a string that contains a separator does not move its first one. */
  lemma SeparatorStays(prefix: string, n: nat, more: string)
    requires LoopbackAt(prefix, n)
    ensures SeparatorFrom(prefix + more, 0) == n
  {
    var s := prefix + more;
    assert s[n..] == prefix[n..] + more;
    forall j | 0 <= j < n ensures !(SCHEME_SEPARATOR <= s[j..]) {
      assert s[j..][..3] == prefix[j..][..3];
    }
    SeparatorIsFirst(s, n);
  }

  /** A loopback host is recognised whatever follows it. */
  lemma LoopbackRecognised(host: string, more: string)
    requires Lower(host) in LOOPBACK_HOSTS
    ensures LoopbackLength(host + more) == |host|
  {
    var s := host + more;
    assert Lower(s) == Lower(host) + Lower(more);
    var low := Lower(host);
    assert low == LOOPBACK_HOSTS[0] || low == LOOPBACK_HOSTS[1] || low == LOOPBACK_HOSTS[2];
    assert low[0] == Lower(s)[0];
    assert low <= Lower(s);
  }

  /** The digit run of a port followed by a suffix is the port. */
  lemma RunIsPort(port: string, suffix: string)
    requires AllDigits(port) && (suffix != "" ==> !IsDigit(suffix[0]))
    ensures DigitRun(port + suffix) == |port|
  {
    var s, n := port + suffix, DigitRun(port + suffix);
    assert forall k | 0 <= k < |port| :: s[k] == port[k];
    assert forall k | 0 <= k < n :: IsDigit(s[k]) by { assert forall k | 0 <= k < n :: s[..n][k] == s[k]; }
    assert suffix != "" ==> s[|port|] == suffix[0];
  }

  /** The URL up to the port, the port, and the rest, as `RewriteUrl` finds them. */
  ghost predicate Found(url: string, prefix: string, port: string, suffix: string) {
    var n := SeparatorFrom(url, 0);
    && n < |url|
    && LoopbackLength(url[n + 3..]) > 0
    && prefix == url[..n + 3 + LoopbackLength(url[n + 3..])]
    && |prefix| + DigitRun(url[|prefix|..]) <= |url|
    && port == url[|prefix|..|prefix| + DigitRun(url[|prefix|..])]
    && suffix == url[|prefix| + DigitRun(url[|prefix|..])..]
  }

  lemma LoopbackIsFound(url: string, prefix: string, port: string, suffix: string)
    requires HasLoopbackPort(url, prefix, port, suffix)
    ensures Found(url, prefix, port, suffix)
  {
    hide Value, ParsePort, SeparatorFrom, LoopbackLength, DigitRun, Found;
    var n: nat :| LoopbackAt(prefix, n);
    var host, more := prefix[n + 3..], port + suffix;
    assert url == prefix + more;
    SeparatorStays(prefix, n, more);
    assert url[n + 3..] == host + more;
    LoopbackRecognised(host, more);
    assert Lower(host) != "";
    assert url[|prefix|..] == more;
    RunIsPort(port, suffix);
    FoundFrom(prefix, port, suffix, n);
  }

  lemma FoundFrom(prefix: string, port: string, suffix: string, n: nat)
    requires n + 3 < |prefix|
    requires var url := prefix + port + suffix;
      SeparatorFrom(url, 0) == n && LoopbackLength(url[n + 3..]) == |prefix| - n - 3
          && DigitRun(url[|prefix|..]) == |port|
    ensures Found(prefix + port + suffix, prefix, port, suffix)
  {
    hide SeparatorFrom, LoopbackLength, DigitRun;
  }

  lemma FoundIsLoopback(url: string, prefix: string, port: string, suffix: string)
    requires Found(url, prefix, port, suffix)
    ensures url == prefix + port + suffix && LoopbackPrefix(prefix) && AllDigits(port)
    ensures suffix != "" ==> !IsDigit(suffix[0])
  {
    hide DigitRun, LoopbackLength, SeparatorFrom;
    var n := SeparatorFrom(url, 0);
    var h := LoopbackLength(url[n + 3..]);
    assert prefix[n + 3..] == url[n + 3..][..h];
    assert SCHEME_SEPARATOR <= prefix[n..] by { assert prefix[n..][..3] == url[n..][..3]; }
    forall j | 0 <= j < n ensures !(SCHEME_SEPARATOR <= prefix[j..]) {
      assert prefix[j..][..3] == url[j..][..3];
    }
    assert LoopbackAt(prefix, n);
    var run := DigitRun(url[|prefix|..]);
    assert port == url[|prefix|..][..run];
    assert suffix != "" ==> suffix[0] == url[|prefix|..][run];
  }

  /** The URL with its port rewritten, given where the port is. */
  function Rewritten(url: string, portMap: map<Port, Port>, prefix: string, port: string, suffix: string): string
    requires AllDigits(port)
  {
    if ParsePort(port).Some? && ParsePort(port).value in portMap
    then prefix + Decimal(portMap[ParsePort(port).value]) + suffix else url
  }

  lemma RewriteAt(url: string, portMap: map<Port, Port>, prefix: string, port: string, suffix: string)
    requires Found(url, prefix, port, suffix) && AllDigits(port)
    ensures RewriteUrl(url, portMap) == Rewritten(url, portMap, prefix, port, suffix)
  {
    hide DigitRun, LoopbackLength, SeparatorFrom, Decimal, Value, Lower, ParsePort, AllDigits;
    var n := SeparatorFrom(url, 0);
    var rest := url[n + 3..];
    var h := LoopbackLength(rest);
    assert rest[h..] == url[|prefix|..];
    var run := DigitRun(url[|prefix|..]);
    assert port == url[|prefix|..][..run] && suffix == url[|prefix|..][run..];
  }

  /** Main result: where a loopback port is mapped, exactly that port is replaced by the decimal form
      of its host port; the text before and after it is untouched. */
  lemma MappedPortIsReplaced(url: string, portMap: map<Port, Port>, prefix: string, port: string, suffix: string)
    requires HasMappedPort(url, portMap, prefix, port, suffix)
    ensures var hostPort := portMap[ParsePort(port).value];
      && RewriteUrl(url, portMap) == prefix + Decimal(hostPort) + suffix
      && HasLoopbackPort(RewriteUrl(url, portMap), prefix, Decimal(hostPort), suffix)
      && ParsePort(Decimal(hostPort)) == Some(hostPort)
  {
    hide RewriteUrl, Found, LoopbackPrefix, Decimal;
    LoopbackIsFound(url, prefix, port, suffix);
    RewriteAt(url, portMap, prefix, port, suffix);
    DecimalDenotes(portMap[ParsePort(port).value]);
  }

  /** What that means for a URL as it is written: whatever the scheme, with the loopback host in any case and a
      mapped port in decimal, it is the same URL with the host port. */
  lemma LoopbackUrlIsRewritten(scheme: string, host: string, port: Port, suffix: string, portMap: map<Port, Port>)
    requires ':' !in scheme && port in portMap && (suffix != "" ==> !IsDigit(suffix[0]))
    requires SameIgnoringCase(host, "localhost") || host == "127.0.0.1" || host == "[::1]"
    ensures RewriteUrl(scheme + "://" + host + ":" + Decimal(port) + suffix, portMap)
         == scheme + "://" + host + ":" + Decimal(portMap[port]) + suffix
  {
    hide RewriteUrl, Decimal, Value;
    var prefix := scheme + "://" + host + ":";
    LoopbackIsWritten(scheme, host);
    DecimalDenotes(port);
    assert ParsePort(Decimal(port)) == Some(port);
    MappedPortIsReplaced(prefix + Decimal(port) + suffix, portMap, prefix, Decimal(port), suffix);
  }

  lemma LoopbackIsWritten(scheme: string, host: string)
    requires ':' !in scheme
    requires SameIgnoringCase(host, "localhost") || host == "127.0.0.1" || host == "[::1]"
    ensures LoopbackPrefix(scheme + "://" + host + ":")
  {
    hide SameIgnoringCase;
    var prefix, n := scheme + "://" + host + ":", |scheme|;
    assert prefix[n..][..3] == "://";
    forall j | 0 <= j < n ensures !(SCHEME_SEPARATOR <= prefix[j..]) {
      assert prefix[j..][0] == scheme[j] && scheme[j] in scheme;
    }
    assert prefix[n + 3..] == host + ":";
    LowerIgnoresCase(host, "localhost");
    assert host == "127.0.0.1" || host == "[::1]" ==> Lower(host) == host;
    assert Lower(host + ":") == Lower(host) + ":";
    assert LOOPBACK_HOSTS[0] == "localhost:" && LOOPBACK_HOSTS[1] == "127.0.0.1:" && LOOPBACK_HOSTS[2] == "[::1]:";
    assert "localhost" + ":" == "localhost:" && "127.0.0.1" + ":" == "127.0.0.1:" && "[::1]" + ":" == "[::1]:";
    var low := Lower(prefix[n + 3..]);
    assert low == LOOPBACK_HOSTS[0] || low == LOOPBACK_HOSTS[1] || low == LOOPBACK_HOSTS[2];
    assert LoopbackAt(prefix, n);
  }

  /** A digit run is a port exactly if it denotes a number below 65,536, leading zeros or not. */
  lemma PortsParse(s: string)
    requires AllDigits(s)
    ensures ParsePort(s).Some? <==> s != "" && Value(s) < 65536
    ensures ParsePort(s).Some? ==> ParsePort(s).value == Value(s)
  {
  }

  /** ... and every other URL is left alone. */
  lemma OtherUrlsAreUnchanged(url: string, portMap: map<Port, Port>)
    requires forall prefix, port, suffix :: !HasMappedPort(url, portMap, prefix, port, suffix)
    ensures RewriteUrl(url, portMap) == url
  {
    hide RewriteUrl, Found, LoopbackPrefix, Decimal, Value;
    if FindsLoopback(url) {
      var prefix, port, suffix := Parts(url);
      FoundIsLoopback(url, prefix, port, suffix);
      RewriteAt(url, portMap, prefix, port, suffix);
      assert !HasMappedPort(url, portMap, prefix, port, suffix);
    } else {
      NoLoopbackIsUnchanged(url, portMap);
    }
  }

  predicate FindsLoopback(url: string) {
    var n := SeparatorFrom(url, 0);
    n < |url| && LoopbackLength(url[n + 3..]) > 0
  }

  lemma NoLoopbackIsUnchanged(url: string, portMap: map<Port, Port>)
    requires !FindsLoopback(url)
    ensures RewriteUrl(url, portMap) == url
  {
    hide DigitRun, LoopbackLength, SeparatorFrom, Decimal, Value;
  }

  lemma Parts(url: string) returns (prefix: string, port: string, suffix: string)
    requires FindsLoopback(url)
    ensures Found(url, prefix, port, suffix)
  {
    hide DigitRun, LoopbackLength, SeparatorFrom;
    var n := SeparatorFrom(url, 0);
    prefix := url[..n + 3 + LoopbackLength(url[n + 3..])];
    var run := DigitRun(url[|prefix|..]);
    port, suffix := url[|prefix|..|prefix| + run], url[|prefix| + run..];
  }

  // ---- Validation -------------------------------------------------------------

  const MAX_URL_LENGTH: nat := 2048

  datatype UrlError = EmptyUrl | TooLong(len: nat) | InvalidCharacters | InvalidScheme

  predicate AsciiControl(c: char) { c as int < 0x20 || c as int == 0x7F }

  function ValidateOpenUrl(url: string): Option<UrlError> {
    if url == "" then Some(EmptyUrl)
    else if ByteLength(url) > MAX_URL_LENGTH then Some(TooLong(ByteLength(url)))
    else if exists i :: 0 <= i < |url| && AsciiControl(url[i]) then Some(InvalidCharacters)
    else if !("http://" <= Lower(url)) && !("https://" <= Lower(url)) then Some(InvalidScheme)
    else None
  }

  /** The URL begins with one of the two schemes, in any case. */
  ghost predicate HasScheme(url: string) {
    exists scheme, rest :: IsScheme(url, scheme, rest)
  }

  predicate IsScheme(url: string, scheme: string, rest: string) {
    url == scheme + rest && (SameIgnoringCase(scheme, "http://") || SameIgnoringCase(scheme, "https://"))
  }

  lemma ValidUrlIff(url: string)
    ensures ValidateOpenUrl(url).None?
       <==> ByteLength(url) <= 2048 && HasScheme(url) && (forall c | c in url :: ' ' <= c && c as int != 127)
  {
    hide ByteLength, HasScheme;
    SchemeIffLower(url);
    assert (exists i :: 0 <= i < |url| && AsciiControl(url[i])) <==> exists c :: c in url && AsciiControl(c);
  }

  lemma SchemeIffLower(url: string)
    ensures HasScheme(url) <==> "http://" <= Lower(url) || "https://" <= Lower(url)
    ensures HasScheme(url) ==> url != ""
  {
    hide SameIgnoringCase;
    var low := Lower(url);
    forall k | 0 <= k <= |url| ensures Lower(url[..k]) == low[..k] {
      LowerIgnoresCase(url[..k], "http://");
      LowerIgnoresCase(url[..k], "https://");
    }
    if "http://" <= low {
      LowerIgnoresCase(url[..7], "http://");
      assert IsScheme(url, url[..7], url[7..]);
    }
    if "https://" <= low {
      LowerIgnoresCase(url[..8], "https://");
      assert IsScheme(url, url[..8], url[8..]);
    }
    if HasScheme(url) {
      var scheme, rest :| IsScheme(url, scheme, rest);
      LowerIgnoresCase(scheme, "http://");
      LowerIgnoresCase(scheme, "https://");
      assert url[..|scheme|] == scheme;
    }
  }

  lemma NoLongerThanPort(a: string, port: string, b: string, hostPort: Port)
    requires AllDigits(port) && port != ""
    ensures ByteLength(a + Decimal(hostPort) + b) <= ByteLength(a + port + b) + 4
  {
    ByteLengthAppend(a + Decimal(hostPort), b);
    ByteLengthAppend(a, Decimal(hostPort));
    ByteLengthAppend(a + port, b);
    ByteLengthAppend(a, port);
    DigitsAreBytes(port);
    DigitsAreBytes(Decimal(hostPort));
    DecimalIsShort(hostPort);
  }

  lemma SchemeEndsInSeparator(scheme: string, rest: string, n: nat)
    requires IsScheme(scheme + rest, scheme, rest)
    requires n + 3 <= |scheme + rest| && SCHEME_SEPARATOR <= (scheme + rest)[n..]
    ensures |scheme| <= n + 3
  {
    if n < |scheme| {
      assert (scheme + rest)[n] == scheme[n] == ':';
      assert SameLetter(scheme[n], if |scheme| == 7 then "http://"[n] else "https://"[n]);
    }
  }

  /** A scheme lies before a loopback port. */
  lemma SchemeIsInPrefix(url: string, prefix: string, more: string, more': string)
    requires url == prefix + more && LoopbackPrefix(prefix) && HasScheme(url)
    ensures HasScheme(prefix + more')
  {
    hide IsScheme;
    var n: nat :| LoopbackAt(prefix, n);
    var scheme, rest :| IsScheme(url, scheme, rest);
    SchemeIsWhole(url, scheme, rest);
    assert url[n..][..3] == prefix[n..][..3];
    SchemeEndsInSeparator(scheme, rest, n);
    assert prefix[..|scheme|] == url[..|scheme|] == scheme;
    assert prefix + more' == scheme + (prefix[|scheme|..] + more');
    SchemeMoves(url, scheme, rest, prefix[|scheme|..] + more');
    assert IsScheme(prefix + more', scheme, prefix[|scheme|..] + more');
  }

  lemma SchemeIsWhole(url: string, scheme: string, rest: string)
    requires IsScheme(url, scheme, rest)
    ensures url == scheme + rest
  {
  }

  lemma SchemeMoves(url: string, scheme: string, rest: string, rest': string)
    requires IsScheme(url, scheme, rest)
    ensures IsScheme(scheme + rest', scheme, rest')
  {
  }

  /** Main result: what is handed to the browser is again a valid URL, unless a longer port has taken it over
      the limit, by at most four bytes. */
  lemma OpenedUrlIsValidIff(url: string, portMap: map<Port, Port>)
    requires ValidateOpenUrl(url).None?
    ensures var shown := RewriteUrl(url, portMap);
      && ByteLength(shown) <= 2048 + 4
      && (ValidateOpenUrl(shown).None? <==> ByteLength(shown) <= 2048)
  {
    hide RewriteUrl, ValidateOpenUrl, LoopbackPrefix, HasScheme, ByteLength, Decimal, Value;
    ValidUrlIff(url);
    var shown := RewriteUrl(url, portMap);
    ValidUrlIff(shown);
    if prefix, port, suffix :| HasMappedPort(url, portMap, prefix, port, suffix) {
      MappedPortIsReplaced(url, portMap, prefix, port, suffix);
      var digits := Decimal(portMap[ParsePort(port).value]);
      NoLongerThanPort(prefix, port, suffix, portMap[ParsePort(port).value]);
      SchemeIsInPrefix(url, prefix, port + suffix, digits + suffix);
      assert url == prefix + (port + suffix) && shown == prefix + (digits + suffix);
      forall c | c in shown ensures ' ' <= c && c as int != 127 {
        assert c in prefix || c in digits || c in suffix;
        assert c in prefix || c in suffix ==> c in url;
      }
    } else {
      OtherUrlsAreUnchanged(url, portMap);
    }
  }

  // ---- The limiter ---------------------------------------------------------------

  const RATE_LIMIT_PER_SEC: nat := 5
  const SECOND: nat := 1_000_000_000

  type Instant = nat   // nanoseconds

  /** `now.duration_since(t).as_secs() >= 1`; the duration is zero for a later t. */
  predicate Expired(t: Instant, now: Instant) {
    (if now >= t then now - t else 0) / SECOND >= 1
  }

  /** Expired entries are dropped from the front, as far as they go. */
  function DropExpired(opens: seq<Instant>, now: Instant): seq<Instant> {
    if opens != [] && Expired(opens[0], now) then DropExpired(opens[1..], now) else opens
  }

  datatype BrowserError = Validation(error: UrlError) | RateLimited

  class BrowserOpener {
    var portMap: map<Port, Port>
    var recentOpens: seq<Instant>
    var browserCmd: Option<string>

    constructor (cmd: Option<string>)
      ensures portMap == map[] && recentOpens == [] && browserCmd == cmd
    {
      portMap, recentOpens, browserCmd := map[], [], cmd;
    }

    method AddPortMapping(containerPort: Port, hostPort: Port)
      modifies this`portMap
      ensures portMap == old(portMap)[containerPort := hostPort]
    {
      portMap := portMap[containerPort := hostPort];
    }

    method RemovePortMapping(containerPort: Port)
      modifies this`portMap
      ensures portMap == old(portMap) - {containerPort}
    {
      portMap := portMap - {containerPort};
    }

    method Prepare(url: string, now: Instant) returns (r: Result<(string, Option<string>), BrowserError>)
      modifies this`recentOpens
      ensures recentOpens == Opened(old(recentOpens), now, ValidateOpenUrl(url).None?).opens
      ensures match Opened(old(recentOpens), now, ValidateOpenUrl(url).None?).verdict
              case Accepted => r == Ok((RewriteUrl(url, portMap), browserCmd))
              case Refused => r == Err(RateLimited)
              case Rejected => ValidateOpenUrl(url).Some? && r == Err(Validation(ValidateOpenUrl(url).value))
    {
      var problem := ValidateOpenUrl(url);
      if problem.Some? {
        return Err(Validation(problem.value));
      }
      while recentOpens != [] && Expired(recentOpens[0], now)
        invariant DropExpired(recentOpens, now) == DropExpired(old(recentOpens), now)
        decreases |recentOpens|
      {
        recentOpens := recentOpens[1..];
      }
      if |recentOpens| >= RATE_LIMIT_PER_SEC {
        return Err(RateLimited);
      }
      recentOpens := recentOpens + [now];
      var rewritten := RewriteUrl(url, portMap);
      return Ok((rewritten, browserCmd));
    }
  }

  datatype Verdict = Accepted | Refused | Rejected

  datatype Opening = Opening(opens: seq<Instant>, verdict: Verdict)

  /** The limiter's part of `prepare`. */
  function Opened(opens: seq<Instant>, now: Instant, valid: bool): Opening {
    if !valid then Opening(opens, Rejected)
    else
      var recent := DropExpired(opens, now);
      if |recent| >= RATE_LIMIT_PER_SEC then Opening(recent, Refused) else Opening(recent + [now], Accepted)
  }

  // ---- Whole runs of the limiter -----------------------------------------------------

  datatype Request = Request(now: Instant, valid: bool)

  /** The deque after a run, and the instants of all opens accepted in it. */
  datatype History = History(opens: seq<Instant>, accepted: seq<Instant>)

  function After(requests: seq<Request>): History {
    if requests == [] then History([], [])
    else
      var h, q := After(requests[..|requests| - 1]), requests[|requests| - 1];
      var o := Opened(h.opens, q.now, q.valid);
      History(o.opens, if o.verdict.Accepted? then h.accepted + [q.now] else h.accepted)
  }

  /** The clock never goes back. */
  predicate Monotone(requests: seq<Request>) {
    forall i, j | 0 <= i < j < |requests| :: requests[i].now <= requests[j].now
  }

  /** Accepted opens less than a second old, in nanoseconds. */
  function Recent(accepted: seq<Instant>, now: Instant): seq<Instant> {
    if accepted == [] then []
    else
      var rest, last := Recent(accepted[..|accepted| - 1], now), accepted[|accepted| - 1];
      if now - last < 1_000_000_000 then rest + [last] else rest
  }

  ghost predicate Sorted(s: seq<Instant>) {
    forall i, j | 0 <= i < j < |s| :: s[i] <= s[j]
  }

  /** The deque is a suffix of the accepted opens, and what was dropped had expired by `clock`. */
  ghost predicate Tracks(h: History, clock: Instant) {
    && Sorted(h.accepted)
    && (forall t | t in h.accepted :: t <= clock)
    && |h.opens| <= RATE_LIMIT_PER_SEC && |h.opens| <= |h.accepted|
    && h.opens == h.accepted[|h.accepted| - |h.opens|..]
    && (forall i | 0 <= i < |h.accepted| - |h.opens| :: Expired(h.accepted[i], clock))
  }

  /** No six accepted opens within a second. */
  ghost predicate Spaced(accepted: seq<Instant>) {
    forall i | 0 <= i < |accepted| - 5 :: accepted[i] + 1_000_000_000 <= accepted[i + 5]
  }

  lemma OneDropped(h: History, clock: Instant, now: Instant)
    requires Tracks(h, clock) && clock <= now && h.opens != [] && Expired(h.opens[0], now)
    ensures Tracks(History(h.opens[1..], h.accepted), now)
  {
    var h' := History(h.opens[1..], h.accepted);
    assert h'.opens == h.accepted[|h.accepted| - |h'.opens|..];
    assert h.opens[0] == h.accepted[|h.accepted| - |h.opens|];
  }

  lemma {:induction false} DropExpiredTracks(h: History, clock: Instant, now: Instant)
    requires Tracks(h, clock) && clock <= now
    ensures var recent := DropExpired(h.opens, now);
      && Tracks(History(recent, h.accepted), now)
      && (recent != [] ==> !Expired(recent[0], now))
    decreases |h.opens|
  {
    if h.opens != [] && Expired(h.opens[0], now) {
      var h' := History(h.opens[1..], h.accepted);
      OneDropped(h, clock, now);
      DropExpiredTracks(h', now, now);
    }
  }

  lemma {:induction false} RecentIsSuffix(accepted: seq<Instant>, n: nat, now: Instant)
    requires n <= |accepted|
    requires forall i | 0 <= i < n :: Expired(accepted[i], now)
    requires forall i | n <= i < |accepted| :: !Expired(accepted[i], now)
    ensures Recent(accepted, now) == accepted[n..]
    decreases |accepted|
  {
    if accepted != [] {
      var init, last := accepted[..|accepted| - 1], accepted[|accepted| - 1];
      ExpiredIsOld(last, now);
      hide Expired;
      if n == |accepted| {
        RecentIsSuffix(init, n - 1, now);
      } else {
        RecentIsSuffix(init, n, now);
        assert accepted[n..] == init[n..] + [last];
      }
    }
  }

  lemma {:induction false} RunTracks(requests: seq<Request>, clock: Instant)
    requires Monotone(requests) && forall q | q in requests :: q.now <= clock
    ensures Tracks(After(requests), clock) && Spaced(After(requests).accepted)
    decreases |requests|
  {
    if requests != [] {
      var init, q := requests[..|requests| - 1], requests[|requests| - 1];
      assert q in requests;
      forall p | p in init ensures p.now <= q.now {
        var i :| 0 <= i < |init| && init[i] == p;
        assert requests[i] == p;
      }
      RunTracks(init, q.now);
      StepTracks(After(init), q.now, q.valid);
      LaterTracks(After(requests), q.now, clock);
    }
  }

  lemma LaterTracks(h: History, clock: Instant, later: Instant)
    requires Tracks(h, clock) && clock <= later
    ensures Tracks(h, later)
  {
  }

  lemma AcceptTracks(accepted: seq<Instant>, recent: seq<Instant>, now: Instant)
    requires Tracks(History(recent, accepted), now) && |recent| < RATE_LIMIT_PER_SEC
    ensures Tracks(History(recent + [now], accepted + [now]), now)
  {
    hide Expired;
    var accepted', n := accepted + [now], |accepted| - |recent|;
    assert recent + [now] == accepted'[n..];
    forall t | t in accepted' ensures t <= now { assert t in accepted || t == now; }
    forall i, j | 0 <= i < j < |accepted'| ensures accepted'[i] <= accepted'[j] {
      assert accepted[i] in accepted;
    }
    assert forall j | 0 <= j < n :: accepted'[j] == accepted[j];
  }

  lemma AcceptSpaces(accepted: seq<Instant>, recent: seq<Instant>, now: Instant)
    requires Tracks(History(recent, accepted), now) && Spaced(accepted) && |recent| < RATE_LIMIT_PER_SEC
    ensures Spaced(accepted + [now])
  {
    var i := |accepted| - RATE_LIMIT_PER_SEC;
    if i >= 0 {
      ExpiredIsOld(accepted[i], now);
    }
    hide Expired;
    forall j | 0 <= j <= i ensures (accepted + [now])[j + RATE_LIMIT_PER_SEC] - (accepted + [now])[j] >= SECOND {
    }
  }

  lemma ExpiredIsOld(t: Instant, now: Instant)
    ensures Expired(t, now) <==> now - t >= SECOND
  {
  }

  lemma StepTracks(h: History, now: Instant, valid: bool)
    requires Tracks(h, now) && Spaced(h.accepted)
    ensures var o := Opened(h.opens, now, valid);
      var h' := History(o.opens, if o.verdict.Accepted? then h.accepted + [now] else h.accepted);
      Tracks(h', now) && Spaced(h'.accepted)
  {
    hide Tracks, Spaced, DropExpired;
    assert History(h.opens, h.accepted) == h;
    if valid {
      var recent := DropExpired(h.opens, now);
      DropExpiredTracks(h, now, now);
      if |recent| < RATE_LIMIT_PER_SEC {
        AcceptTracks(h.accepted, recent, now);
        AcceptSpaces(h.accepted, recent, now);
      }
    }
  }

  /** Main result: over any run with a clock that never goes back, accepted opens five apart are at
      least a second apart, and a request is decided by exactly the accepted opens less than a second
      old: a valid URL is refused if and only if there are five of them. */
  lemma LimiterIsExact(requests: seq<Request>, q: Request)
    requires Monotone(requests + [q])
    ensures Spaced(After(requests).accepted)
    ensures var h := After(requests);
      && DropExpired(h.opens, q.now) == Recent(h.accepted, q.now)
      && (Opened(h.opens, q.now, q.valid).verdict.Refused?
          <==> q.valid && |Recent(h.accepted, q.now)| == 5)
      && (Opened(h.opens, q.now, q.valid).verdict.Accepted?
          <==> q.valid && |Recent(h.accepted, q.now)| < 5)
  {
    var whole := requests + [q];
    forall p | p in requests ensures p.now <= q.now {
      var i :| 0 <= i < |requests| && requests[i] == p;
      assert whole[i] == p && whole[|requests|] == q;
    }
    assert forall i | 0 <= i < |requests| :: whole[i] == requests[i];
    RunTracks(requests, q.now);
    var h := After(requests);
    KeptAreRecent(h, q.now);
    DropExpiredTracks(h, q.now, q.now);
    hide After, Recent, DropExpired;
  }

  lemma KeptAreRecent(h: History, now: Instant)
    requires Tracks(h, now)
    ensures DropExpired(h.opens, now) == Recent(h.accepted, now)
  {
    var recent := DropExpired(h.opens, now);
    DropExpiredTracks(h, now, now);
    hide DropExpired, Recent;
    var n := |h.accepted| - |recent|;
    assert recent == h.accepted[n..];
    forall i | n <= i < |h.accepted| ensures !Expired(h.accepted[i], now) {
      assert h.accepted[n] == recent[0] && h.accepted[n] <= h.accepted[i];
      ExpiredIsOld(h.accepted[n], now);
      ExpiredIsOld(h.accepted[i], now);
    }
    RecentIsSuffix(h.accepted, n, now);
  }
}
