/** The connectivity prober of the ping tool: target sanitisation, host/port
    splitting, the ICMP attempt and the parsing of its summary, the fallback
    rule, and TCP connect timing with its report table.  The subprocess, the
    executable search, the regular-expression engine, the sockets and float
    formatting are inputs. */
module Ping {
  import opened Text

  /** The tool's settings, with the defaults it ships with.  The TCP connect
      timeout (2.0 s) only influences the connect outcomes, which are inputs. */
  datatype Valves = Valves(packetCount: int, timeoutSeconds: int, tcpDefaultPort: int, tcpAttempts: int)

  const DefaultValves := Valves(4, 5, 443, 4)

  const InvalidTarget := "Invalid target"

  // ---------------------------------------------------------------------
  // Sanitisation

  /** The allowed characters: ASCII letters and digits, and `.`, `-`, `:`,
      `%`, `_`, `[` and `]`. */
  predicate IsAllowedChar(c: char) {
    ('A' <= c <= 'Z') || ('a' <= c <= 'z') || ('0' <= c <= '9')
    || c == '.' || c == '-' || c == ':' || c == '%' || c == '_' || c == '[' || c == ']'
  }

  predicate AllAllowed(s: string) {
    forall i :: 0 <= i < |s| ==> IsAllowedChar(s[i])
  }

  /** The stripped target, or `None` when it is empty or holds a character
      outside the allow-list. */
  function Sanitize(target: string): Option<string> {
    var t := Strip(target);
    if t == [] || !AllAllowed(t) then None else Some(t)
  }

  lemma AllowedNoSpace(s: string)
    requires AllAllowed(s)
    ensures NoSpace(s)
  {
  }

  /** What passes the sanitiser is non-empty, allow-listed (so it carries no
      whitespace, quote, semicolon or other shell metacharacter), and a fixed
      point of the sanitiser. */
  lemma SanitizeIdempotent(target: string)
    requires Sanitize(target).Some?
    ensures var t := Sanitize(target).value;
            t != [] && AllAllowed(t) && NoSpace(t) && Sanitize(t) == Some(t)
  {
    var t := Sanitize(target).value;
    AllowedNoSpace(t);
    StripNoSpace(t);
  }

  /** An allow-listed target is accepted unchanged; one with an outside
      character is refused. */
  lemma SanitizeAllowListed(target: string)
    requires target != [] && AllAllowed(target)
    ensures Sanitize(target) == Some(target)
  {
    AllowedNoSpace(target);
    StripNoSpace(target);
  }

  /** Whitespace around an allow-listed target is dropped: the tool probes
      the target itself. */
  lemma SanitizePadded(w1: string, target: string, w2: string)
    requires AllSpace(w1) && AllSpace(w2) && target != [] && AllAllowed(target)
    ensures Sanitize(w1 + target + w2) == Some(target)
  {
    AllowedNoSpace(target);
    StripPadded(w1, target, w2);
  }

  /** A target holding a character that is neither whitespace nor on the
      allow-list is refused, wherever that character sits: whitespace around
      it does not help. */
  lemma SanitizeRefusesOutsider(target: string, i: nat)
    requires i < |target| && !IsSpace(target[i]) && !IsAllowedChar(target[i])
    ensures Sanitize(target).None?
  {
    var lo := StripSlice(target);
    assert Strip(target)[i - lo] == target[i];
  }

  /** A blank target is refused. */
  lemma SanitizeRefusesBlank(target: string)
    requires AllSpace(target)
    ensures Sanitize(target).None?
  {
    StripBlankIff(target);
  }

  /** A shell-injection attempt is refused. */
  lemma SanitizeRefusesInjection()
    ensures Sanitize(";rm -rf /").None?
  {
    SanitizeRefusesOutsider(";rm -rf /", 0);
  }

  // ---------------------------------------------------------------------
  // Host and port

  /** Split a sanitised target into a host and an optional port, trying in
      turn `[v6]` with an optional `:port`, a bare address with two or more
      colons, `host:port`, and a plain host.  The port is whatever `int()`
      makes of the text after the colon: no range is checked. */
  function SplitHostPort(target: string): (r: (string, Option<int>))
    ensures r.1.None? && (target == [] || target[0] != '[') ==> r.0 == target
    ensures r.1.Some? && (target == [] || target[0] != '[') ==>
              |r.0| < |target| && target[..|r.0|] == r.0 && target[|r.0|] == ':'
              && PyInt(target[|r.0| + 1..]) == r.1
    ensures r.1.Some? && target != [] && target[0] == '[' ==>
              |r.0| + 2 < |target| && target[1..|r.0| + 1] == r.0 && target[|r.0| + 1] == ']' && target[|r.0| + 2] == ':'
              && PyInt(target[|r.0| + 3..]) == r.1
  {
    if target != [] && target[0] == '[' then SplitBracketed(target)
    else if Count(target, ':') > 1 then (target, None)
    else if Count(target, ':') == 1 then SplitAtColon(target)
    else (target, None)
  }

  /** A bracketed target: the host is what lies between `[` and the first
      `]`, and a colon right after the bracket introduces the port; a
      missing `]` or a port `int()` refuses keeps the whole target. */
  function SplitBracketed(target: string): (r: (string, Option<int>))
    requires target != [] && target[0] == '['
    ensures r.1.Some? ==>
              |r.0| + 2 < |target| && target[1..|r.0| + 1] == r.0 && target[|r.0| + 1] == ']' && target[|r.0| + 2] == ':'
              && PyInt(target[|r.0| + 3..]) == r.1
  {
    match IndexOf(target[1..], ']')
    case None => (target, None)
    case Some(j) => SplitAfterBracket(target, j)
  }

  /** The bracketed form once the closing bracket is known to be `target[j + 1]`. */
  function SplitAfterBracket(target: string, j: nat): (r: (string, Option<int>))
    requires j + 1 < |target| && target[0] == '[' && target[j + 1] == ']'
    ensures r.1.Some? ==>
              |r.0| + 2 < |target| && target[1..|r.0| + 1] == r.0 && target[|r.0| + 1] == ']' && target[|r.0| + 2] == ':'
              && PyInt(target[|r.0| + 3..]) == r.1
  {
    var host := target[1..j + 1];
    assert |host| == j && target[1..|host| + 1] == host;
    if j + 2 < |target| && target[j + 2] == ':' then
      match PyInt(target[j + 3..])
      case Some(p) => (host, Some(p))
      case None => (target, None)
    else (host, None)
  }

  /** The target split at its last colon, the part after it read as the
      port, falling back to the whole target when `int()` refuses.  With a
      single colon the last one is the first one. */
  function SplitAtColon(target: string): (r: (string, Option<int>))
    ensures r.1.None? ==> r.0 == target
    ensures r.1.Some? ==> |r.0| < |target| && target[..|r.0|] == r.0 && target[|r.0|] == ':'
                          && PyInt(target[|r.0| + 1..]) == r.1
  {
    match IndexOf(target, ':')
    case None => (target, None)
    case Some(k) =>
      var host := target[..k];
      assert |host| == k && target[..|host|] == host;
      match PyInt(target[k + 1..])
      case Some(p) => (host, Some(p))
      case None => (target, None)
  }

  lemma ColonShape(target: string, k: nat)
    requires k < |target| && target[k] == ':'
    ensures target == target[..k] + ":" + target[k + 1..]
  {
    assert target == target[..k] + [target[k]] + target[k + 1..];
  }

  lemma BracketedShape(target: string, j: nat)
    requires |target| > j + 2 && target[0] == '[' && target[j + 1] == ']' && target[j + 2] == ':'
    ensures target == "[" + target[1..j + 1] + "]:" + target[j + 3..]
  {
    var h, p := target[1..j + 1], target[j + 3..];
    assert |"[" + h + "]:" + p| == |target|;
    forall i | 0 <= i < |target| ensures ("[" + h + "]:" + p)[i] == target[i] {
      if i == 0 {
      } else if i <= j {
        assert ("[" + h + "]:" + p)[i] == h[i - 1];
      } else if i <= j + 2 {
      } else {
        assert ("[" + h + "]:" + p)[i] == p[i - j - 3];
      }
    }
  }

  /** A split that found a port can be undone: the target is the host and
      the port text put back together around the colon (and the brackets). */
  lemma SplitHostPortRecompose(target: string)
    requires SplitHostPort(target).1.Some?
    ensures var (h, p) := SplitHostPort(target);
            (target == [] || target[0] != '[') ==>
              target == h + ":" + target[|h| + 1..] && PyInt(target[|h| + 1..]) == p
    ensures var (h, p) := SplitHostPort(target);
            target != [] && target[0] == '[' ==>
              target == "[" + h + "]:" + target[|h| + 3..] && PyInt(target[|h| + 3..]) == p
  {
    var h := SplitHostPort(target).0;
    if target != [] && target[0] == '[' {
      BracketedShape(target, |h|);
    } else {
      ColonShape(target, |h|);
    }
  }

  /** How `"[" + h + "]" + rest` decomposes when `h` holds no `]`. */
  lemma BracketedParts(h: string, rest: string)
    requires forall j :: 0 <= j < |h| ==> h[j] != ']'
    ensures var t := "[" + h + "]" + rest;
            && t[0] == '[' && t[|h| + 1] == ']'
            && IndexOf(t[1..], ']') == Some(|h|)
            && t[1..|h| + 1] == h && t[|h| + 2..] == rest
  {
    var t := "[" + h + "]" + rest;
    assert t[1..] == h + "]" + rest;
    IndexOfAfter(h, ']', rest);
  }

  /** `[h]:p` with `p` a valid integer gives host `h` and port `int(p)`. */
  lemma BracketedWithPort(h: string, p: string)
    requires forall j :: 0 <= j < |h| ==> h[j] != ']'
    requires PyInt(p).Some?
    ensures SplitHostPort("[" + h + "]:" + p) == (h, PyInt(p))
  {
    BracketedParts(h, ":" + p);
    assert "[" + h + "]:" + p == "[" + h + "]" + (":" + p);
    var t := "[" + h + "]:" + p;
    assert t[|h| + 2] == ':' && t[|h| + 3..] == p;
  }

  /** `[h]`, or `[h]` followed by anything but a colon, gives host `h` and no port. */
  lemma BracketedWithoutPort(h: string, rest: string)
    requires forall j :: 0 <= j < |h| ==> h[j] != ']'
    requires rest == [] || rest[0] != ':'
    ensures SplitHostPort("[" + h + "]" + rest) == (h, None)
  {
    BracketedParts(h, rest);
  }

  /** A bracket that is never closed keeps the whole target as host. */
  lemma BracketedUnclosed(target: string)
    requires target != [] && target[0] == '['
    requires forall j :: 1 <= j < |target| ==> target[j] != ']'
    ensures SplitHostPort(target) == (target, None)
  {
    assert forall j :: 0 <= j < |target[1..]| ==> target[1..][j] == target[j + 1];
  }

  /** So does a port `int()` refuses. */
  lemma BracketedBadPort(h: string, p: string)
    requires forall j :: 0 <= j < |h| ==> h[j] != ']'
    requires PyInt(p).None?
    ensures SplitHostPort("[" + h + "]:" + p) == ("[" + h + "]:" + p, None)
  {
    BracketedParts(h, ":" + p);
    assert "[" + h + "]:" + p == "[" + h + "]" + (":" + p);
    var t := "[" + h + "]:" + p;
    assert t[|h| + 2] == ':' && t[|h| + 3..] == p;
  }

  /** Two or more colons without a leading bracket: a bare IPv6 address, no port. */
  lemma BareIPv6(target: string)
    requires target == [] || target[0] != '['
    requires Count(target, ':') > 1
    ensures SplitHostPort(target) == (target, None)
  {
  }

  /** No colon at all: the whole target is the host. */
  lemma NoColon(target: string)
    requires target == [] || target[0] != '['
    requires forall j :: 0 <= j < |target| ==> target[j] != ':'
    ensures SplitHostPort(target) == (target, None)
  {
    CountZero(target, ':');
  }

  /** Exactly one colon: `host:p` gives `(host, int(p))` when `p` parses, and
      otherwise the whole target with no port. */
  lemma HostColonPort(h: string, p: string)
    requires h == [] || h[0] != '['
    requires forall j :: 0 <= j < |h| ==> h[j] != ':'
    requires forall j :: 0 <= j < |p| ==> p[j] != ':'
    ensures SplitHostPort(h + ":" + p) ==
            if PyInt(p).Some? then (h, PyInt(p)) else (h + ":" + p, None)
  {
    var t := h + ":" + p;
    SingleColon(h, p);
    IndexOfAfter(h, ':', p);
    SplitAtColonAt(t, |h|);
    assert t[..|h|] == h && t[|h| + 1..] == p;
  }

  lemma SplitAtColonAt(t: string, k: nat)
    requires IndexOf(t, ':') == Some(k)
    ensures SplitAtColon(t) == if PyInt(t[k + 1..]).Some? then (t[..k], PyInt(t[k + 1..])) else (t, None)
  {
  }

  lemma SingleColon(h: string, p: string)
    requires h == [] || h[0] != '['
    requires forall j :: 0 <= j < |h| ==> h[j] != ':'
    requires forall j :: 0 <= j < |p| ==> p[j] != ':'
    ensures var t := h + ":" + p; Count(t, ':') == 1 && t[0] != '['
  {
    CountZero(h, ':');
    CountZero(p, ':');
    CountAppend(h + ":", p, ':');
    CountAppend(h, ":", ':');
    assert Count(":", ':') == 1;
    if h != [] { assert (h + ":" + p)[0] == h[0]; }
  }

  /** Any integer after the single colon is taken as the port: negative
      numbers and numbers above 65535 included, up to the digit limit of
      `int()`. */
  lemma NoPortRangeCheck(h: string, port: int)
    requires h == [] || h[0] != '['
    requires forall j :: 0 <= j < |h| ==> h[j] != ':'
    requires WithinDigitLimit(port)
    ensures SplitHostPort(h + ":" + IntToString(port)) == (h, Some(port))
  {
    var p := IntToString(port);
    PyIntOfIntToString(port);
    IntToStringNoColon(port);
    HostColonPort(h, p);
  }

  /** A printed integer holds no colon. */
  lemma IntToStringNoColon(i: int)
    ensures forall j :: 0 <= j < |IntToString(i)| ==> IntToString(i)[j] != ':'
  {
    if i < 0 {
      var p := IntToString(i);
      assert forall j :: 1 <= j < |p| ==> p[j] == NatToString(-i)[j - 1];
    }
  }

  /** A port of more digits than `int()` converts is refused, so the whole
      target stays the host. */
  lemma PortTooLongRefused(h: string, p: string)
    requires h == [] || h[0] != '['
    requires forall j :: 0 <= j < |h| ==> h[j] != ':'
    requires AllDigits(p) && |p| > MaxStrDigits
    ensures SplitHostPort(h + ":" + p) == (h + ":" + p, None)
  {
    PyIntTooManyDigits(p);
    HostColonPort(h, p);
  }

  /** A target naming port 0 parses its port, but the TCP fallback then
      dials the default port instead, because 0 is false in Python. */
  lemma ZeroPortUsesDefault(h: string, default: int)
    requires h == [] || h[0] != '['
    requires forall j :: 0 <= j < |h| ==> h[j] != ':'
    ensures SplitHostPort(h + ":0") == (h, Some(0))
    ensures OrDefault(SplitHostPort(h + ":0").1, default) == default
  {
    ZeroText();
    NoPortRangeCheck(h, 0);
    assert h + ":" + IntToString(0) == h + ":0";
  }

  lemma ZeroText()
    ensures IntToString(0) == "0"
  {
  }

  /** A non-zero port given after the colon is the one the TCP fallback
      dials. */
  lemma ExplicitPortDialled(h: string, p: int, default: int)
    requires h == [] || h[0] != '['
    requires forall j :: 0 <= j < |h| ==> h[j] != ':'
    requires p != 0 && WithinDigitLimit(p)
    ensures OrDefault(SplitHostPort(h + ":" + IntToString(p)).1, default) == p
  {
    NoPortRangeCheck(h, p);
  }

  // ---------------------------------------------------------------------
  // The ICMP attempt

  /** The executable search list, in order. */
  const PingCandidates := ["ping", "/bin/ping", "/usr/bin/ping", "/sbin/ping", "/usr/sbin/ping"]

  predicate Resolves(which: map<string, string>, cand: string) {
    cand in which && which[cand] != ""
  }

  /** The index of the first candidate the executable lookup (`shutil.which`,
      given as the map `which`) resolves to a non-empty path. */
  function FirstResolved(cands: seq<string>, which: map<string, string>): (r: Option<nat>)
    ensures r.None? <==> forall k :: 0 <= k < |cands| ==> !Resolves(which, cands[k])
    ensures r.Some? ==> r.value < |cands| && Resolves(which, cands[r.value])
                        && forall j :: 0 <= j < r.value ==> !Resolves(which, cands[j])
  {
    if cands == [] then None
    else if Resolves(which, cands[0]) then Some(0)
    else match FirstResolved(cands[1..], which)
      case None => None
      case Some(k) => Some(k + 1)
  }

  /** `_find_ping`: the path of the first candidate that resolves. */
  function FindPing(which: map<string, string>): (r: Option<string>)
    ensures r.None? <==> forall k :: 0 <= k < |PingCandidates| ==> !Resolves(which, PingCandidates[k])
    ensures r.Some? ==> r.value != ""
  {
    match FirstResolved(PingCandidates, which)
    case None => None
    case Some(k) => Some(which[PingCandidates[k]])
  }

  /** True when the platform name (`platform.system()`) denotes Windows. */
  predicate IsWindows(osName: string) {
    Contains(Lower(osName), "windows")
  }

  /** The argument vector of the ping invocation: Windows takes the count
      with `-n` and the timeout in milliseconds with `-w`; every other
      platform takes `-c` and whole seconds with `-W`. */
  function PingCommand(path: string, osName: string, host: string, count: int, timeout: int): seq<string> {
    if IsWindows(osName) then [path, "-n", IntToString(count), "-w", IntToString(timeout * 1000), host]
    else [path, "-c", IntToString(count), "-W", IntToString(timeout), host]
  }

  /** What the utility reads from its arguments: the executable first and
      the host last; the count after its flag; the timeout after its flag,
      in milliseconds on Windows and in seconds elsewhere.  Each number
      reads back as the value passed in. */
  lemma PingCommandArguments(path: string, osName: string, host: string, count: int, timeout: int)
    requires WithinDigitLimit(count) && WithinDigitLimit(timeout * 1000)
    ensures var argv := PingCommand(path, osName, host, count, timeout);
            && |argv| == 6 && argv[0] == path && argv[5] == host
            && PyInt(argv[2]) == Some(count)
            && (IsWindows(osName) ==> argv[1] == "-n" && argv[3] == "-w" && PyInt(argv[4]) == Some(timeout * 1000))
            && (!IsWindows(osName) ==> argv[1] == "-c" && argv[3] == "-W" && PyInt(argv[4]) == Some(timeout))
  {
    var argv := PingCommand(path, osName, host, count, timeout);
    var c := IntToString(count);
    PyIntOfIntToString(count);
    if IsWindows(osName) {
      var w := IntToString(timeout * 1000);
      assert argv == [path, "-n", c, "-w", w, host];
      PyIntOfIntToString(timeout * 1000);
    } else {
      var w := IntToString(timeout);
      assert argv == [path, "-c", c, "-W", w, host];
      TimeoutWithinLimit(timeout);
      PyIntOfIntToString(timeout);
    }
  }

  /** Fewer digits for the seconds than for the milliseconds. */
  lemma TimeoutWithinLimit(timeout: int)
    requires WithinDigitLimit(timeout * 1000)
    ensures WithinDigitLimit(timeout)
  {
    var a := if timeout < 0 then -timeout else timeout;
    assert (if timeout * 1000 < 0 then -(timeout * 1000) else timeout * 1000) == a * 1000;
    NatToStringMonotone(a, a * 1000);
  }

  /** What running the ping utility did: it exited with a status and its
      captured output, or launching it raised. */
  datatype ProcOutcome = Exited(returnCode: int, stdout: string, stderr: string) | Raised(message: string)

  datatype IcmpRun = IcmpRun(ok: bool, stdout: string, stderr: string)

  const BinaryNotFound := "ping binary " + "not found" + " inside the container"

  /** `_icmp_ping`: `ok` holds exactly when the utility was found and exited
      with status 0. */
  function IcmpPing(path: Option<string>, proc: ProcOutcome): (r: IcmpRun)
    ensures r.ok <==> path.Some? && proc.Exited? && proc.returnCode == 0
    ensures path.None? ==> r == IcmpRun(false, "", BinaryNotFound)
    ensures path.Some? && proc.Raised? ==> r == IcmpRun(false, "", proc.message)
    ensures path.Some? && proc.Exited? ==> r.stdout == proc.stdout && r.stderr == proc.stderr
  {
    if path.None? then IcmpRun(false, "", BinaryNotFound)
    else match proc
      case Exited(code, out, err) => IcmpRun(code == 0, out, err)
      case Raised(msg) => IcmpRun(false, "", msg)
  }

  // ---------------------------------------------------------------------
  // Parsing the ICMP summary

  /** The groups of a packet-count match (POSIX or Windows dialect). */
  datatype PacketSummary = PacketSummary(transmitted: string, received: string, lossPct: string)
  datatype PosixRtt = PosixRtt(min: string, avg: string, max: string, mdev: string)
  datatype WindowsRtt = WindowsRtt(min: string, max: string, avg: string)

  /** The outcome of the four pattern searches over `stdout + "\n" + stderr`. */
  datatype IcmpMatches = IcmpMatches(
    posixPackets: Option<PacketSummary>, posixRtt: Option<PosixRtt>,
    windowsPackets: Option<PacketSummary>, windowsRtt: Option<WindowsRtt>)

  /** A Markdown table row: `| a | b | c |`. */
  function Row(cells: seq<string>): string {
    "| " + Join(" | ", cells) + " |"
  }

  /** Every table of the report opens with these two columns. */
  const TableStart := "| Type | Host | "
  const PosixHeader := TableStart + "Sent | Received | Loss | Min (ms) | Avg (ms) | Max (ms) | Mdev/Stddev (ms) |"
  const PosixRule := "|---|---|---:|---:|---:|---:|---:|---:|---:|"
  const WindowsHeader := TableStart + "Sent | Received | Loss | Min (ms) | Avg (ms) | Max (ms) |"
  const WindowsRule := "|---|---|---:|---:|---:|---:|---:|---:|"

  /** Nine cells, under `PosixHeader`. */
  function PosixCells(host: string, p: PacketSummary, rtt: Option<PosixRtt>): (cells: seq<string>)
    ensures |cells| == 9
  {
    ["ICMP", host, p.transmitted, p.received, p.lossPct + "%"]
    + match rtt
      case Some(t) => [t.min, t.avg, t.max, t.mdev]
      case None => ["-", "-", "-", "-"]
  }

  /** Eight cells, under `WindowsHeader` (Windows reports no deviation). */
  function WindowsCells(host: string, p: PacketSummary, rtt: Option<WindowsRtt>): (cells: seq<string>)
    ensures |cells| == 8
  {
    ["ICMP", host, p.transmitted, p.received, p.lossPct + "%"]
    + match rtt
      case Some(t) => [t.min, t.avg, t.max]
      case None => ["-", "-", "-"]
  }

  /** `_format_icmp_table`: the POSIX dialect is tried first, then Windows;
      `None` when neither packet summary was found. */
  function FormatIcmpTable(host: string, m: IcmpMatches): (r: Option<string>)
    ensures r.None? <==> m.posixPackets.None? && m.windowsPackets.None?
  {
    if m.posixPackets.Some? then
      Some(Join("\n", [PosixHeader, PosixRule, Row(PosixCells(host, m.posixPackets.value, m.posixRtt))]))
    else if m.windowsPackets.Some? then
      Some(Join("\n", [WindowsHeader, WindowsRule, Row(WindowsCells(host, m.windowsPackets.value, m.windowsRtt))]))
    else None
  }

  /** A POSIX packet summary takes precedence: whatever the Windows searches
      found is then irrelevant, and the table is the nine-column one. */
  lemma PosixTakesPrecedence(host: string, m: IcmpMatches, w: Option<PacketSummary>, wr: Option<WindowsRtt>)
    requires m.posixPackets.Some?
    ensures FormatIcmpTable(host, m) == FormatIcmpTable(host, m.(windowsPackets := w, windowsRtt := wr))
    ensures FormatIcmpTable(host, m) ==
            Some(Join("\n", [PosixHeader, PosixRule, Row(PosixCells(host, m.posixPackets.value, m.posixRtt))]))
  {
  }

  /** With an RTT match the timing columns show its values in the header's
      order: min, avg, max and, on POSIX, mdev.  The Windows match is read
      in its own order (min, max, avg) but shown as min, avg, max. */
  lemma RttRendered(host: string, p: PacketSummary, t: PosixRtt, w: WindowsRtt)
    ensures PosixCells(host, p, Some(t))[5..] == [t.min, t.avg, t.max, t.mdev]
    ensures WindowsCells(host, p, Some(w))[5..] == [w.min, w.avg, w.max]
    ensures PosixCells(host, p, Some(t))[..5] == WindowsCells(host, p, Some(w))[..5]
            == ["ICMP", host, p.transmitted, p.received, p.lossPct + "%"]
  {
  }

  /** Without a RTT match every timing column reads `-`; the counts still appear. */
  lemma MissingRttRendersDash(host: string, p: PacketSummary)
    ensures PosixCells(host, p, None)[5..] == ["-", "-", "-", "-"]
    ensures WindowsCells(host, p, None)[5..] == ["-", "-", "-"]
    ensures PosixCells(host, p, None)[..5] == WindowsCells(host, p, None)[..5]
            == ["ICMP", host, p.transmitted, p.received, p.lossPct + "%"]
  {
  }

  /** The minimal table for a successful ping whose output matched neither dialect. */
  function UnparsedTable(host: string): string {
    TableStart + "Note |\n|---|---|---|\n| ICMP | " + host + " | Success (unparsed output) |"
  }

  /** The report of a successful ping: the parsed table, or the minimal one. */
  function IcmpReport(host: string, m: IcmpMatches): string {
    match FormatIcmpTable(host, m)
    case Some(t) => t
    case None => UnparsedTable(host)
  }

  /** A successful ping always reports a Markdown table: whether or not its
      output was understood, the report opens with the Type and Host
      columns. */
  lemma IcmpReportIsTable(host: string, m: IcmpMatches)
    ensures StartsWith(IcmpReport(host, m), TableStart)
  {
    var r := IcmpReport(host, m);
    if m.posixPackets.Some? {
      var row := Row(PosixCells(host, m.posixPackets.value, m.posixRtt));
      JoinStartsWith("\n", [PosixHeader, PosixRule, row]);
      StartsWithTrans(r, PosixHeader, TableStart);
    } else if m.windowsPackets.Some? {
      var row := Row(WindowsCells(host, m.windowsPackets.value, m.windowsRtt));
      JoinStartsWith("\n", [WindowsHeader, WindowsRule, row]);
      StartsWithTrans(r, WindowsHeader, TableStart);
    } else {
      assert r == TableStart + ("Note |\n|---|---|---|\n| ICMP | " + host + " | Success (unparsed output) |");
    }
  }

  // ---------------------------------------------------------------------
  // The fallback rule

  /** The failure texts that mean "ICMP is not usable here" rather than
      "the host is unreachable". */
  const FallbackKeywords := ["not found", "operation not permitted", "permission denied", "cap_net_raw", "icmp"]

  /** First of stripped stderr, stripped stdout and `otherwise` that is non-empty. */
  function FirstNonBlank(err: string, out: string, otherwise: string): string {
    if Strip(err) != [] then Strip(err) else if Strip(out) != [] then Strip(out) else otherwise
  }

  function IcmpReason(out: string, err: string): string {
    Lower(FirstNonBlank(err, out, "ICMP ping failed"))
  }

  lemma ReasonOfErr(out: string, err: string)
    requires Strip(err) != []
    ensures IcmpReason(out, err) == Lower(Strip(err))
  {
  }

  /** The fallback to TCP is taken when the lower-cased reason contains any keyword. */
  predicate WantsTcpFallback(out: string, err: string) {
    ContainsAny(IcmpReason(out, err), FallbackKeywords)
  }

  lemma WantsTcpFallbackIff(out: string, err: string)
    ensures WantsTcpFallback(out, err) <==>
            exists k :: 0 <= k < |FallbackKeywords| && Contains(IcmpReason(out, err), FallbackKeywords[k])
  {
    ContainsAnyIff(IcmpReason(out, err), FallbackKeywords);
  }

  /** Blank output always falls back, because the default reason
      "ICMP ping failed" itself contains the keyword "icmp". */
  lemma BlankOutputFallsBack(out: string, err: string)
    requires AllSpace(out) && AllSpace(err)
    ensures WantsTcpFallback(out, err)
  {
    StripBlankIff(out);
    StripBlankIff(err);
    DefaultReasonHasIcmp();
    KeywordFallsBack(IcmpReason(out, err), 4);
  }

  lemma DefaultReasonHasIcmp()
    ensures Contains(Lower("ICMP ping failed"), "icmp")
  {
    DefaultReasonPieces();
    LowerIcmp();
    ContainsLowered([], "ICMP", " ping failed", "icmp");
  }

  lemma DefaultReasonPieces()
    ensures "ICMP ping failed" == [] + "ICMP" + " ping failed"
  {
  }

  lemma LowerIcmp()
    ensures Lower("ICMP") == "icmp"
  {
  }

  lemma KeywordFallsBack(reason: string, k: nat)
    requires k < |FallbackKeywords| && Contains(reason, FallbackKeywords[k])
    ensures ContainsAny(reason, FallbackKeywords)
  {
    ContainsAnyIff(reason, FallbackKeywords);
  }

  /** The missing-binary message falls back too: it contains "not found". */
  lemma MissingBinaryFallsBack(out: string)
    ensures WantsTcpFallback(out, BinaryNotFound)
  {
    var reason := IcmpReason(out, BinaryNotFound);
    BinaryNotFoundReason(out);
    BinaryNotFoundHasNotFound();
    assert Contains(reason, FallbackKeywords[0]);
    KeywordFallsBack(reason, 0);
  }

  lemma BinaryNotFoundReason(out: string)
    ensures IcmpReason(out, BinaryNotFound) == Lower(BinaryNotFound)
  {
    StripTrimmed(BinaryNotFound);
    ReasonOfErr(out, BinaryNotFound);
  }

  lemma BinaryNotFoundHasNotFound()
    ensures Contains(Lower(BinaryNotFound), "not found")
  {
    LowerNotFound();
    ContainsLowered("ping binary ", "not found", " inside the container", "not found");
  }

  lemma LowerNotFound()
    ensures Lower("not found") == "not found"
  {
    LowerNoUpper("not found");
  }

  /** The report for a genuine failure: the failure text itself. */
  function FailureReport(out: string, err: string): string {
    FirstNonBlank(err, out, "Ping failed")
  }

  /** A genuine failure is never reported as a blank text: the report is
      stderr or stdout without surrounding whitespace, preferring stderr,
      or "Ping failed" when both are blank. */
  lemma FailureReportTrimmed(out: string, err: string)
    ensures var r := FailureReport(out, err); r != [] && Strip(r) == r
    ensures !AllSpace(err) ==> FailureReport(out, err) == Strip(err)
    ensures AllSpace(err) && !AllSpace(out) ==> FailureReport(out, err) == Strip(out)
    ensures AllSpace(err) && AllSpace(out) ==> FailureReport(out, err) == "Ping failed"
  {
    StripBlankIff(err);
    StripBlankIff(out);
    var r := FailureReport(out, err);
    assert r != [];
    StripTrimmed(r);
  }

  // ---------------------------------------------------------------------
  // TCP connect timing

  /** The tool's effects on the outside world, in order. */
  datatype Action = RunPing(argv: seq<string>) | TcpConnect(host: string, port: int)

  /** One connection attempt: established after a latency in whole
      milliseconds, or failed with the exception text. */
  datatype ConnectOutcome = Connected(latencyMs: nat) | Failed(error: string)

  /** The latencies of the successful attempts, in order. */
  function Latencies(os: seq<ConnectOutcome>): seq<nat> {
    if os == [] then []
    else Latencies(os[..|os| - 1]) + match os[|os| - 1]
      case Connected(ms) => [ms]
      case Failed(_) => []
  }

  /** The error texts of the failed attempts, in order. */
  function Errors(os: seq<ConnectOutcome>): seq<string> {
    if os == [] then []
    else Errors(os[..|os| - 1]) + match os[|os| - 1]
      case Connected(_) => []
      case Failed(e) => [e]
  }

  /** Every attempt lands in exactly one of the two lists. */
  lemma {:induction false} LatenciesErrorsPartition(os: seq<ConnectOutcome>)
    ensures |Latencies(os)| + |Errors(os)| == |os|
  {
    if os != [] { LatenciesErrorsPartition(os[..|os| - 1]); }
  }

  lemma {:induction false} AllFailedNoLatencies(os: seq<ConnectOutcome>)
    requires forall i :: 0 <= i < |os| ==> os[i].Failed?
    ensures Latencies(os) == [] && |Errors(os)| == |os|
  {
    if os != [] {
      AllFailedNoLatencies(os[..|os| - 1]);
    }
  }

  /** How many times a loop over `attempts` runs: none when it is negative. */
  function Iterations(attempts: int): nat {
    if attempts < 0 then 0 else attempts
  }

  /** `_tcp_ping`: one connect per iteration, the i-th one having outcome
      `outcomes[i]`; each appends to exactly one of the two lists. */
  method TcpPing(host: string, port: int, attempts: int, outcomes: seq<ConnectOutcome>)
    returns (samples: seq<nat>, errors: seq<string>, dialled: seq<Action>)
    requires Iterations(attempts) <= |outcomes|
    ensures samples == Latencies(outcomes[..Iterations(attempts)])
    ensures errors == Errors(outcomes[..Iterations(attempts)])
    ensures |samples| + |errors| == Iterations(attempts)
    ensures dialled == seq(Iterations(attempts), _ => TcpConnect(host, port))
  {
    samples, errors, dialled := [], [], [];
    var n := Iterations(attempts);
    var i := 0;
    while i < n
      invariant 0 <= i <= n
      invariant samples == Latencies(outcomes[..i])
      invariant errors == Errors(outcomes[..i])
      invariant dialled == seq(i, _ => TcpConnect(host, port))
    {
      dialled := dialled + [TcpConnect(host, port)];
      assert outcomes[..i + 1][..i] == outcomes[..i];
      match outcomes[i] {
        case Connected(ms) => samples := samples + [ms];
        case Failed(e) => errors := errors + [e];
      }
      i := i + 1;
    }
    assert outcomes[..n] == outcomes[..i];
    LatenciesErrorsPartition(outcomes[..n]);
  }

  // ---------------------------------------------------------------------
  // The TCP report

  function MinOf(s: seq<nat>): (m: nat)
    requires s != []
    ensures m in s && forall x :: x in s ==> m <= x
  {
    if |s| == 1 then s[0]
    else
      var rest := MinOf(s[1..]);
      assert forall x :: x in s ==> x == s[0] || x in s[1..];
      if s[0] <= rest then s[0] else rest
  }

  function MaxOf(s: seq<nat>): (m: nat)
    requires s != []
    ensures m in s && forall x :: x in s ==> x <= m
  {
    if |s| == 1 then s[0]
    else
      var rest := MaxOf(s[1..]);
      assert forall x :: x in s ==> x == s[0] || x in s[1..];
      if s[0] >= rest then s[0] else rest
  }

  function SumOf(s: seq<nat>): nat {
    if s == [] then 0 else s[0] + SumOf(s[1..])
  }

  /** `sum(s) / len(s)` */
  function Mean(s: seq<nat>): real
    requires s != []
  {
    SumOf(s) as real / |s| as real
  }

  lemma {:induction false} SumBounds(s: seq<nat>, lo: nat, hi: nat)
    requires forall x :: x in s ==> lo <= x <= hi
    ensures |s| * lo <= SumOf(s) <= |s| * hi
  {
    if s != [] {
      var n := |s| - 1;
      assert s[0] in s;
      assert forall x :: x in s[1..] ==> x in s;
      SumBounds(s[1..], lo, hi);
      MulSucc(n, lo);
      MulSucc(n, hi);
    }
  }

  lemma MulSucc(n: nat, x: nat)
    ensures (n + 1) * x == n * x + x
  {
  }

  lemma QuotientBounds(a: real, b: real, c: real, n: real)
    requires n > 0.0 && n * a <= b <= n * c
    ensures a <= b / n <= c
  {
  }

  /** The average latency lies between the fastest and the slowest. */
  lemma MeanBetween(s: seq<nat>)
    requires s != []
    ensures MinOf(s) as real <= Mean(s) <= MaxOf(s) as real
  {
    MeanWithin(s, MinOf(s), MaxOf(s));
  }

  lemma MeanWithin(s: seq<nat>, lo: nat, hi: nat)
    requires s != [] && forall x :: x in s ==> lo <= x <= hi
    ensures lo as real <= Mean(s) <= hi as real
  {
    SumBounds(s, lo, hi);
    CastBounds(|s|, lo, SumOf(s), hi);
    QuotientBounds(lo as real, SumOf(s) as real, hi as real, |s| as real);
  }

  lemma CastBounds(n: nat, lo: nat, sum: nat, hi: nat)
    requires n * lo <= sum <= n * hi
    ensures n as real * lo as real <= sum as real <= n as real * hi as real
  {
    MulCast(n, lo);
    MulCast(n, hi);
  }

  lemma MulCast(a: nat, b: nat)
    ensures (a * b) as real == a as real * b as real
  {
  }

  /** The summary row: success is the number of samples, fail is the rest of
      the attempts; min/avg/max are formatted with one decimal by `fmt1`, and
      read `nan` when no attempt succeeded. */
  function SummaryCells(host: string, port: int, samples: seq<nat>, attempts: int, fmt1: real -> string): (cells: seq<string>)
    ensures |cells| == 9
  {
    var ok := |samples|;
    var stats :=
      if samples == [] then ["nan", "nan", "nan"]
      else [fmt1(MinOf(samples) as real), fmt1(Mean(samples)), fmt1(MaxOf(samples) as real)];
    ["TCP", host, IntToString(port), IntToString(attempts), IntToString(ok), IntToString(attempts - ok)] + stats
  }

  /** The summary row names the protocol and the host, and its port and
      attempts read back as the values dialled; with some samples, its
      timing cells are the formatted minimum, mean and maximum. */
  lemma SummaryCellsValues(host: string, port: int, samples: seq<nat>, attempts: int, fmt1: real -> string)
    requires WithinDigitLimit(port) && WithinDigitLimit(attempts)
    ensures var c := SummaryCells(host, port, samples, attempts, fmt1);
            && c[0] == "TCP" && c[1] == host
            && PyInt(c[2]) == Some(port) && PyInt(c[3]) == Some(attempts)
            && (samples != [] ==>
                  c[6] == fmt1(MinOf(samples) as real) && c[7] == fmt1(Mean(samples))
                  && c[8] == fmt1(MaxOf(samples) as real))
  {
    var c := SummaryCells(host, port, samples, attempts, fmt1);
    assert c[2] == IntToString(port) && c[3] == IntToString(attempts);
    PyIntOfIntToString(port);
    PyIntOfIntToString(attempts);
  }

  const TcpHeader := "| Type | Host | Port | Attempts | Success | Fail | Min (ms) | Avg (ms) | Max (ms) |"
  const TcpRule := "|---|---|---:|---:|---:|---:|---:|---:|---:|"
  const AttemptHeader := "| Attempt | Latency (ms) |"
  const AttemptRule := "|---:|---:|"
  const NoSampleRow := "| 1 | failed |"
  const ErrorHeader := "| Errors |"
  const ErrorRule := "|---|"

  /** One row per sample, numbered from 1. */
  function SampleRows(samples: seq<nat>, fmt1: real -> string): (rows: seq<string>)
    ensures |rows| == |samples|
    ensures forall i :: 0 <= i < |samples| ==> rows[i] == Row([NatToString(i + 1), fmt1(samples[i] as real)])
  {
    if samples == [] then []
    else SampleRows(samples[..|samples| - 1], fmt1) + [Row([NatToString(|samples|), fmt1(samples[|samples| - 1] as real)])]
  }

  /** One row per error text. */
  function ErrorRows(errors: seq<string>): (rows: seq<string>)
    ensures |rows| == |errors|
    ensures forall i :: 0 <= i < |errors| ==> rows[i] == Row([errors[i]])
  {
    if errors == [] then [] else ErrorRows(errors[..|errors| - 1]) + [Row([errors[|errors| - 1]])]
  }

  function Min(a: int, b: int): int { if a <= b then a else b }

  /** The per-attempt block, present only when more than one attempt was asked for. */
  function AttemptSection(samples: seq<nat>, attempts: int, fmt1: real -> string): seq<string> {
    if attempts > 1 then
      ["", AttemptHeader, AttemptRule] + (if samples != [] then SampleRows(samples, fmt1) else [NoSampleRow])
    else []
  }

  /** The error block, present only when some attempt failed; at most three rows. */
  function ErrorSection(errors: seq<string>): seq<string> {
    if errors != [] then ["", ErrorHeader, ErrorRule] + ErrorRows(errors[..Min(3, |errors|)]) else []
  }

  /** The rows of the TCP report, in order. */
  function TcpRows(host: string, port: int, samples: seq<nat>, attempts: int, errors: seq<string>, fmt1: real -> string): seq<string> {
    [TcpHeader, TcpRule, Row(SummaryCells(host, port, samples, attempts, fmt1))]
    + AttemptSection(samples, attempts, fmt1) + ErrorSection(errors)
  }

  /** The per-attempt block: for more than one attempt, a blank line, two
      header rows and one row per sample, or the single "failed" row. */
  lemma AttemptSectionShape(samples: seq<nat>, attempts: int, fmt1: real -> string)
    ensures var att := AttemptSection(samples, attempts, fmt1);
            && |att| == (if attempts > 1 then 3 + (if samples == [] then 1 else |samples|) else 0)
            && (attempts > 1 && samples != [] ==>
                  forall i :: 0 <= i < |samples| ==> att[3 + i] == Row([NatToString(i + 1), fmt1(samples[i] as real)]))
            && (attempts > 1 && samples == [] ==> att[3] == NoSampleRow)
  {
    var att := AttemptSection(samples, attempts, fmt1);
    if attempts > 1 && samples != [] {
      var rows := SampleRows(samples, fmt1);
      assert att == ["", AttemptHeader, AttemptRule] + rows;
      forall i | 0 <= i < |samples| ensures att[3 + i] == Row([NatToString(i + 1), fmt1(samples[i] as real)]) {
        assert att[3 + i] == rows[i];
      }
    }
  }

  /** The error block: when some attempt failed, a blank line, two header
      rows and the first three errors at most. */
  lemma ErrorSectionShape(errors: seq<string>)
    ensures var err := ErrorSection(errors);
            && |err| == (if errors == [] then 0 else 3 + Min(3, |errors|))
            && forall i :: 0 <= i < Min(3, |errors|) ==> err[3 + i] == Row([errors[i]])
  {
    if errors != [] {
      var shown := errors[..Min(3, |errors|)];
      var err := ErrorSection(errors);
      var rows := ErrorRows(shown);
      assert err == ["", ErrorHeader, ErrorRule] + rows;
      forall i | 0 <= i < Min(3, |errors|) ensures err[3 + i] == Row([errors[i]]) {
        assert err[3 + i] == rows[i];
        assert shown[i] == errors[i];
      }
    }
  }

  /** The shape of the whole TCP report: the three summary rows, then the
      per-attempt block, then the error block. */
  lemma TcpRowsShape(host: string, port: int, samples: seq<nat>, attempts: int, errors: seq<string>, fmt1: real -> string)
    ensures var rows := TcpRows(host, port, samples, attempts, errors, fmt1);
            var a := if attempts > 1 then 3 + (if samples == [] then 1 else |samples|) else 0;
            var e := if errors == [] then 0 else 3 + Min(3, |errors|);
            && |rows| == 3 + a + e
            && rows[..3] == [TcpHeader, TcpRule, Row(SummaryCells(host, port, samples, attempts, fmt1))]
            && (attempts > 1 && samples != [] ==>
                  forall i :: 0 <= i < |samples| ==> rows[6 + i] == Row([NatToString(i + 1), fmt1(samples[i] as real)]))
            && (attempts > 1 && samples == [] ==> rows[6] == NoSampleRow)
            && (forall i :: 0 <= i < Min(3, |errors|) ==> rows[3 + a + 3 + i] == Row([errors[i]]))
  {
    var head := [TcpHeader, TcpRule, Row(SummaryCells(host, port, samples, attempts, fmt1))];
    var att := AttemptSection(samples, attempts, fmt1);
    var err := ErrorSection(errors);
    AttemptSectionShape(samples, attempts, fmt1);
    ErrorSectionShape(errors);
    assert TcpRows(host, port, samples, attempts, errors, fmt1) == head + att + err;
    SectionsShape(head, att, err, samples, attempts, errors, fmt1);
  }

  lemma SectionsShape(head: seq<string>, att: seq<string>, err: seq<string>,
                      samples: seq<nat>, attempts: int, errors: seq<string>, fmt1: real -> string)
    requires |head| == 3
    requires |att| == (if attempts > 1 then 3 + (if samples == [] then 1 else |samples|) else 0)
    requires attempts > 1 && samples != [] ==>
               forall i :: 0 <= i < |samples| ==> att[3 + i] == Row([NatToString(i + 1), fmt1(samples[i] as real)])
    requires attempts > 1 && samples == [] ==> att[3] == NoSampleRow
    requires |err| == (if errors == [] then 0 else 3 + Min(3, |errors|))
    requires forall i :: 0 <= i < Min(3, |errors|) ==> err[3 + i] == Row([errors[i]])
    ensures var rows := head + att + err;
            && |rows| == 3 + |att| + |err|
            && rows[..3] == head
            && (attempts > 1 && samples != [] ==>
                  forall i :: 0 <= i < |samples| ==> rows[6 + i] == Row([NatToString(i + 1), fmt1(samples[i] as real)]))
            && (attempts > 1 && samples == [] ==> rows[6] == NoSampleRow)
            && (forall i :: 0 <= i < Min(3, |errors|) ==> rows[3 + |att| + 3 + i] == Row([errors[i]]))
  {
    Concat3(head, att, err);
  }

  lemma Concat3<T>(h: seq<T>, a: seq<T>, e: seq<T>)
    ensures |h + a + e| == |h| + |a| + |e| && (h + a + e)[..|h|] == h
    ensures forall i :: 0 <= i < |a| ==> (h + a + e)[|h| + i] == a[i]
    ensures forall i :: 0 <= i < |e| ==> (h + a + e)[|h| + |a| + i] == e[i]
  {
    assert (h + a + e)[..|h|] == h;
  }

  /** After `TcpPing`, the Success and Fail cells count the samples and the
      errors, and when every attempt failed min/avg/max read `nan`. */
  lemma TcpSummaryCounts(host: string, port: int, attempts: int, outcomes: seq<ConnectOutcome>, fmt1: real -> string)
    requires 0 <= attempts <= |outcomes|
    ensures var samples := Latencies(outcomes[..attempts]);
            var cells := SummaryCells(host, port, samples, attempts, fmt1);
            && cells[4] == IntToString(|samples|)
            && cells[5] == IntToString(|Errors(outcomes[..attempts])|)
            && ((forall i :: 0 <= i < attempts ==> outcomes[i].Failed?) ==>
                  cells[4] == "0" && cells[5] == IntToString(attempts) && cells[6..] == ["nan", "nan", "nan"])
  {
    LatenciesErrorsPartition(outcomes[..attempts]);
    if forall i :: 0 <= i < attempts ==> outcomes[i].Failed? {
      AllFailedNoLatencies(outcomes[..attempts]);
    }
  }

  /** `_format_tcp_table`: the rows are appended one by one and joined with newlines. */
  method FormatTcpTable(host: string, port: int, samples: seq<nat>, attempts: int, errors: seq<string>, fmt1: real -> string)
    returns (table: string)
    ensures table == Join("\n", TcpRows(host, port, samples, attempts, errors, fmt1))
  {
    var rows := [TcpHeader, TcpRule, Row(SummaryCells(host, port, samples, attempts, fmt1))];
    rows := AppendAttemptRows(rows, samples, attempts, fmt1);
    rows := AppendErrorRows(rows, errors);
    table := Join("\n", rows);
  }

  /** The per-attempt part of `_format_tcp_table`. */
  method AppendAttemptRows(rows0: seq<string>, samples: seq<nat>, attempts: int, fmt1: real -> string)
    returns (rows: seq<string>)
    ensures rows == rows0 + AttemptSection(samples, attempts, fmt1)
  {
    rows := rows0;
    if attempts > 1 {
      var intro := ["", AttemptHeader, AttemptRule];
      rows := rows + intro;
      if samples != [] {
        var i := 0;
        while i < |samples|
          invariant 0 <= i <= |samples|
          invariant rows == rows0 + intro + SampleRows(samples[..i], fmt1)
        {
          SampleRowsSnoc(samples, i, fmt1);
          var row := Row([NatToString(i + 1), fmt1(samples[i] as real)]);
          AppendAssoc(rows0 + intro, SampleRows(samples[..i], fmt1), [row]);
          rows := rows + [row];
          i := i + 1;
        }
        assert samples[..i] == samples;
        AppendAssoc(rows0, intro, SampleRows(samples, fmt1));
      } else {
        AppendAssoc(rows0, intro, [NoSampleRow]);
        rows := rows + [NoSampleRow];
      }
    } else {
      assert rows0 + [] == rows0;
    }
  }

  lemma SampleRowsSnoc(samples: seq<nat>, i: nat, fmt1: real -> string)
    requires i < |samples|
    ensures SampleRows(samples[..i + 1], fmt1) == SampleRows(samples[..i], fmt1) + [Row([NatToString(i + 1), fmt1(samples[i] as real)])]
  {
    assert samples[..i + 1][..i] == samples[..i];
  }

  lemma ErrorRowsSnoc(errors: seq<string>, k: nat)
    requires k < |errors|
    ensures ErrorRows(errors[..k + 1]) == ErrorRows(errors[..k]) + [Row([errors[k]])]
  {
    assert errors[..k + 1][..k] == errors[..k];
  }

  /** The error part of `_format_tcp_table`: one row for each of the first
      three errors. */
  method AppendErrorRows(rows0: seq<string>, errors: seq<string>) returns (rows: seq<string>)
    ensures rows == rows0 + ErrorSection(errors)
  {
    rows := rows0;
    if errors != [] {
      var intro := ["", ErrorHeader, ErrorRule];
      rows := rows + intro;
      var shown := errors[..Min(3, |errors|)];
      var k := 0;
      while k < |shown|
        invariant 0 <= k <= |shown|
        invariant rows == rows0 + intro + ErrorRows(shown[..k])
      {
        ErrorRowsSnoc(shown, k);
        var row := Row([shown[k]]);
        AppendAssoc(rows0 + intro, ErrorRows(shown[..k]), [row]);
        rows := rows + [row];
        k := k + 1;
      }
      assert shown[..k] == shown;
      AppendAssoc(rows0, intro, ErrorRows(shown));
    } else {
      assert rows0 + [] == rows0;
    }
  }

  // ---------------------------------------------------------------------
  // The whole probe

  /** Everything the probe observes: the platform name, the executable
      lookup, the ping run, what the ping output's pattern searches found,
      and the outcome of each connection attempt. */
  datatype Environment = Environment(
    osName: string, which: map<string, string>, process: ProcOutcome,
    matches: IcmpMatches, connects: seq<ConnectOutcome>)

  /** Python's `x or default` on an optional integer: a missing value and a
      0, both false, give the default.  The result is one of the two, and
      never 0 unless the default is. */
  function OrDefault(x: Option<int>, default: int): (r: int)
    ensures r == default || (x.Some? && r == x.value)
    ensures x.Some? && x.value != 0 ==> r == x.value
    ensures r == 0 ==> default == 0
  {
    if x.Some? && x.value != 0 then x.value else default
  }

  /** The ping invocation, if the utility was found. */
  function IcmpActions(valves: Valves, host: string, count: Option<int>, timeout: Option<int>, env: Environment): seq<Action> {
    match FindPing(env.which)
    case None => []
    case Some(path) =>
      [RunPing(PingCommand(path, env.osName, host, OrDefault(count, valves.packetCount), OrDefault(timeout, valves.timeoutSeconds)))]
  }

  /** An explicit non-zero count and timeout are the ones the ping
      utility is given; a missing or zero one falls back to the valve. */
  lemma ExplicitCountAndTimeoutUsed(valves: Valves, host: string, count: Option<int>, timeout: Option<int>, env: Environment)
    requires FindPing(env.which).Some?
    ensures var n := if count.Some? && count.value != 0 then count.value else valves.packetCount;
            var t := if timeout.Some? && timeout.value != 0 then timeout.value else valves.timeoutSeconds;
            IcmpActions(valves, host, count, timeout, env)
            == [RunPing(PingCommand(FindPing(env.which).value, env.osName, host, n, t))]
  {
  }

  /** The TCP report built from the first `tcpAttempts` connect outcomes. */
  function TcpReport(valves: Valves, host: string, port: int, env: Environment, fmt1: real -> string): string
    requires Iterations(valves.tcpAttempts) <= |env.connects|
  {
    var os := env.connects[..Iterations(valves.tcpAttempts)];
    Join("\n", TcpRows(host, port, Latencies(os), valves.tcpAttempts, Errors(os), fmt1))
  }

  /** `ping`: sanitise, split, try ICMP once; on success report its table
      (or the minimal "unparsed" table); on failure either fall back to TCP
      timing against the parsed port (or the default port) or return the
      failure text. */
  method Probe(valves: Valves, target: string, count: Option<int>, timeout: Option<int>, env: Environment, fmt1: real -> string)
    returns (report: string, actions: seq<Action>)
    requires Iterations(valves.tcpAttempts) <= |env.connects|
    ensures Sanitize(target).None? ==> report == InvalidTarget && actions == []
    ensures Sanitize(target).Some? ==>
      var hp := SplitHostPort(Sanitize(target).value);
      ProbeOutcome(valves, hp.0, hp.1, count, timeout, env, fmt1, report, actions)
  {
    var sanitized := Sanitize(target);
    if sanitized.None? {
      return InvalidTarget, [];
    }
    var (host, port) := SplitHostPort(sanitized.value);
    report, actions := ProbeHost(valves, host, port, count, timeout, env, fmt1);
  }

  /** What the probe of a split target reports and does: the ICMP table when
      the ping succeeded; otherwise the TCP report and one connect per attempt
      when the failure text asks for the fallback, or the failure text itself. */
  ghost predicate ProbeOutcome(valves: Valves, host: string, port: Option<int>, count: Option<int>, timeout: Option<int>,
                               env: Environment, fmt1: real -> string, report: string, actions: seq<Action>)
    requires Iterations(valves.tcpAttempts) <= |env.connects|
  {
    var run := IcmpPing(FindPing(env.which), env.process);
    var icmp := IcmpActions(valves, host, count, timeout, env);
    var p := OrDefault(port, valves.tcpDefaultPort);
    && (run.ok ==> report == IcmpReport(host, env.matches) && actions == icmp)
    && (!run.ok && WantsTcpFallback(run.stdout, run.stderr) ==>
          report == TcpReport(valves, host, p, env, fmt1)
          && actions == icmp + seq(Iterations(valves.tcpAttempts), _ => TcpConnect(host, p)))
    && (!run.ok && !WantsTcpFallback(run.stdout, run.stderr) ==>
          report == FailureReport(run.stdout, run.stderr) && actions == icmp)
  }

  /** The TCP fallback: time the connects, then format their table. */
  method TcpProbe(valves: Valves, host: string, port: int, env: Environment, fmt1: real -> string)
    returns (report: string, dialled: seq<Action>)
    requires Iterations(valves.tcpAttempts) <= |env.connects|
    ensures report == TcpReport(valves, host, port, env, fmt1)
    ensures dialled == seq(Iterations(valves.tcpAttempts), _ => TcpConnect(host, port))
  {
    var samples, errors;
    samples, errors, dialled := TcpPing(host, port, valves.tcpAttempts, env.connects);
    report := FormatTcpTable(host, port, samples, valves.tcpAttempts, errors, fmt1);
  }

  /** The part of `ping` after the target is split. */
  method ProbeHost(valves: Valves, host: string, port: Option<int>, count: Option<int>, timeout: Option<int>,
                   env: Environment, fmt1: real -> string)
    returns (report: string, actions: seq<Action>)
    requires Iterations(valves.tcpAttempts) <= |env.connects|
    ensures ProbeOutcome(valves, host, port, count, timeout, env, fmt1, report, actions)
  {
    var n := OrDefault(count, valves.packetCount);
    var t := OrDefault(timeout, valves.timeoutSeconds);
    var path := FindPing(env.which);
    actions := if path.Some? then [RunPing(PingCommand(path.value, env.osName, host, n, t))] else [];
    assert actions == IcmpActions(valves, host, count, timeout, env);
    var run := IcmpPing(path, env.process);
    if run.ok {
      var table := FormatIcmpTable(host, env.matches);
      if table.Some? {
        report := table.value;
      } else {
        report := UnparsedTable(host);
      }
      return;
    }
    if WantsTcpFallback(run.stdout, run.stderr) {
      var p := OrDefault(port, valves.tcpDefaultPort);
      var dialled;
      report, dialled := TcpProbe(valves, host, p, env, fmt1);
      actions := actions + dialled;
      return;
    }
    report := FailureReport(run.stdout, run.stderr);
  }
}
