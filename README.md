# Open WebUI tools: a verified model of the decision logic

This project models three of the chat tools of the Open WebUI tool collection.
It covers the parts of each tool that decide things. The network, the
subprocess and the clock become inputs.

- **Ping** (`ping.py`), in module `Ping` (`ping.dfy`). The target is
  sanitised against an allow-list and split into host and optional port.
  The ICMP attempt and the parsing of its POSIX or Windows summary follow.
  When ICMP fails for a reason that says ICMP is unusable, the tool falls
  back to timing TCP connects and builds a Markdown report from them.
  `use_ping` only calls `ping` with the default count and timeout, which
  is `Ping.Probe` with `count` and `timeout` both `None`.
- **Flight lookup** (`flight-info.py`), in module `Flight` (`flight.dfy`).
  A flight number is cleaned and its ICAO alias is derived from the
  IATA-to-ICAO airline table. The freshest aircraft of each provider
  response is chosen, with a last-position fallback for the coordinates.
  The scan asks the providers in order, keeps the freshest hit within a
  provider, and stops at the first provider that has one. The result
  record follows, with its `on_ground` flag and the optional map link.
- **Weather forecast** (`weather.py`), in module `Weather`
  (`weather.dfy`). It covers the day-count clamp, the WMO weather-code
  lookup with its `Code …` fallback, and the 16-point compass direction of
  a wind bearing. It also covers the loop that renders one line per
  forecast day, with per-index defaults for short arrays, and the bulleted
  block with its empty-data text.

Module `Text` (`text.dfy`) holds the Python string built-ins these tools
rely on. These are `str.strip`, ASCII `lower` and `upper`, `in` on
strings, `count`, `find`, `join`, `str()` of integers, and `int()` on a
string. `int()` accepts surrounding whitespace, a sign, and a digit body
with single underscores between digits.

Imperative code keeps its form. Each of these is a method proved against a
specification function, with a loop where the source has one:

- `_tcp_ping` (`Ping.TcpPing`);
- the row appends of `_format_tcp_table` (`Ping.FormatTcpTable`, whose
  two loops are `Ping.AppendAttemptRows` and `Ping.AppendErrorRows`);
- the set building of `_candidates` (`Flight.Candidates`);
- the lat/lon reassignment of `_query_callsign` (`Flight.QueryCallsign`);
- the nested provider and candidate loops of `use_flight`
  (`Flight.AskProvider`, `Flight.ScanProviders`, `Flight.UseFlight`);
- the daily-line loop of `weather_forecast` (`Weather.ForecastLines`).

The external effects are inputs or traces:

- **Ping.** The executable lookup, the platform name, the ping process's
  outcome, the four pattern searches and the outcome of each TCP connect
  are one `Ping.Environment` value. The probe returns its report and the
  trace of what it did: the ping invocation and one connect per attempt.
- **Flight.** The decoded provider responses are a function `fetch` from
  provider and callsign to an optional aircraft list. The scan returns
  the queries it made, in order.
- **Formatting.** Float formatting (`:.1f`, `:.4f`) is a parameter
  (`fmt1`, `fmt4`). So is the weekday label of a date.

## Model

| member | source | states |
|---|---|---|
| Text.Strip | ping.py:35 | `strip()` never lengthens a string. A non-empty result starts and ends with a non-whitespace character. |
| Text.StripSlice | ping.py:35 | The stripped string is a contiguous slice of the input. Everything before and after it is whitespace. |
| Text.StripBlankIff | ping.py:36 | The stripped string is empty exactly when the input is all whitespace. |
| Text.StripNoSpace | ping.py:35 | A string without whitespace is its own `strip()`. |
| Text.StripPadded | ping.py:35 | `strip()` removes exactly the whitespace padding around a string that neither starts nor ends with whitespace. |
| Text.StripTrimmed | ping.py:255 | A string with no whitespace at either end is its own `strip()`. |
| Text.IsSpaceExamples | ping.py:35 | Python's whitespace includes the vertical tab, form feed, no-break space, line separator and ideographic space. It excludes the zero-width space, the byte-order mark, letters and `_`. |
| Text.StripUnicodeSpace | ping.py:35 | `strip()` also removes an ideographic space in front and a no-break space and newline behind. |
| Text.Lower | ping.py:255 | `lower()` keeps the length and maps each character by the ASCII lower-case map. |
| Text.Upper | flight-info.py:19 | `upper()` keeps the length and maps each character by the ASCII upper-case map. |
| Text.LowerNoUpper | ping.py:255 | A string without capitals is unchanged by `lower()`. |
| Text.LowerAppend | ping.py:255 | Lower-casing distributes over concatenation. |
| Text.ContainsIff | ping.py:258 | `needle in hay` holds exactly when the needle occurs at some index of the haystack. |
| Text.ContainsLowered | ping.py:255-258 | A piece that lower-cases to `lb` leaves `lb` inside the lower-cased whole. |
| Text.ContainsAnyIff | ping.py:257-266 | `any(k in reason for k in keywords)` holds exactly when some keyword occurs in the reason. |
| Text.JoinStartsWith | ping.py:122-141 | A joined text begins with its first part. |
| Text.JoinLines | weather.py:257-259 | Joining break-free lines with newlines gives exactly one break between neighbours, so one line per part. |
| Text.CountAppend | ping.py:52 | `count(':')` of a concatenation is the sum of the counts. |
| Text.CountZero | ping.py:52 | The count is zero exactly when no character is a colon. |
| Text.IndexOf | ping.py:44 | The first occurrence of a character, or none when it does not occur. |
| Text.IndexOfAfter | ping.py:44 | In `h + "]" + rest` with no `]` in `h`, the first `]` is at index `|h|`. |
| Text.NatToString | ping.py:209 | `str(n)` of a natural number is a non-empty string of digits. |
| Text.NatToStringValue | ping.py:209 | Reading back the digits of `str(n)` gives `n`. |
| Text.NatToStringMonotone | ping.py:87-89 | A larger number never prints with fewer digits. |
| Text.IntToStringInjective | weather.py:153 | Different integers print as different texts. |
| Text.DecimalBodyDigits | ping.py:59 | A digit body `int()` accepts, with its underscores removed, is a non-empty digit string. |
| Text.DigitsDecimalBody | ping.py:59 | Every non-empty digit string is a body `int()` accepts. |
| Text.DecimalBodyGrammar | ping.py:59 | The body grammar `int()` reads from the left accepts exactly the strings of digits and underscores whose ends are digits and whose every underscore sits between two digits. |
| Text.ParseBodyGrammar | ping.py:59 | A body parses exactly when it follows that grammar and has at most 4300 digits. Its value is that of its digits read without the underscores. |
| Text.ParseBodyExamples | ping.py:59 | `1_000` reads as 1000. `1__0`, `10_` and `_1` are refused. |
| Text.PyInt | ping.py:46 | `int()` refuses a blank string. |
| Text.PyIntNoSpace | ping.py:59 | Without whitespace, `int()` is the sign-and-body parse. |
| Text.PyIntOfDigits | ping.py:59 | `int()` of a digit string of at most 4300 digits is its decimal value. |
| Text.PyIntOfNegDigits | ping.py:59 | `int("-" + digits)` is the negated decimal value, for at most 4300 digits. |
| Text.PyIntOfIntToString | ping.py:59 | `int(str(i)) == i` for every integer of at most 4300 digits, negative ones included. |
| Text.PyIntTooManyDigits | ping.py:59 | A digit string longer than 4300 digits is refused by `int()`. |
| Ping.SanitizePadded | ping.py:31-38 | A non-empty allow-listed target with whitespace around it is accepted as the target without the whitespace. |
| Ping.AllowedNoSpace | ping.py:31 | An allow-listed string holds no whitespace. |
| Ping.SanitizeIdempotent | ping.py:34-38 | An accepted target is non-empty, allow-listed, whitespace-free, and accepted unchanged a second time. |
| Ping.SanitizeAllowListed | ping.py:34-38 | A non-empty allow-listed target is accepted unchanged. |
| Ping.SanitizeRefusesOutsider | ping.py:34-38 | A target holding a character that is neither whitespace nor allow-listed is refused, wherever it sits and whatever whitespace surrounds it. |
| Ping.SanitizeRefusesBlank | ping.py:35-37 | A blank target is refused. |
| Ping.SanitizeRefusesInjection | ping.py:34-38 | `;rm -rf /` is refused. |
| Ping.SplitHostPort | ping.py:40-62 | A found port is `int()` of the text after the colon (after `]:` for a bracketed target), and the host is the text before it. Without a port, an unbracketed target is its own host. |
| Ping.SplitBracketed | ping.py:42-49 | For a bracketed target, a found port is `int()` of the text after `]:`, and the host is the text between the brackets. |
| Ping.SplitAfterBracket | ping.py:44-47 | With the closing bracket known, a port is taken only after `]:` and only when `int()` accepts it. |
| Ping.SplitAtColon | ping.py:56-61 | A found port is `int()` of the text after the colon, and the host is the prefix. A refused port keeps the whole target. |
| Ping.SplitHostPortRecompose | ping.py:40-62 | A split that found a port can be undone: the target is host, colon and port text (inside brackets for the bracketed form). |
| Ping.BracketedWithPort | ping.py:44-46 | `[h]:p` with `int(p)` defined gives `(h, int(p))`. |
| Ping.BracketedWithoutPort | ping.py:44-47 | `[h]`, or `[h]` followed by a non-colon, gives `(h, None)`. |
| Ping.BracketedUnclosed | ping.py:43-49 | A target with no closing bracket gives `(target, None)`. |
| Ping.BracketedBadPort | ping.py:46-49 | `[h]:p` with a port `int()` refuses gives `(target, None)`. |
| Ping.BareIPv6 | ping.py:52-53 | Two or more colons without a leading bracket give `(target, None)`. |
| Ping.NoColon | ping.py:62 | A target without colons gives `(target, None)`. |
| Ping.HostColonPort | ping.py:55-61 | One colon gives `(host, int(p))` when `p` parses, else `(target, None)`. |
| Ping.NoPortRangeCheck | ping.py:55-61 | Every integer of at most 4300 digits after the single colon is taken as the port: negative ones and ones above 65535 too. |
| Ping.PortTooLongRefused | ping.py:55-61 | A port of more than 4300 digits is refused, so the whole target stays the host. |
| Ping.ZeroPortUsesDefault | ping.py:268 | `h:0` parses port 0, and the TCP fallback then dials the default port instead. |
| Ping.ExplicitPortDialled | ping.py:268 | A non-zero port after the colon is the port the TCP fallback dials. |
| Ping.FirstResolved | ping.py:66-76 | The first candidate the executable lookup resolves, with all earlier ones unresolved. `None` exactly when none resolves. |
| Ping.FindPing | ping.py:65-76 | The path of the first resolving candidate, never empty. `None` exactly when no candidate resolves. |
| Ping.PingCommandArguments | ping.py:86-90 | The executable comes first and the host last. The count reads back from its argument, as does the timeout: in milliseconds after `-w` on Windows, in seconds after `-W` elsewhere. |
| Ping.IcmpPing | ping.py:78-98 | Success exactly when the utility was found and exited with status 0. A missing utility gives the fixed message, a raised launch gives its text, and an exited run gives its captured output. |
| Ping.PosixCells | ping.py:126-140 | The POSIX row has nine cells. |
| Ping.WindowsCells | ping.py:146-162 | The Windows row has eight cells. |
| Ping.RttRendered | ping.py:126-162 | With an RTT match, the timing cells show its min, avg, max and (on POSIX) mdev in the header's order. The first five cells are the protocol, host, sent, received and loss with a percent sign. |
| Ping.FormatIcmpTable | ping.py:119-167 | No table exactly when neither dialect's packet summary was found. |
| Ping.PosixTakesPrecedence | ping.py:122-141 | With a POSIX packet summary, the Windows searches are irrelevant and the nine-column table is produced. |
| Ping.MissingRttRendersDash | ping.py:130-132 | Without an RTT match every timing cell is `-`. The count cells are the same in both dialects. |
| Ping.IcmpReportIsTable | ping.py:232-252 | A successful ping always reports a Markdown table opening with the Type and Host columns, whether or not its output was understood. |
| Ping.FailureReportTrimmed | ping.py:276 | A failure report is never blank and has no surrounding whitespace: stripped stderr when not blank, else stripped stdout, else "Ping failed". |
| Ping.ReasonOfErr | ping.py:255 | With non-blank stderr, the reason is stripped stderr lower-cased. |
| Ping.WantsTcpFallbackIff | ping.py:257-266 | The fallback is taken exactly when one of the five keywords occurs in the lower-cased reason. |
| Ping.BlankOutputFallsBack | ping.py:255-266 | Blank stdout and stderr always fall back, because the default reason contains `icmp`. |
| Ping.DefaultReasonHasIcmp | ping.py:255 | The lower-cased default reason contains `icmp`. |
| Ping.KeywordFallsBack | ping.py:257-266 | A reason containing any one keyword triggers the fallback. |
| Ping.MissingBinaryFallsBack | ping.py:84 | The missing-utility message triggers the fallback, because it contains `not found`. |
| Ping.BinaryNotFoundReason | ping.py:84 | The missing-utility message is the reason, lower-cased. |
| Ping.BinaryNotFoundHasNotFound | ping.py:84 | The lower-cased missing-utility message contains `not found`. |
| Ping.LatenciesErrorsPartition | ping.py:175-184 | Every attempt lands in exactly one of the latencies and the errors. |
| Ping.AllFailedNoLatencies | ping.py:175-184 | When every attempt fails there are no latencies, and one error per attempt. |
| Ping.TcpPing | ping.py:170-184 | One connect per iteration of `range(attempts)`. The samples are the latencies and the errors are the failure texts, in order. Their lengths sum to the number of iterations. |
| Ping.MinOf | ping.py:197 | The minimum is an element and no element is smaller. |
| Ping.MaxOf | ping.py:198 | The maximum is an element and no element is larger. |
| Ping.SummaryCells | ping.py:194-209 | The summary row has nine cells. |
| Ping.SummaryCellsValues | ping.py:188-209 | The summary row names TCP and the host. Its port and attempts cells read back as the values dialled. With samples, its timing cells show the formatted min, mean and max. |
| Ping.MeanBetween | ping.py:196-199 | The average latency lies between the minimum and the maximum. |
| Ping.SampleRows | ping.py:216-217 | One row per sample, the i-th numbered `i+1` and showing that sample. |
| Ping.ErrorRows | ping.py:224-225 | One row per error text, in order. |
| Ping.AttemptSectionShape | ping.py:211-219 | The per-attempt block appears only for more than one attempt. It lists one numbered row per sample, or the single `\| 1 \| failed \|` row. |
| Ping.ErrorSectionShape | ping.py:220-225 | The error block appears only when some attempt failed. It shows the first three errors at most. |
| Ping.TcpRowsShape | ping.py:203-227 | The whole report: header, rule and summary, then the per-attempt block, then at most three error rows, at the stated positions. |
| Ping.TcpSummaryCounts | ping.py:194-201 | Success is the number of samples and Fail the number of errors. When every attempt fails, Success is 0 and min/avg/max are `nan`. |
| Ping.FormatTcpTable | ping.py:186-227 | The appended rows, joined by newlines, are the specified report rows. |
| Ping.AppendAttemptRows | ping.py:211-219 | The loop appends exactly the per-attempt block. |
| Ping.AppendErrorRows | ping.py:220-225 | The loop over `errors[:3]` appends exactly the error block. |
| Ping.OrDefault | ping.py:240-241 | A given non-zero value is used. Otherwise the default is used; the result is never 0 unless the default is, since 0 is false in Python. |
| Ping.ExplicitCountAndTimeoutUsed | ping.py:240-241 | An explicit non-zero count and timeout are the ones passed to the ping utility. A missing or zero one is replaced by its valve. |
| Ping.Probe | ping.py:228-276 | A refused target gives exactly "Invalid target" and does nothing. Otherwise the split target is probed as `ProbeOutcome` states. |
| Ping.ProbeHost | ping.py:239-276 | If the ping succeeded: its table, and the one ping run. If it failed with a fallback reason: the TCP report against the fallback port, with one connect per attempt. Otherwise: the failure text. |
| Ping.TcpProbe | ping.py:268-274 | The fallback's report is the TCP table of the first `tcp_attempts` connect outcomes, dialling `(host, port)` once per attempt. |
| Flight.DropSpace | flight-info.py:19 | Removing whitespace leaves no whitespace and never lengthens the string. |
| Flight.DropSpaceAppend | flight-info.py:19 | Whitespace removal distributes over concatenation. |
| Flight.DropSpaceNoSpace | flight-info.py:19 | A string without whitespace is unchanged. |
| Flight.DropSpaceAllSpace | flight-info.py:19 | An all-whitespace string is removed entirely. |
| Flight.Clean | flight-info.py:18-19 | The cleaned string has no lower-case letter. |
| Flight.CleanNoSpace | flight-info.py:18-19 | The cleaned string has no whitespace. |
| Flight.CleanIdempotent | flight-info.py:18-19 | Cleaning twice is cleaning once. |
| Flight.CleanIgnoresSpace | flight-info.py:18-19 | Whitespace anywhere in the input does not change the result. |
| Flight.IcaoAirline | flight-info.py:22-71 | Every ICAO designator in the airline table has three characters. |
| Flight.FlightPatternLength | flight-info.py:77 | A string matching the flight pattern has 3 to 7 characters. |
| Flight.FlightMatch | flight-info.py:77 | A match exactly when the pattern matches. The two groups are the two-character prefix and the rest. |
| Flight.AliasOf | flight-info.py:77-79 | An alias exactly when the pattern matches and the prefix is a table key. It is the ICAO designator followed by the rest, one character longer than the input. |
| Flight.AliasExample | flight-info.py:77-79 | `DL2206` also tries `DAL2206`. |
| Flight.Candidates | flight-info.py:74-80 | The cleaned number is always a candidate. There are one or two candidates, two exactly when an alias exists, with no duplicates. |
| Flight.FreshestIndex | flight-info.py:115 | The chosen aircraft has the smallest `seen` (missing counts as 9e9). Every earlier aircraft has a strictly larger one, so ties keep the first. |
| Flight.ResolvePositionKeeps | flight-info.py:117-122 | A complete position is kept. A missing coordinate is filled when the last position has a number for it. Each reported coordinate is the aircraft's own or the last position's. A coordinate is lost only to an explicit null in the last position. |
| Flight.LastPositionNullErases | flight-info.py:120-122 | A null latitude in the last position erases the aircraft's own latitude once its longitude is missing. |
| Flight.Altitude | flight-info.py:130 | The altitude is the geometric or the barometric one. The geometric one is used unless missing or zero, and a zero altitude is only ever the barometric one. |
| Flight.RecordOf | flight-info.py:124-137 | The record carries the provider, the aircraft's `seen` and the resolved position. |
| Flight.QueryCallsign | flight-info.py:104-137 | No hit exactly when the fetch failed or the aircraft list is empty. Otherwise a record of some aircraft whose `seen` is minimal. |
| Flight.ReplacesBestAsWrittenRaises | flight-info.py:167-169 | Once a provider has a best hit, a second hit where either aircraft lacks `seen` makes the comparison as written raise. When both lack it, the corrected comparison keeps the earlier hit. |
| Flight.ReplacesBestAgrees | flight-info.py:167-169 | Wherever the comparison as written does not raise, the corrected comparison agrees with it. |
| Flight.ProviderBestNoneIff | flight-info.py:164-170 | A provider yields a best hit exactly when some candidate hits. |
| Flight.ProviderBestFreshest | flight-info.py:164-170 | A provider's best hit is the first hit with the smallest `seen_s`, so ties keep the earlier candidate. |
| Flight.FreshestFirstHit | flight-info.py:167-170 | When only the last candidate hits, its hit is the freshest. |
| Flight.FreshestReplaced | flight-info.py:167-170 | A strictly fresher hit replaces the best so far and becomes the freshest. |
| Flight.FreshestKept | flight-info.py:167-170 | A hit that is not strictly fresher keeps the earlier best. |
| Flight.Queries | flight-info.py:164-165 | One query per candidate, in order, against the given provider. |
| Flight.FirstHitFirstProvider | flight-info.py:163-172 | No result exactly when no provider hits. Otherwise the result is the best hit of a provider before which none hit. |
| Flight.ScanStops | flight-info.py:171-172 | From a provider that hits, only its own queries are made. |
| Flight.FirstProviderHitStops | flight-info.py:171-172 | When the first provider hits, no other provider is asked. |
| Flight.OnGroundAsWrittenIgnoresSpeed | flight-info.py:195-196 | As written, `on_ground` is exactly `(altitude_ft or 0) < 2500`: the speed plays no part. |
| Flight.OnGroundAsWrittenFastLow | flight-info.py:195-196 | An aircraft at 450 kt and 1000 ft is on the ground as written, but not as intended. |
| Flight.OnGroundImpliesAsWritten | flight-info.py:195-196 | The intended rule implies the written one. The two agree for aircraft below 40 kt. |
| Flight.MapLink | flight-info.py:83-86 | No link exactly when a coordinate is missing. A link is never empty. |
| Flight.Report | flight-info.py:180-208 | A map link exactly when enabled and both coordinates are present. `on_ground` is the intended rule. The staleness, source and query time are carried over. |
| Flight.AskProvider | flight-info.py:164-170 | The inner loop computes the provider's best hit and asks for each candidate once, in order. |
| Flight.ScanProviders | flight-info.py:163-172 | The outer loop's result is the first provider's hit. Its queries are all candidates of each provider up to the first that hits. |
| Flight.UseFlight | flight-info.py:152-208 | A blank number gives the "Please provide" error with no query. Otherwise: the scan over the candidates, then "No live ADS-B match" or the report of the best hit. |
| Weather.ClampDays | weather.py:120 | The day count is in 1..7, and is `days` when that is in range. |
| Weather.LineCount | weather.py:237 | The number of lines is at most 7, at most the number of dates and at most the clamped days, and equals one of the last two. |
| Weather.WmoName | weather.py:22-51 | Only codes 0..99 have a description. |
| Weather.WmoNameKeys | weather.py:22-51 | A code has a description exactly when it is one of the 28 table keys. |
| Weather.WmoDescription | weather.py:184 | The table entry when the code is a key, else `Code ` followed by the code (`None` for a missing one). |
| Weather.MissingCodeDescription | weather.py:184 | A missing code is described as `Code None`, since -1 is not a key. |
| Weather.WmoDescriptionNonEmpty | weather.py:184 | A description is never empty. |
| Weather.CompassIndex | weather.py:152 | The compass index is always in 0..15. |
| Weather.CompassIndexIsRounding | weather.py:152 | On an integer bearing, the integer formula equals `int((d % 360) / 22.5 + 0.5) % 16` computed on reals. |
| Weather.FloorOfQuotient | weather.py:152 | On non-negative operands, `int()` of a real quotient is integer division. |
| Weather.CompassIndexPeriodic | weather.py:152 | A bearing and the same bearing whole turns later point the same way. |
| Weather.CompassIndexSector | weather.py:152 | Index `k` covers exactly the 22.5-degree sector centred on `k * 22.5`, with north also taking the top half-sector. |
| Weather.CompassNoBoundary | weather.py:152 | No integer bearing falls on a sector boundary. |
| Weather.FmtDirPeriodicPoint | weather.py:129-153 | Bearings whole turns apart are shown under the same compass point. The printed number is not reduced, so the texts differ unless the bearings are equal. |
| Weather.FmtDirUnreduced | weather.py:152-153 | 450 degrees is shown as east, printed as 450. |
| Weather.ShortCodesDescribedAsNone | weather.py:246-249 | A day past the end of the code array is described as `Code None`. |
| Weather.DailyLineDefaults | weather.py:239-255 | A day with only its date known still gets a full line: `Code None` and a dash for every figure. |
| Weather.ForecastLines | weather.py:237-255 | Exactly `min(len(dates), clamp(days))` lines, the i-th being the line of day i. |
| Weather.Bullets | weather.py:258 | One bulleted line per line, in order. |
| Weather.ForecastBlockLines | weather.py:257-259 | The block starts with a bullet and has one text line per daily line, or the single no-data line. |
| Weather.ForecastBlockSingle | weather.py:257-259 | A single line gets exactly one bullet. |
| Weather.NoDatesNoData | weather.py:237-259 | No dates gives the no-data block. |

## Left out

- Subprocess, executable lookup and platform name: `subprocess.run`, `shutil.which` and `platform.system` become inputs in `Ping.Environment`.
- Sockets and time: `socket.create_connection`, `time.perf_counter` and `time.sleep` become one connect outcome per attempt, with latencies in whole milliseconds. The 2.0 s connect timeout only shapes those outcomes.
- The regular-expression engine: the four searches over the ping output are given as their match groups (`Ping.IcmpMatches`). `_format_icmp_table` reads the platform name but never uses it.
- Float formatting: `:.1f` and `:.4f` are the parameters `fmt1` and `fmt4`. `nan` appears as the text `nan`.
- Ping.SummaryCells: the average is the exact rational mean handed to `fmt1`, not a float sum.
- HTTP and JSON: `_fetch_json`, `urlopen` and `json.loads` are replaced by input values. A non-list `ac` value is not modelled.
- Flight.Aircraft: for the aircraft's own keys a JSON `null` and a missing key are both `None`, as a plain `get` reads them. Only the coordinates of `lastPosition` tell the two apart.
- Flight.FreshestIndex: a `seen` that is present but `null` counts as 9e9. The source's `min` then compares `None` with a number and raises `TypeError`.
- Flight.Altitude: `alt_baro` is an integer. The text `"ground"` that providers can send there is not modelled; with it, the altitude comparison of `on_ground` would raise `TypeError`.
- Flight.Candidates: the order of `list(set)` is hash order, given as the input `aliasFirst`.
- `seen`, `lat`, `lon` and speeds are reals. Float rounding is not modelled.
- Text.Lower: ASCII only. Python's `lower()` also maps non-ASCII capitals.
- Text.Upper: ASCII only. Python's `upper()` also maps non-ASCII letters, and can lengthen the string (`"ß".upper()` is `"SS"`). Flight.Clean inherits this, so a flight number with non-ASCII letters is not modelled.
- Flight.FlightMatch: `\d` is ASCII digits only; Python's `\d` also matches other Unicode decimal digits.
- Text.PyInt: ASCII digits only. `int()` also accepts other Unicode decimal digits.
- Text.MaxStrDigits: the 4300-digit limit is CPython's default from 3.11 and from the 3.10.7, 3.9.14, 3.8.14 and 3.7.14 security releases. It can be changed at run time, and earlier releases have no limit.
- Text.IntToString: `str()` of an integer beyond the digit limit raises `ValueError` in CPython; the model prints it.
- Weather.FmtDir: bearings are integers. A fractional bearing, and the rounding `int(round(d))`, are not modelled.
- Weather.WmoDescription: codes are integers. A float code such as `3.0` would print as `Code 3.0` in the fallback text.
- The weekday label `datetime.date.fromisoformat(dt).strftime("%a")` is an input function, `None` when the date does not parse.
- The current-conditions text of `weather` and `weather_forecast`, ZIP geocoding and the error wrappers are not modelled. Each is string interpolation over fetched values.
- The request URLs and the `urllib.parse.quote` of the callsign are not modelled.
- `stock-prices.py` is not part of this model. It wraps a market-data library and floating-point price arithmetic.
- `ping(target=None)`: the target is a string. `None` would behave like the empty string, which is refused.

## Findings

| source | as written | input that shows it | evidently intended | confidence | as-written member | corrected member |
|---|---|---|---|---|---|---|
| flight-info.py:195-196 | `on_ground` reads `best.get("gs")`, but the result record built at flight-info.py:124-137 has no `gs` key, so the speed test is always `0 < 40` | a hit at 450 kt (`speed_kt`) and 1000 ft | slow and low: `(speed_kt or 0) < 40 and (altitude_ft or 0) < 2500` | not executed | Flight.OnGroundAsWrittenFastLow | Flight.OnGroundImpliesAsWritten |
| flight-info.py:167-169 | `res.get("seen_s", 9e9)`: the record always has the key `seen_s`, holding `None` when the aircraft had no `seen`, so `<` raises `TypeError` | a second hit in one provider where either aircraft lacks `seen` | a missing `seen_s` counts as 9e9, as in flight-info.py:115 | not executed | Flight.ReplacesBestAsWrittenRaises | Flight.ProviderBestFreshest |
