// Model of the flight-lookup tool: callsign cleaning and candidates, the
// choice of the freshest aircraft an ADS-B provider reports, the scan over
// providers and candidates, and the report built from the best match.

module Flight {
  import opened Text

  // ---------------------------------------------------------------------
  // Cleaning a flight number

  /** The string with every whitespace character removed. */
  function DropSpace(s: string): (r: string)
    ensures |r| <= |s| && NoSpace(r)
  {
    if s == [] then []
    else (if IsSpace(s[0]) then [] else [s[0]]) + DropSpace(s[1..])
  }

  lemma {:induction false} DropSpaceAppend(a: string, b: string)
    ensures DropSpace(a + b) == DropSpace(a) + DropSpace(b)
    decreases |a|
  {
    if a == [] {
      assert a + b == b;
    } else {
      assert (a + b)[0] == a[0] && (a + b)[1..] == a[1..] + b;
      DropSpaceAppend(a[1..], b);
      AppendAssoc(if IsSpace(a[0]) then [] else [a[0]], DropSpace(a[1..]), DropSpace(b));
    }
  }

  /** Removing whitespace from a string that has none changes nothing. */
  lemma {:induction false} DropSpaceNoSpace(s: string)
    requires NoSpace(s)
    ensures DropSpace(s) == s
  {
    if s != [] {
      assert !IsSpace(s[0]);
      assert NoSpace(s[1..]) by {
        forall i | 0 <= i < |s| - 1 ensures !IsSpace(s[1..][i]) {
          assert s[1..][i] == s[i + 1];
        }
      }
      DropSpaceNoSpace(s[1..]);
    }
  }

  predicate NoLower(s: string) {
    forall i :: 0 <= i < |s| ==> !('a' <= s[i] <= 'z')
  }

  lemma UpperNoLower(s: string)
    requires NoLower(s)
    ensures Upper(s) == s
  {
  }

  lemma UpperNoSpace(s: string)
    requires NoSpace(s)
    ensures NoSpace(Upper(s))
  {
    var u := Upper(s);
    forall i | 0 <= i < |u| ensures !IsSpace(u[i]) {
      assert !IsSpace(s[i]);
    }
  }

  /** `_clean`: `None` counts as the empty string; whitespace is removed and
      letters are upper-cased (ASCII). */
  function Clean(s: Option<string>): (r: string)
    ensures NoLower(r)
  {
    Upper(DropSpace(if s.Some? then s.value else ""))
  }

  lemma CleanNoSpace(s: Option<string>)
    ensures NoSpace(Clean(s))
  {
    UpperNoSpace(DropSpace(if s.Some? then s.value else ""));
  }

  /** Cleaning is idempotent. */
  lemma CleanIdempotent(s: Option<string>)
    ensures Clean(Some(Clean(s))) == Clean(s)
  {
    var c := Clean(s);
    CleanNoSpace(s);
    DropSpaceNoSpace(c);
    UpperNoLower(c);
  }

  /** Whitespace anywhere in the flight number is ignored. */
  lemma CleanIgnoresSpace(a: string, b: string, w: string)
    requires AllSpace(w)
    ensures Clean(Some(a + w + b)) == Clean(Some(a + b))
  {
    DropSpaceAppend(a + w, b);
    DropSpaceAppend(a, w);
    DropSpaceAllSpace(w);
    DropSpaceAppend(a, b);
    assert DropSpace(a) + [] == DropSpace(a);
  }

  lemma {:induction false} DropSpaceAllSpace(w: string)
    requires AllSpace(w)
    ensures DropSpace(w) == []
  {
    if w != [] {
      assert IsSpace(w[0]);
      assert AllSpace(w[1..]) by {
        forall i | 0 <= i < |w| - 1 ensures IsSpace(w[1..][i]) {
          assert w[1..][i] == w[i + 1];
        }
      }
      DropSpaceAllSpace(w[1..]);
    }
  }

  // ---------------------------------------------------------------------
  // Candidate callsigns

  /** `_IATA_ICAO`: common IATA airline designators and their ICAO
      equivalents, looked up by the designator's two characters. */
  function IcaoAirline(airline: string): (r: Option<string>)
    requires |airline| == 2
    ensures r.Some? ==> |r.value| == 3
  {
    match (airline[0], airline[1])
    case ('A', 'A') => Some("AAL")
    case ('U', 'A') => Some("UAL")
    case ('D', 'L') => Some("DAL")
    case ('W', 'N') => Some("SWA")
    case ('A', 'S') => Some("ASA")
    case ('B', '6') => Some("JBU")
    case ('F', '9') => Some("FFT")
    case ('N', 'K') => Some("NKS")
    case ('H', 'A') => Some("HAL")
    case ('B', 'A') => Some("BAW")
    case ('A', 'F') => Some("AFR")
    case ('K', 'L') => Some("KLM")
    case ('L', 'H') => Some("DLH")
    case ('L', 'X') => Some("SWR")
    case ('O', 'S') => Some("AUA")
    case ('I', 'B') => Some("IBE")
    case ('A', 'Z') => Some("ITA")
    case ('S', 'K') => Some("SAS")
    case ('D', 'Y') => Some("NAX")
    case ('Q', 'F') => Some("QFA")
    case ('N', 'Z') => Some("ANZ")
    case ('V', 'A') => Some("VOZ")
    case ('A', 'C') => Some("ACA")
    case ('W', 'S') => Some("WJA")
    case ('T', 'K') => Some("THY")
    case ('Q', 'R') => Some("QTR")
    case ('E', 'K') => Some("UAE")
    case ('E', 'Y') => Some("ETD")
    case ('S', 'V') => Some("SVA")
    case ('A', 'I') => Some("AIC")
    case ('J', 'L') => Some("JAL")
    case ('N', 'H') => Some("ANA")
    case ('K', 'E') => Some("KAL")
    case ('O', 'Z') => Some("AAR")
    case ('C', 'X') => Some("CPA")
    case ('S', 'Q') => Some("SIA")
    case ('M', 'H') => Some("MAS")
    case ('B', 'R') => Some("EVA")
    case ('T', 'G') => Some("THA")
    case ('C', 'A') => Some("CCA")
    case ('M', 'U') => Some("CES")
    case ('C', 'Z') => Some("CSN")
    case ('F', 'M') => Some("CSH")
    case ('V', 'S') => Some("VIR")
    case ('U', '2') => Some("EZY")
    case ('F', 'R') => Some("RYR")
    case ('W', '6') => Some("WZZ")
    case _ => None
  }

  predicate IsUpperLetter(c: char) {
    'A' <= c <= 'Z'
  }

  /** One to four digits, then at most one capital letter, and nothing else. */
  predicate FlightSuffix(r: string) {
    || (1 <= |r| <= 4 && AllDigits(r))
    || (2 <= |r| <= 5 && AllDigits(r[..|r| - 1]) && IsUpperLetter(r[|r| - 1]))
  }

  /** A flight number as a cleaned string: a two-character airline code of
      capitals and digits followed by a flight suffix. */
  predicate FlightPattern(s: string) {
    && |s| >= 2
    && (IsUpperLetter(s[0]) || IsDigit(s[0]))
    && (IsUpperLetter(s[1]) || IsDigit(s[1]))
    && FlightSuffix(s[2..])
  }

  lemma FlightPatternLength(s: string)
    requires FlightPattern(s)
    ensures 3 <= |s| <= 7
  {
  }

  /** The two groups of the pattern, when it matches. */
  function FlightMatch(s: string): (m: Option<(string, string)>)
    ensures m.Some? <==> FlightPattern(s)
    ensures m.Some? ==> |m.value.0| == 2 && m.value.0 + m.value.1 == s
  {
    if FlightPattern(s) then Some((s[..2], s[2..])) else None
  }

  /** The ICAO spelling of a cleaned IATA flight number, if the airline is known. */
  function AliasOf(s: string): (r: Option<string>)
    ensures r.Some? <==> FlightPattern(s) && IcaoAirline(s[..2]).Some?
    ensures r.Some? ==> |r.value| == |s| + 1 && r.value[3..] == s[2..] && r.value[..3] == IcaoAirline(s[..2]).value
  {
    var m := FlightMatch(s);
    if m.Some? && IcaoAirline(m.value.0).Some? then
      Some(IcaoAirline(m.value.0).value + m.value.1)
    else None
  }

  /** The example of the table's comment: "DL2206" also tries "DAL2206". */
  lemma AliasExample()
    ensures AliasOf("DL2206") == Some("DAL2206")
  {
    var s := "DL2206";
    assert s[..2] == "DL" && s[2..] == "2206";
    assert FlightPattern(s);
    assert IcaoAirline("DL") == Some("DAL");
    assert "DAL" + "2206" == "DAL2206";
  }

  /** The candidate callsigns as `list(out)` lists them.  The order of a
      two-element Python set is hash order, which the model takes as the
      input `aliasFirst`. */
  function CandidateList(user: string, aliasFirst: bool): seq<string> {
    var s := Clean(Some(user));
    match AliasOf(s)
    case None => [s]
    case Some(alias) => if aliasFirst then [alias, s] else [s, alias]
  }

  /** `_candidates`: the cleaned number, plus its ICAO spelling when the
      pattern matches and the airline is in the table. */
  method Candidates(user: string, aliasFirst: bool) returns (out: seq<string>)
    ensures out == CandidateList(user, aliasFirst)
    ensures Clean(Some(user)) in out && 1 <= |out| <= 2
    ensures |out| == 2 <==> AliasOf(Clean(Some(user))).Some?
    ensures |out| == 2 ==> out[0] != out[1]
    ensures forall c :: c in out ==> c == Clean(Some(user)) || AliasOf(Clean(Some(user))) == Some(c)
  {
    var s := Clean(Some(user));
    var found: set<string> := {s};
    var m := FlightMatch(s);
    if m.Some? && IcaoAirline(m.value.0).Some? {
      found := found + {IcaoAirline(m.value.0).value + m.value.1};
    }
    assert AliasOf(s).Some? ==> found == {s, AliasOf(s).value};
    assert AliasOf(s).None? ==> found == {s};
    if found == {s} {
      out := [s];
    } else {
      var alias :| alias in found && alias != s;
      out := if aliasFirst then [alias, s] else [s, alias];
    }
  }

  // ---------------------------------------------------------------------
  // Provider data

  /** A key of a JSON object that may be missing, present with null, or
      present with a value. */
  datatype Field<T> = Absent | Null | Present(value: T)

  /** `dict.get(key, default)`: the default only when the key is missing;
      a null that is present is returned as it is. */
  function Get<T>(f: Field<T>, default: Option<T>): Option<T> {
    match f
    case Absent => default
    case Null => None
    case Present(v) => Some(v)
  }

  /** A `lastPosition` object: each coordinate missing, null or a number. */
  datatype LastPosition = LastPosition(lat: Field<real>, lon: Field<real>)

  /** One aircraft object of a provider's `ac` list.  For its own keys a
      missing key and a JSON null are both `None`, since the source reads
      them with a plain `get`; `lastPosition` is `None` when it is not an
      object. */
  datatype Aircraft = Aircraft(
    flight: Option<string>, hex: Option<string>,
    lat: Option<real>, lon: Option<real>, lastPosition: Option<LastPosition>,
    altGeom: Option<int>, altBaro: Option<int>, gs: Option<real>, track: Option<real>,
    baroRate: Option<int>, squawk: Option<string>, seen: Option<real>, category: Option<string>)

  /** The result record `_query_callsign` builds. */
  datatype Hit = Hit(
    source: string, flight: string, hex: Option<string>,
    lat: Option<real>, lon: Option<real>, altitudeFt: Option<int>, speedKt: Option<real>,
    headingDeg: Option<real>, verticalRateFpm: Option<int>, squawk: Option<string>,
    seenS: Option<real>, category: Option<string>)

  /** The `9e9` default for a missing `seen`. */
  const Unseen: real := 9000000000.0

  /** The age of an aircraft's last message, 9e9 seconds when it has none. */
  function SeenKey(a: Aircraft): real {
    if a.seen.Some? then a.seen.value else Unseen
  }

  /** The freshest aircraft: the first one with the smallest message age. */
  function FreshestIndex(ac: seq<Aircraft>): (i: nat)
    requires ac != []
    ensures i < |ac|
    ensures forall j :: 0 <= j < |ac| ==> SeenKey(ac[i]) <= SeenKey(ac[j])
    ensures forall j :: 0 <= j < i ==> SeenKey(ac[i]) < SeenKey(ac[j])
    decreases |ac|
  {
    if |ac| == 1 then 0
    else
      var i := FreshestIndex(ac[..|ac| - 1]);
      assert forall j :: 0 <= j < |ac| - 1 ==> ac[..|ac| - 1][j] == ac[j];
      if SeenKey(ac[|ac| - 1]) < SeenKey(ac[i]) then |ac| - 1 else i
  }

  /** The coordinates reported: the aircraft's own, unless one is missing
      and there is a `lastPosition` object, which is then read for both,
      each defaulting to the aircraft's own. */
  function ResolvePosition(a: Aircraft): (Option<real>, Option<real>) {
    if (a.lat.None? || a.lon.None?) && a.lastPosition.Some? then
      (Get(a.lastPosition.value.lat, a.lat), Get(a.lastPosition.value.lon, a.lon))
    else (a.lat, a.lon)
  }

  /** A complete position is reported unchanged; a missing coordinate is
      filled in from the last position when that has a number for it; every
      reported coordinate is the aircraft's own or the last position's; and
      a coordinate the aircraft had is lost only to an explicit null in the
      last position. */
  lemma ResolvePositionKeeps(a: Aircraft)
    ensures a.lat.Some? && a.lon.Some? ==> ResolvePosition(a) == (a.lat, a.lon)
    ensures a.lastPosition.None? ==> ResolvePosition(a) == (a.lat, a.lon)
    ensures a.lat.None? && a.lastPosition.Some? && a.lastPosition.value.lat.Present? ==>
              ResolvePosition(a).0 == Some(a.lastPosition.value.lat.value)
    ensures a.lon.None? && a.lastPosition.Some? && a.lastPosition.value.lon.Present? ==>
              ResolvePosition(a).1 == Some(a.lastPosition.value.lon.value)
    ensures ResolvePosition(a).0.Some? ==>
              ResolvePosition(a).0 == a.lat
              || (a.lastPosition.Some? && a.lastPosition.value.lat == Present(ResolvePosition(a).0.value))
    ensures ResolvePosition(a).1.Some? ==>
              ResolvePosition(a).1 == a.lon
              || (a.lastPosition.Some? && a.lastPosition.value.lon == Present(ResolvePosition(a).1.value))
    ensures a.lat.Some? && ResolvePosition(a).0.None? ==> a.lastPosition.Some? && a.lastPosition.value.lat.Null?
    ensures a.lon.Some? && ResolvePosition(a).1.None? ==> a.lastPosition.Some? && a.lastPosition.value.lon.Null?
  {
  }

  /** An explicit null in the last position erases a coordinate the
      aircraft itself reported, once the other coordinate is missing. */
  lemma LastPositionNullErases(a: Aircraft, y: real)
    requires a.lat.Some? && a.lon.None? && a.lastPosition == Some(LastPosition(Null, Present(y)))
    ensures ResolvePosition(a) == (None, Some(y))
  {
  }

  /** The geometric altitude, or the barometric one when the geometric one is
      missing or zero (0 is false in Python). */
  function Altitude(a: Aircraft): (r: Option<int>)
    ensures r == a.altGeom || r == a.altBaro
    ensures r != a.altGeom ==> a.altGeom.None? || a.altGeom.value == 0
    ensures r == Some(0) ==> a.altBaro == Some(0)
  {
    if a.altGeom.Some? && a.altGeom.value != 0 then a.altGeom else a.altBaro
  }

  /** The record built from the chosen aircraft. */
  function RecordOf(base: string, a: Aircraft): (h: Hit)
    ensures h.source == base && h.seenS == a.seen && (h.lat, h.lon) == ResolvePosition(a)
  {
    var (lat, lon) := ResolvePosition(a);
    Hit(base, Clean(a.flight), a.hex, lat, lon, Altitude(a), a.gs, a.track, a.baroRate,
        a.squawk, a.seen, a.category)
  }

  /** What one provider query yields: nothing when the fetch failed
      (`None`) or the `ac` list is empty, else the record of the freshest
      aircraft. */
  function QueryResult(base: string, response: Option<seq<Aircraft>>): Option<Hit> {
    if response.None? || response.value == [] then None
    else Some(RecordOf(base, response.value[FreshestIndex(response.value)]))
  }

  /** `_query_callsign` on the provider's decoded response. */
  method QueryCallsign(base: string, response: Option<seq<Aircraft>>) returns (res: Option<Hit>)
    ensures res == QueryResult(base, response)
    ensures res.None? <==> response.None? || response.value == []
    ensures res.Some? ==> exists i :: 0 <= i < |response.value| && res.value == RecordOf(base, response.value[i])
                                      && forall j :: 0 <= j < |response.value| ==> SeenKey(response.value[i]) <= SeenKey(response.value[j])
  {
    if response.None? {
      return None;
    }
    var ac := response.value;
    if ac == [] {
      return None;
    }
    var best := ac[FreshestIndex(ac)];
    var lat, lon := best.lat, best.lon;
    if (lat.None? || lon.None?) && best.lastPosition.Some? {
      lat := Get(best.lastPosition.value.lat, lat);
      lon := Get(best.lastPosition.value.lon, lon);
    }
    res := Some(Hit(base, Clean(best.flight), best.hex, lat, lon, Altitude(best), best.gs, best.track,
                    best.baroRate, best.squawk, best.seen, best.category));
  }

  // ---------------------------------------------------------------------
  // Choosing among the hits of one provider

  /** The age of a hit as evidently intended: a missing value is 9e9. */
  function HitSeen(h: Hit): real {
    if h.seenS.Some? then h.seenS.value else Unseen
  }

  /** Whether a new hit replaces the current best: only a strictly
      fresher one does. */
  predicate ReplacesBest(res: Hit, best: Option<Hit>) {
    best.None? || HitSeen(res) < HitSeen(best.value)
  }

  /** The comparison as written: the record always has the key `seen_s`, so
      `get` returns its value, and a `None` there makes `<` raise
      `TypeError` (modelled as `None`). */
  function ReplacesBestAsWritten(res: Hit, best: Option<Hit>): Option<bool> {
    if best.None? then Some(true)
    else if res.seenS.None? || best.value.seenS.None? then None
    else Some(res.seenS.value < best.value.seenS.value)
  }

  /** Once there is a best hit, a second hit where either aircraft lacks
      `seen` makes the comparison raise; the corrected comparison keeps the
      earlier hit when both lack it. */
  lemma ReplacesBestAsWrittenRaises(res: Hit, best: Hit)
    requires res.seenS.None? || best.seenS.None?
    ensures ReplacesBestAsWritten(res, Some(best)).None?
    ensures res.seenS.None? && best.seenS.None? ==> !ReplacesBest(res, Some(best))
  {
  }

  /** Where the comparison as written does not raise, the corrected one agrees. */
  lemma ReplacesBestAgrees(res: Hit, best: Option<Hit>)
    requires ReplacesBestAsWritten(res, best).Some?
    ensures ReplacesBestAsWritten(res, best).value == ReplacesBest(res, best)
  {
  }

  function Step(best: Option<Hit>, res: Option<Hit>): Option<Hit> {
    if res.Some? && ReplacesBest(res.value, best) then res else best
  }

  /** The hit for callsign `cs` at provider `base`. */
  function HitFor(base: string, fetch: (string, string) -> Option<seq<Aircraft>>, cs: string): Option<Hit> {
    QueryResult(base, fetch(base, cs))
  }

  /** The inner loop of `use_flight` over the candidates of one provider,
      starting with no best. */
  function ProviderBest(base: string, fetch: (string, string) -> Option<seq<Aircraft>>, cands: seq<string>): Option<Hit>
    decreases |cands|
  {
    if cands == [] then None
    else Step(ProviderBest(base, fetch, cands[..|cands| - 1]), HitFor(base, fetch, cands[|cands| - 1]))
  }

  /** A provider yields a best hit exactly when some candidate hits. */
  lemma {:induction false} ProviderBestNoneIff(base: string, fetch: (string, string) -> Option<seq<Aircraft>>, cands: seq<string>)
    ensures ProviderBest(base, fetch, cands).None? <==>
            forall j :: 0 <= j < |cands| ==> HitFor(base, fetch, cands[j]).None?
    decreases |cands|
  {
    if cands != [] {
      var init := cands[..|cands| - 1];
      ProviderBestNoneIff(base, fetch, init);
      assert forall j :: 0 <= j < |init| ==> init[j] == cands[j];
    }
  }

  /** `i` is the first candidate whose hit has the provider's smallest `seen`. */
  ghost predicate FirstFreshest(base: string, fetch: (string, string) -> Option<seq<Aircraft>>, cands: seq<string>, h: Hit, i: int) {
    && 0 <= i < |cands| && HitFor(base, fetch, cands[i]) == Some(h)
    && (forall j :: 0 <= j < |cands| && HitFor(base, fetch, cands[j]).Some? ==>
          HitSeen(h) <= HitSeen(HitFor(base, fetch, cands[j]).value))
    && (forall j :: 0 <= j < i && HitFor(base, fetch, cands[j]).Some? ==>
          HitSeen(h) < HitSeen(HitFor(base, fetch, cands[j]).value))
  }

  /** The best hit of a provider is the first hit with the smallest `seen`:
      ties keep the earlier candidate. */
  lemma {:induction false} ProviderBestFreshest(base: string, fetch: (string, string) -> Option<seq<Aircraft>>, cands: seq<string>)
    requires ProviderBest(base, fetch, cands).Some?
    ensures exists i :: FirstFreshest(base, fetch, cands, ProviderBest(base, fetch, cands).value, i)
    decreases |cands|
  {
    var n := |cands|;
    var init := cands[..n - 1];
    var prev := ProviderBest(base, fetch, init);
    var last := HitFor(base, fetch, cands[n - 1]);
    if last.Some? && ReplacesBest(last.value, prev) {
      if prev.None? {
        ProviderBestNoneIff(base, fetch, init);
        assert forall j :: 0 <= j < |init| ==> init[j] == cands[j];
        FreshestFirstHit(base, fetch, cands);
      } else {
        ProviderBestFreshest(base, fetch, init);
        var k :| FirstFreshest(base, fetch, init, prev.value, k);
        FreshestReplaced(base, fetch, cands, prev.value, k);
      }
    } else {
      ProviderBestFreshest(base, fetch, init);
      var k :| FirstFreshest(base, fetch, init, prev.value, k);
      FreshestKept(base, fetch, cands, prev.value, k);
    }
  }

  /** The first hit of all is the freshest when it comes last. */
  lemma FreshestFirstHit(base: string, fetch: (string, string) -> Option<seq<Aircraft>>, cands: seq<string>)
    requires cands != [] && HitFor(base, fetch, cands[|cands| - 1]).Some?
    requires forall j :: 0 <= j < |cands| - 1 ==> HitFor(base, fetch, cands[j]).None?
    ensures FirstFreshest(base, fetch, cands, HitFor(base, fetch, cands[|cands| - 1]).value, |cands| - 1)
  {
  }

  /** A strictly fresher last hit replaces the best of the earlier ones. */
  lemma FreshestReplaced(base: string, fetch: (string, string) -> Option<seq<Aircraft>>, cands: seq<string>, h: Hit, k: int)
    requires cands != [] && FirstFreshest(base, fetch, cands[..|cands| - 1], h, k)
    requires HitFor(base, fetch, cands[|cands| - 1]).Some?
    requires HitSeen(HitFor(base, fetch, cands[|cands| - 1]).value) < HitSeen(h)
    ensures FirstFreshest(base, fetch, cands, HitFor(base, fetch, cands[|cands| - 1]).value, |cands| - 1)
  {
    assert forall j :: 0 <= j < |cands| - 1 ==> cands[..|cands| - 1][j] == cands[j];
  }

  /** A last hit that is not strictly fresher keeps the earlier best. */
  lemma FreshestKept(base: string, fetch: (string, string) -> Option<seq<Aircraft>>, cands: seq<string>, h: Hit, k: int)
    requires cands != [] && FirstFreshest(base, fetch, cands[..|cands| - 1], h, k)
    requires HitFor(base, fetch, cands[|cands| - 1]).Some? ==> HitSeen(h) <= HitSeen(HitFor(base, fetch, cands[|cands| - 1]).value)
    ensures FirstFreshest(base, fetch, cands, h, k)
  {
    assert forall j :: 0 <= j < |cands| - 1 ==> cands[..|cands| - 1][j] == cands[j];
  }

  // ---------------------------------------------------------------------
  // Scanning the providers

  const Providers: seq<string> := [
    "https://api.airplanes.live/v2", "http://api.airplanes.live/v2",
    "https://api.adsb.one/v2", "https://api.adsb.lol/v2"]

  /** The best hit of the first provider, from `k` on, that yields any. */
  function FirstHit(fetch: (string, string) -> Option<seq<Aircraft>>, cands: seq<string>, k: nat): Option<Hit>
    requires k <= |Providers|
    decreases |Providers| - k
  {
    if k == |Providers| then None
    else if ProviderBest(Providers[k], fetch, cands).Some? then ProviderBest(Providers[k], fetch, cands)
    else FirstHit(fetch, cands, k + 1)
  }

  /** A query is the provider and the callsign asked for. */
  type Query = (string, string)

  /** The queries of one provider, one per candidate in order. */
  function Queries(base: string, cands: seq<string>): (r: seq<Query>)
    ensures |r| == |cands|
    ensures forall j :: 0 <= j < |cands| ==> r[j] == (base, cands[j])
    decreases |cands|
  {
    if cands == [] then []
    else Queries(base, cands[..|cands| - 1]) + [(base, cands[|cands| - 1])]
  }

  /** All queries made from provider `k` on: every candidate of every
      provider up to and including the first that yields a hit. */
  function ScanQueries(fetch: (string, string) -> Option<seq<Aircraft>>, cands: seq<string>, k: nat): seq<Query>
    requires k <= |Providers|
    decreases |Providers| - k
  {
    if k == |Providers| then []
    else Queries(Providers[k], cands)
         + (if ProviderBest(Providers[k], fetch, cands).Some? then [] else ScanQueries(fetch, cands, k + 1))
  }

  /** The scan returns the best hit of a provider before which no provider
      hit, or nothing when none does. */
  lemma {:induction false} FirstHitFirstProvider(fetch: (string, string) -> Option<seq<Aircraft>>, cands: seq<string>, k: nat)
    requires k <= |Providers|
    ensures FirstHit(fetch, cands, k).None? <==>
            forall q :: k <= q < |Providers| ==> ProviderBest(Providers[q], fetch, cands).None?
    ensures FirstHit(fetch, cands, k).Some? ==>
            exists p :: k <= p < |Providers| && FirstHit(fetch, cands, k) == ProviderBest(Providers[p], fetch, cands)
                        && forall q :: k <= q < p ==> ProviderBest(Providers[q], fetch, cands).None?
    decreases |Providers| - k
  {
    if k < |Providers| && ProviderBest(Providers[k], fetch, cands).None? {
      FirstHitFirstProvider(fetch, cands, k + 1);
    }
  }

  lemma ScanStops(fetch: (string, string) -> Option<seq<Aircraft>>, cands: seq<string>, p: nat)
    requires p < |Providers| && ProviderBest(Providers[p], fetch, cands).Some?
    ensures ScanQueries(fetch, cands, p) == Queries(Providers[p], cands)
  {
    assert Queries(Providers[p], cands) + [] == Queries(Providers[p], cands);
  }

  /** When the first provider hits, only its queries are made. */
  lemma FirstProviderHitStops(fetch: (string, string) -> Option<seq<Aircraft>>, cands: seq<string>)
    requires ProviderBest(Providers[0], fetch, cands).Some?
    ensures ScanQueries(fetch, cands, 0) == Queries(Providers[0], cands)
  {
    ScanStops(fetch, cands, 0);
  }

  // ---------------------------------------------------------------------
  // The report

  /** An optional number, with 0 when it is missing. */
  function OrZero(x: Option<real>): real {
    if x.Some? then x.value else 0.0
  }

  function AsReal(x: Option<int>): Option<real> {
    if x.Some? then Some(x.value as real) else None
  }

  /** A numeric field of the result record looked up by its key; any
      other key is absent. */
  function RecordNumber(h: Hit, key: string): Option<real> {
    if key == "altitude_ft" then AsReal(h.altitudeFt)
    else if key == "speed_kt" then h.speedKt
    else if key == "heading_deg" then h.headingDeg
    else if key == "vertical_rate_fpm" then AsReal(h.verticalRateFpm)
    else if key == "seen_s" then h.seenS
    else None
  }

  /** `on_ground` as written: it reads the key `gs`, which the record does
      not have. */
  predicate OnGroundAsWritten(h: Hit) {
    OrZero(RecordNumber(h, "gs")) < 40.0 && OrZero(RecordNumber(h, "altitude_ft")) < 2500.0
  }

  /** As written, the speed plays no part: only the altitude decides. */
  lemma OnGroundAsWrittenIgnoresSpeed(h: Hit)
    ensures OnGroundAsWritten(h) <==> OrZero(AsReal(h.altitudeFt)) < 2500.0
  {
  }

  /** `on_ground` as evidently intended: slow and low, reading the record's
      `speed_kt`. */
  predicate OnGround(h: Hit) {
    OrZero(h.speedKt) < 40.0 && OrZero(AsReal(h.altitudeFt)) < 2500.0
  }

  /** An airliner at 450 kt and 1000 ft is reported on the ground as written. */
  lemma OnGroundAsWrittenFastLow(h: Hit)
    requires h.speedKt == Some(450.0) && h.altitudeFt == Some(1000)
    ensures OnGroundAsWritten(h) && !OnGround(h)
  {
  }

  /** The intended rule is stricter than the written one, and agrees with
      it for slow aircraft. */
  lemma OnGroundImpliesAsWritten(h: Hit)
    ensures OnGround(h) ==> OnGroundAsWritten(h)
    ensures OrZero(h.speedKt) < 40.0 ==> (OnGround(h) <==> OnGroundAsWritten(h))
  {
  }

  /** `_map_link`: an OpenStreetMap link centred on the position, or
      nothing when either coordinate is missing.  `fmt4` is `:.4f`. */
  function MapLink(lat: Option<real>, lon: Option<real>, fmt4: real -> string): (r: Option<string>)
    ensures r.None? <==> lat.None? || lon.None?
    ensures r.Some? ==> r.value != []
  {
    if lat.None? || lon.None? then None
    else
      var a, b := fmt4(lat.value), fmt4(lon.value);
      Some("https://www.openstreetmap.org/?mlat=" + a + "&mlon=" + b + "#map=9/" + a + "/" + b)
  }

  datatype FlightReport = FlightReport(
    source: string, queriedAtUnix: int, callsign: string, hex: Option<string>,
    lat: Option<real>, lon: Option<real>, staleSeconds: Option<real>,
    altitudeFt: Option<int>, speedKt: Option<real>, headingDeg: Option<real>,
    verticalRateFpm: Option<int>, onGround: bool, squawk: Option<string>,
    category: Option<string>, mapLink: Option<string>)

  datatype FlightOutcome = Failure(error: string) | Found(report: FlightReport)

  const NoNumberError := "Please provide a flight number (e.g., 'DL2206')."

  function NoMatchError(flightNumber: string): string {
    "No live ADS-B match for '" + flightNumber
    + "'. It may be on the ground/out of coverage or using a different callsign (try ICAO like DAL2206 for Delta)."
  }

  /** The success record for the best hit; `now` is `int(time.time())`. */
  function Report(h: Hit, now: int, includeMap: bool, fmt4: real -> string): (r: FlightReport)
    ensures r.mapLink.Some? <==> includeMap && h.lat.Some? && h.lon.Some?
    ensures r.onGround == OnGround(h)
    ensures r.staleSeconds == h.seenS && r.source == h.source && r.queriedAtUnix == now
  {
    FlightReport(h.source, now, h.flight, h.hex, h.lat, h.lon, h.seenS, h.altitudeFt, h.speedKt,
                 h.headingDeg, h.verticalRateFpm, OnGround(h), h.squawk, h.category,
                 if includeMap then MapLink(h.lat, h.lon, fmt4) else None)
  }

  function Outcome(flightNumber: string, best: Option<Hit>, now: int, includeMap: bool, fmt4: real -> string): FlightOutcome {
    match best
    case None => Failure(NoMatchError(flightNumber))
    case Some(h) => Found(Report(h, now, includeMap, fmt4))
  }

  // ---------------------------------------------------------------------
  // use_flight

  /** The inner loop of `use_flight`: every candidate asked of one provider,
      keeping the freshest hit. */
  method AskProvider(base: string, fetch: (string, string) -> Option<seq<Aircraft>>, cands: seq<string>)
    returns (best: Option<Hit>, trace: seq<Query>)
    ensures best == ProviderBest(base, fetch, cands)
    ensures trace == Queries(base, cands)
  {
    best, trace := None, [];
    var j := 0;
    while j < |cands|
      invariant 0 <= j <= |cands|
      invariant best == ProviderBest(base, fetch, cands[..j])
      invariant trace == Queries(base, cands[..j])
    {
      var res := QueryCallsign(base, fetch(base, cands[j]));
      assert cands[..j + 1][..j] == cands[..j];
      trace := trace + [(base, cands[j])];
      if res.Some? && ReplacesBest(res.value, best) {
        best := res;
      }
      j := j + 1;
    }
    assert cands[..j] == cands;
  }

  /** The outer loop of `use_flight`: the providers in order, stopping
      after the first that yields a hit. */
  method ScanProviders(fetch: (string, string) -> Option<seq<Aircraft>>, cands: seq<string>)
    returns (best: Option<Hit>, queries: seq<Query>)
    ensures best == FirstHit(fetch, cands, 0)
    ensures queries == ScanQueries(fetch, cands, 0)
  {
    best, queries := None, [];
    var p := 0;
    while p < |Providers|
      invariant 0 <= p <= |Providers| && best.None?
      invariant FirstHit(fetch, cands, p) == FirstHit(fetch, cands, 0)
      invariant queries + ScanQueries(fetch, cands, p) == ScanQueries(fetch, cands, 0)
      decreases |Providers| - p
    {
      var trace;
      best, trace := AskProvider(Providers[p], fetch, cands);
      if best.Some? {
        assert FirstHit(fetch, cands, p) == best;
        ScanStops(fetch, cands, p);
        queries := queries + trace;
        break;
      }
      assert FirstHit(fetch, cands, p) == FirstHit(fetch, cands, p + 1);
      assert ScanQueries(fetch, cands, p) == trace + ScanQueries(fetch, cands, p + 1);
      AppendAssoc(queries, trace, ScanQueries(fetch, cands, p + 1));
      queries := queries + trace;
      p := p + 1;
    }
  }

  /** `use_flight`: a blank number is refused without any query; otherwise
      the providers are asked in order, each for every candidate, keeping
      the freshest hit, and the scan stops after the first provider that
      yields one.  `fetch(base, cs)` is the decoded `ac` list of that
      provider for that callsign (`None` when the request failed). */
  method UseFlight(flightNumber: string, aliasFirst: bool, fetch: (string, string) -> Option<seq<Aircraft>>,
                   includeMap: bool, now: int, fmt4: real -> string)
    returns (outcome: FlightOutcome, queries: seq<Query>)
    ensures Strip(flightNumber) == [] ==> outcome == Failure(NoNumberError) && queries == []
    ensures Strip(flightNumber) != [] ==>
              var cands := CandidateList(flightNumber, aliasFirst);
              && queries == ScanQueries(fetch, cands, 0)
              && outcome == Outcome(flightNumber, FirstHit(fetch, cands, 0), now, includeMap, fmt4)
  {
    if Strip(flightNumber) == [] {
      return Failure(NoNumberError), [];
    }
    var cands := Candidates(flightNumber, aliasFirst);
    var best;
    best, queries := ScanProviders(fetch, cands);
    outcome := Outcome(flightNumber, best, now, includeMap, fmt4);
  }
}
