/**
 * The `GET /api/weather` handler (server.js:116-296). After the route check it
 * fetches, in this order, the METARs and TAFs of the route's airports, the
 * pilot reports, and the domestic and international SIGMETs; it keeps the
 * pilot reports and SIGMETs that concern the route, groups the TAFs by
 * station, and asks for one summary per report (one per station for TAFs).
 *
 * Each upstream fetch is an input: `fetch` gives, for each feed, either the
 * response (its `ok` flag, status, status text and body) or the message of
 * the error it threw; `api` gives the language model's reply to each request.
 */
module Weather {
  import opened Wrappers
  import opened Text
  import opened Seqs
  import JsInt
  import Route
  import Feeds
  import Tafs
  import Summary
  import Relevance

  /** The five upstream feeds; the METAR and TAF feeds are asked for the route's airports. */
  datatype Feed = MetarFeed(ids: string) | TafFeed(ids: string) | PirepFeed | DomesticSigmetFeed | IntlSigmetFeed

  /** The address each feed is fetched from (server.js:170, 179, 202, 235, 241). */
  function Url(feed: Feed): string {
    match feed
    case MetarFeed(ids) => "https://aviationweather.gov/cgi-bin/data/metar.php?ids=" + ids + "&format=raw"
    case TafFeed(ids) => "https://aviationweather.gov/cgi-bin/data/taf.php?ids=" + ids + "&format=raw"
    case PirepFeed => "https://aviationweather.gov/cgi-bin/data/pirep.php?format=raw"
    case DomesticSigmetFeed => "https://aviationweather.gov/api/data/airsigmet?format=raw"
    case IntlSigmetFeed => "https://aviationweather.gov/api/data/isigmet?format=raw"
  }

  /** How `await fetch(url)` and `await response.text()` end. */
  datatype Fetch = Response(ok: bool, status: nat, statusText: string, body: string) | Thrown(message: string)

  datatype TafSummary = TafSummary(airport: string, summary: string)

  datatype Summaries = Summaries(metar: seq<string>, taf: seq<TafSummary>, pirep: seq<string>, sigmet: seq<string>)

  /** The `results` object of server.js:157-168. */
  datatype Results = Results(metar: seq<string>, taf: seq<string>, pirep: seq<string>, sigmet: seq<string>, summaries: Summaries)

  /** The answer: 200 with the results, 400 from the route check, or 500 with the error's message. */
  datatype Answer = Ok(results: Results) | BadRequest(error: string, details: string) | ServerError(details: string)

  /** `airports.join(',')`. */
  function Ids(airports: seq<string>): string { Join(airports, ",") }

  /** `xs.map((x, i) => f(i, x))`: the specification of the summary loops. */
  function MapIndexed<T, U>(xs: seq<T>, f: (nat, T) -> U): (r: seq<U>)
    ensures |r| == |xs|
    ensures forall i :: 0 <= i < |xs| ==> r[i] == f(i, xs[i])
  {
    seq(|xs|, i requires 0 <= i < |xs| => f(i, xs[i]))
  }

  /** `generateSummary(report, kind)` for the report at position `i` of its list. */
  function Summariser(kind: string, hasKey: bool, api: Summary.SummaryRequest -> Summary.Reply): (nat, string) -> string {
    (i: nat, report: string) => Summary.SummaryFor(kind, i, Summary.Line(report), hasKey, api)
  }

  /** The entry for the station at position `i` of the keys (server.js:194-198). */
  function TafSummariser(tafs: seq<string>, hasKey: bool, api: Summary.SummaryRequest -> Summary.Reply): (nat, string) -> TafSummary {
    (i: nat, airport: string) => TafSummary(airport, Summary.SummaryFor("TAF", i, Summary.Lines(Tafs.Members(tafs, airport)), hasKey, api))
  }

  function PirepKeep(airports: seq<string>): string -> bool {
    line => Relevance.PirepRelevant(line, airports)
  }

  function SigmetKeep(airports: seq<string>): string -> bool {
    sigmet => Relevance.SigmetRelevant(sigmet, airports)
  }

  /** The pilot reports kept: none when the fetch threw or was not `ok` (the `catch` of server.js:230-233). */
  function PirepsOf(fetched: Fetch, airports: seq<string>): seq<string> {
    if fetched.Response? && fetched.ok then Filter(Feeds.FeedLines(fetched.body), PirepKeep(airports)) else []
  }

  /** The error message of a SIGMET response that is not `ok` (server.js:237, 243). */
  function SigmetFailure(which: string, status: nat, statusText: string): string {
    "Failed to fetch " + which + " SIGMET data: " + JsInt.Digits(status) + " " + statusText
  }

  /** `results.summaries.taf`: one entry per station key, in the order the keys were added. */
  function TafEntries(tafs: seq<string>, hasKey: bool, api: Summary.SummaryRequest -> Summary.Reply): seq<TafSummary> {
    MapIndexed(Tafs.KeysOf(tafs), TafSummariser(tafs, hasKey, api))
  }

  /** The results once both SIGMET feeds have answered. */
  function Assemble(airports: seq<string>, metar: string, taf: string, pireps: seq<string>, domestic: string, intl: string,
                    hasKey: bool, api: Summary.SummaryRequest -> Summary.Reply): Results
  {
    var metars := Feeds.FeedLines(metar);
    var tafs := Feeds.FeedLines(taf);
    var sigmets := Filter(Feeds.SigmetLines(domestic) + Feeds.SigmetLines(intl), SigmetKeep(airports));
    Results(metars, tafs, pireps, sigmets,
      Summaries(
        MapIndexed(metars, Summariser("METAR", hasKey, api)),
        TafEntries(tafs, hasKey, api),
        MapIndexed(pireps, Summariser("PIREP", hasKey, api)),
        MapIndexed(sigmets, Summariser("SIGMET", hasKey, api))))
  }

  /** The handler after a valid route check: the fetches in order, each error ending it with 500. */
  function Gather(airports: seq<string>, fetch: Feed -> Fetch, hasKey: bool, api: Summary.SummaryRequest -> Summary.Reply): Answer {
    var metar := fetch(MetarFeed(Ids(airports)));
    var taf := fetch(TafFeed(Ids(airports)));
    var domestic := fetch(DomesticSigmetFeed);
    var intl := fetch(IntlSigmetFeed);
    if metar.Thrown? then ServerError(metar.message)
    else if taf.Thrown? then ServerError(taf.message)
    else if domestic.Thrown? then ServerError(domestic.message)
    else if !domestic.ok then ServerError(SigmetFailure("domestic", domestic.status, domestic.statusText))
    else if intl.Thrown? then ServerError(intl.message)
    else if !intl.ok then ServerError(SigmetFailure("international", intl.status, intl.statusText))
    else Ok(Assemble(airports, metar.body, taf.body, PirepsOf(fetch(PirepFeed), airports), domestic.body, intl.body, hasKey, api))
  }

  /** The whole handler. */
  function Respond(route: Option<string>, fetch: Feed -> Fetch, hasKey: bool, api: Summary.SummaryRequest -> Summary.Reply): Answer {
    match Route.RouteOf(route)
    case Failure(e) => BadRequest(Route.ErrorText(e), Route.Details(e))
    case Success(airports) => Gather(airports, fetch, hasKey, api)
  }

  // ---------------------------------------------------------------- the handler, step by step

  /** `for (const report of reports) { summaries.push(await generateSummary(report, kind)); }`. */
  method PushEach<T, U>(xs: seq<T>, f: (nat, T) -> U) returns (out: seq<U>)
    ensures out == MapIndexed(xs, f)
  {
    out := [];
    var i := 0;
    while i < |xs|
      invariant i <= |xs| && |out| == i
      invariant forall j :: 0 <= j < i ==> out[j] == f(j, xs[j])
    {
      out := out + [f(i, xs[i])];
      i := i + 1;
    }
  }

  /** The entry for the station at position `i`, read from the grouping object. */
  function GroupSummariser(groups: map<string, seq<string>>, hasKey: bool, api: Summary.SummaryRequest -> Summary.Reply): (nat, string) -> TafSummary {
    (i: nat, airport: string) =>
      TafSummary(airport, Summary.SummaryFor("TAF", i, Summary.Lines(if airport in groups then groups[airport] else []), hasKey, api))
  }

  /** Reading the groups from the object built by `GroupTafs` gives the entries of the specification. */
  lemma GroupsGiveTafSummaries(tafs: seq<string>, keys: seq<string>, groups: map<string, seq<string>>,
                               hasKey: bool, api: Summary.SummaryRequest -> Summary.Reply)
    requires forall key :: key in keys ==> key in groups && groups[key] == Tafs.Members(tafs, key)
    ensures MapIndexed(keys, GroupSummariser(groups, hasKey, api)) == MapIndexed(keys, TafSummariser(tafs, hasKey, api))
  {
    var a := MapIndexed(keys, GroupSummariser(groups, hasKey, api));
    var b := MapIndexed(keys, TafSummariser(tafs, hasKey, api));
    forall i | 0 <= i < |keys| ensures a[i] == b[i] {
      assert keys[i] in keys;
    }
  }

  /** The PIREP block of server.js:201-233: its failure empties the pilot reports and nothing else. */
  method FetchPireps(fetched: Fetch, airports: seq<string>, hasKey: bool, api: Summary.SummaryRequest -> Summary.Reply)
    returns (pireps: seq<string>, summaries: seq<string>)
    ensures pireps == PirepsOf(fetched, airports)
    ensures summaries == MapIndexed(pireps, Summariser("PIREP", hasKey, api))
  {
    pireps, summaries := [], [];
    if fetched.Response? && fetched.ok {
      pireps := Filter(Feeds.FeedLines(fetched.body), PirepKeep(airports));
      summaries := PushEach(pireps, Summariser("PIREP", hasKey, api));
    }
  }

  /** `app.get('/api/weather', ...)`. */
  method HandleWeather(route: Option<string>, fetch: Feed -> Fetch, hasKey: bool, api: Summary.SummaryRequest -> Summary.Reply)
    returns (answer: Answer)
    ensures answer == Respond(route, fetch, hasKey, api)
  {
    var checked := Route.ValidateRoute(route);
    if checked.Failure? {
      return BadRequest(Route.ErrorText(checked.error), Route.Details(checked.error));
    }
    answer := GatherReports(checked.value, fetch, hasKey, api);
  }

  /** The body of the handler's `try` after the route check (server.js:157-288). */
  method GatherReports(airports: seq<string>, fetch: Feed -> Fetch, hasKey: bool, api: Summary.SummaryRequest -> Summary.Reply)
    returns (answer: Answer)
    ensures answer == Gather(airports, fetch, hasKey, api)
  {
    var metar := fetch(MetarFeed(Ids(airports)));
    if metar.Thrown? {
      return ServerError(metar.message);
    }
    var metars := Feeds.FeedLines(metar.body);
    var metarSummaries := PushEach(metars, Summariser("METAR", hasKey, api));
    var taf := fetch(TafFeed(Ids(airports)));
    if taf.Thrown? {
      return ServerError(taf.message);
    }
    var tafs := Feeds.FeedLines(taf.body);
    var keys, groups := Tafs.GroupTafs(tafs);
    // `for (const airport in tafsByAirport)`: the keys in the order they were added.
    var tafSummaries := PushEach(keys, GroupSummariser(groups, hasKey, api));
    GroupsGiveTafSummaries(tafs, keys, groups, hasKey, api);
    var pireps, pirepSummaries := FetchPireps(fetch(PirepFeed), airports, hasKey, api);
    var domestic := fetch(DomesticSigmetFeed);
    if domestic.Thrown? {
      return ServerError(domestic.message);
    }
    if !domestic.ok {
      return ServerError(SigmetFailure("domestic", domestic.status, domestic.statusText));
    }
    var intl := fetch(IntlSigmetFeed);
    if intl.Thrown? {
      return ServerError(intl.message);
    }
    if !intl.ok {
      return ServerError(SigmetFailure("international", intl.status, intl.statusText));
    }
    var sigmets := Filter(Feeds.SigmetLines(domestic.body) + Feeds.SigmetLines(intl.body), SigmetKeep(airports));
    var sigmetSummaries := PushEach(sigmets, Summariser("SIGMET", hasKey, api));
    answer := Ok(Results(metars, tafs, pireps, sigmets, Summaries(metarSummaries, tafSummaries, pirepSummaries, sigmetSummaries)));
  }

  // ---------------------------------------------------------------- properties of the handler

  /** A fetch that ends the handler with 500: a METAR, TAF or SIGMET fetch that threw, or a SIGMET response not `ok`. */
  predicate FeedsFail(airports: seq<string>, fetch: Feed -> Fetch) {
    var domestic, intl := fetch(DomesticSigmetFeed), fetch(IntlSigmetFeed);
    || fetch(MetarFeed(Ids(airports))).Thrown?
    || fetch(TafFeed(Ids(airports))).Thrown?
    || domestic.Thrown? || !domestic.ok
    || intl.Thrown? || !intl.ok
  }

  /** After the route check, 500 exactly when `FeedsFail`, and otherwise results assembled from the feeds. */
  lemma GatherKinds(airports: seq<string>, fetch: Feed -> Fetch, hasKey: bool, api: Summary.SummaryRequest -> Summary.Reply)
    ensures Gather(airports, fetch, hasKey, api).ServerError? <==> FeedsFail(airports, fetch)
    ensures !FeedsFail(airports, fetch) ==>
      Gather(airports, fetch, hasKey, api) ==
        Ok(Assemble(airports, fetch(MetarFeed(Ids(airports))).body, fetch(TafFeed(Ids(airports))).body,
                    PirepsOf(fetch(PirepFeed), airports), fetch(DomesticSigmetFeed).body, fetch(IntlSigmetFeed).body, hasKey, api))
  {
  }

  /**
   * The kind of answer: 400 exactly when the route check fails, whatever the
   * feeds would say; 500 exactly when a METAR, TAF or SIGMET fetch fails as
   * `FeedsFail` says; the pilot reports and the METAR and TAF status codes
   * never decide it.
   */
  lemma AnswerKinds(route: Option<string>, fetch: Feed -> Fetch, hasKey: bool, api: Summary.SummaryRequest -> Summary.Reply)
    ensures Respond(route, fetch, hasKey, api).BadRequest? <==> Route.RouteOf(route).Failure?
    ensures Route.RouteOf(route).Failure? ==>
      var e := Route.RouteOf(route).error;
      Respond(route, fetch, hasKey, api) == BadRequest(Route.ErrorText(e), Route.Details(e))
    ensures Respond(route, fetch, hasKey, api).ServerError? <==>
      Route.RouteOf(route).Success? && FeedsFail(Route.RouteOf(route).value, fetch)
  {
    if Route.RouteOf(route).Success? {
      GatherKinds(Route.RouteOf(route).value, fetch, hasKey, api);
    }
  }

  /**
   * A SIGMET response that is not `ok` ends the handler with 500 and the status
   * in the message, once the METAR and TAF fetches have not thrown; the
   * domestic feed is looked at first.
   */
  lemma SigmetFailureAborts(airports: seq<string>, fetch: Feed -> Fetch, hasKey: bool, api: Summary.SummaryRequest -> Summary.Reply)
    requires fetch(MetarFeed(Ids(airports))).Response? && fetch(TafFeed(Ids(airports))).Response?
    ensures var d := fetch(DomesticSigmetFeed);
      d.Response? && !d.ok ==>
      Gather(airports, fetch, hasKey, api) == ServerError(SigmetFailure("domestic", d.status, d.statusText))
    ensures var d, n := fetch(DomesticSigmetFeed), fetch(IntlSigmetFeed);
      d.Response? && d.ok && n.Response? && !n.ok ==>
      Gather(airports, fetch, hasKey, api) == ServerError(SigmetFailure("international", n.status, n.statusText))
  {
  }

  /** The status of a failed SIGMET response can be read back from the message. */
  lemma SigmetFailureStatus(which: string, status: nat, statusText: string)
    ensures var message, open := SigmetFailure(which, status, statusText), "Failed to fetch " + which + " SIGMET data: ";
      && StartsWith(message, open)
      && JsInt.ParseInt(message[|open|..]) == Some(status)
  {
    var open := "Failed to fetch " + which + " SIGMET data: ";
    var message := SigmetFailure(which, status, statusText);
    assert JsInt.IntString(status) == JsInt.Digits(status);
    assert message == open + (JsInt.IntString(status) + (" " + statusText));
    assert message[|open|..] == JsInt.IntString(status) + (" " + statusText);
    JsInt.ParseIntReadsLeadingInteger(status, " " + statusText);
  }

  /** The answer with the pilot reports and their summaries emptied. */
  function WithoutPireps(answer: Answer): Answer {
    match answer
    case Ok(r) => Ok(r.(pirep := [], summaries := r.summaries.(pirep := [])))
    case _ => answer
  }

  /**
   * A PIREP fetch that throws or is not `ok` leaves `pirep` and
   * `summaries.pirep` empty and changes nothing else: the answer is the one
   * any other PIREP response would give, with the pilot reports removed.
   */
  lemma PirepFailureIsolated(route: Option<string>, fetch: Feed -> Fetch, other: Feed -> Fetch,
                             hasKey: bool, api: Summary.SummaryRequest -> Summary.Reply)
    requires forall feed :: feed != PirepFeed ==> other(feed) == fetch(feed)
    requires other(PirepFeed).Thrown? || !other(PirepFeed).ok
    ensures Respond(route, other, hasKey, api) == WithoutPireps(Respond(route, fetch, hasKey, api))
  {
    if Route.RouteOf(route).Success? {
      var airports := Route.RouteOf(route).value;
      var ids := Ids(airports);
      assert other(MetarFeed(ids)) == fetch(MetarFeed(ids));
      assert other(TafFeed(ids)) == fetch(TafFeed(ids));
      assert other(DomesticSigmetFeed) == fetch(DomesticSigmetFeed);
      assert other(IntlSigmetFeed) == fetch(IntlSigmetFeed);
      GatherKinds(airports, fetch, hasKey, api);
      GatherKinds(airports, other, hasKey, api);
      if !FeedsFail(airports, fetch) {
        assert MapIndexed([], Summariser("PIREP", hasKey, api)) == [];
      }
    }
  }

  /**
   * The METAR and TAF response status is not checked: responses with the same
   * body give the same answer, whether `ok` or not and whatever their status.
   */
  lemma StatusNotChecked(route: Option<string>, fetch: Feed -> Fetch, other: Feed -> Fetch,
                         hasKey: bool, api: Summary.SummaryRequest -> Summary.Reply)
    requires forall feed: Feed :: !feed.MetarFeed? && !feed.TafFeed? ==> other(feed) == fetch(feed)
    requires forall feed: Feed :: feed.MetarFeed? || feed.TafFeed? ==>
      fetch(feed).Response? && other(feed).Response? && other(feed).body == fetch(feed).body
    ensures Respond(route, other, hasKey, api) == Respond(route, fetch, hasKey, api)
  {
    if Route.RouteOf(route).Success? {
      var airports := Route.RouteOf(route).value;
      assert other(MetarFeed(Ids(airports))).body == fetch(MetarFeed(Ids(airports))).body;
      assert other(TafFeed(Ids(airports))).body == fetch(TafFeed(Ids(airports))).body;
      assert other(PirepFeed) == fetch(PirepFeed);
      assert other(DomesticSigmetFeed) == fetch(DomesticSigmetFeed);
      assert other(IntlSigmetFeed) == fetch(IntlSigmetFeed);
    }
  }

  /**
   * One summary per report, at the report's own position: the summary at `i`
   * is the one produced for report `i` of the same list. For TAFs there is one
   * entry per station, stations are distinct, in order of first appearance,
   * every TAF line's station has an entry, and its summary is that of the
   * station's lines.
   */
  lemma SummariesPaired(airports: seq<string>, metar: string, taf: string, pireps: seq<string>, domestic: string, intl: string,
                        hasKey: bool, api: Summary.SummaryRequest -> Summary.Reply)
    ensures var r := Assemble(airports, metar, taf, pireps, domestic, intl, hasKey, api);
      && |r.summaries.metar| == |r.metar|
      && (forall i :: 0 <= i < |r.metar| ==>
            r.summaries.metar[i] == Summary.SummaryFor("METAR", i, Summary.Line(r.metar[i]), hasKey, api))
      && |r.summaries.pirep| == |r.pirep|
      && (forall i :: 0 <= i < |r.pirep| ==>
            r.summaries.pirep[i] == Summary.SummaryFor("PIREP", i, Summary.Line(r.pirep[i]), hasKey, api))
      && |r.summaries.sigmet| == |r.sigmet|
      && (forall i :: 0 <= i < |r.sigmet| ==>
            r.summaries.sigmet[i] == Summary.SummaryFor("SIGMET", i, Summary.Line(r.sigmet[i]), hasKey, api))
  {
  }

  /**
   * One TAF entry per station (server.js:193-199): entry `j` is for the `j`-th
   * station key, so the stations are distinct and every TAF line's station has
   * an entry; its summary is that of the station's lines, asked for at `j`.
   */
  lemma TafSummariesPerStation(tafs: seq<string>, hasKey: bool, api: Summary.SummaryRequest -> Summary.Reply)
    ensures var entries, keys := TafEntries(tafs, hasKey, api), Tafs.KeysOf(tafs);
      && |entries| == |keys|
      && (forall j :: 0 <= j < |entries| ==> entries[j].airport == keys[j])
      && (forall i, j :: 0 <= i < j < |entries| ==> entries[i].airport != entries[j].airport)
      && (forall i :: 0 <= i < |tafs| ==> Tafs.TafKey(tafs[i]) in keys)
      && (forall j :: 0 <= j < |entries| ==>
            entries[j].summary == Summary.SummaryFor("TAF", j, Summary.Lines(Tafs.Members(tafs, keys[j])), hasKey, api))
  {
    Tafs.KeysDistinct(tafs);
    Tafs.KeysComplete(tafs);
    forall i | 0 <= i < |tafs| ensures Tafs.TafKey(tafs[i]) in Tafs.KeysOf(tafs) {
      Tafs.GroupOfLine(tafs, i);
    }
  }

  /** The pilot reports kept concern the route and come from the feed in its order. */
  lemma PirepsKept(fetched: Fetch, airports: seq<string>)
    ensures fetched.Response? && fetched.ok ==> IsSubsequence(PirepsOf(fetched, airports), Feeds.FeedLines(fetched.body))
    ensures forall i :: 0 <= i < |PirepsOf(fetched, airports)| ==> Relevance.PirepRelevant(PirepsOf(fetched, airports)[i], airports)
  {
    var pireps := PirepsOf(fetched, airports);
    if fetched.Response? && fetched.ok {
      FilterIsSubsequence(Feeds.FeedLines(fetched.body), PirepKeep(airports));
    }
    forall i | 0 <= i < |pireps| ensures Relevance.PirepRelevant(pireps[i], airports) {
      assert PirepKeep(airports)(pireps[i]);
    }
  }

  /** The SIGMETs kept concern the route, the domestic ones before the international ones, each in feed order. */
  lemma SigmetsKept(airports: seq<string>, metar: string, taf: string, pireps: seq<string>, domestic: string, intl: string,
                    hasKey: bool, api: Summary.SummaryRequest -> Summary.Reply)
    ensures var r := Assemble(airports, metar, taf, pireps, domestic, intl, hasKey, api);
      && r.sigmet == Filter(Feeds.SigmetLines(domestic), SigmetKeep(airports)) + Filter(Feeds.SigmetLines(intl), SigmetKeep(airports))
      && (forall i :: 0 <= i < |r.sigmet| ==> Relevance.SigmetRelevant(r.sigmet[i], airports))
  {
    var sigmets := Filter(Feeds.SigmetLines(domestic) + Feeds.SigmetLines(intl), SigmetKeep(airports));
    Feeds.DomesticBeforeInternational(domestic, intl, SigmetKeep(airports));
    forall i | 0 <= i < |sigmets| ensures Relevance.SigmetRelevant(sigmets[i], airports) {
      assert SigmetKeep(airports)(sigmets[i]);
    }
  }
}
