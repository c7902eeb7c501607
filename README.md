# Flight weather briefing: a verified model

This project models the text processing of a flight weather briefing tool. The
browser client (`script.js`) takes a flight plan written as
`CODE,ALTITUDE,CODE,ALTITUDE,...`. It parses the plan, decodes and colours METAR
observations along the route, formats pilot reports (PIREPs) and SIGMET
advisories as HTML, and looks up airport coordinates through a cache. The
server (`server.js`) answers `GET /api/weather?route=...` as follows:

- It validates the route.
- It fetches METARs, TAFs, PIREPs and domestic and international SIGMETs.
- It keeps the PIREPs and SIGMETs that concern the route, and groups the TAFs by station.
- It asks a language model for one plain-English summary per report (one per station for TAFs).

Every regular expression of the core is written by hand as a leftmost-match
scanner over `seq<char>`. The scanners follow the JavaScript engine's order of
alternatives and greedy backtracking. `Scan.Exec` is `str.match(re)` and
`Scan.GlobalMatch` is `str.match(re)` with the `g` flag. JavaScript's `trim`,
`toUpperCase`, `split`, `join`, `substring` and `parseInt` are modelled in
`Text` and `JsInt`.

Modules:

- `Wrappers`: the `Option` and `Result` datatypes.
- `Text`, `JsInt`, `Seqs`: JavaScript string, integer and array primitives and their laws.
- `Scan`: regular-expression search.
- `FlightPlan`: the client's `parseFlightPlan`.
- `Route`: the server's route check, and how it compares with the client's.
- `Metar`: `decodeMETAR`, the severity ladder, and the wind and visibility texts.
- `Html`, `Pirep`, `Sigmet`: the formatters.
- `Feeds`: line filtering.
- `Tafs`: TAF grouping.
- `Relevance`: the route-relevance tests for PIREPs and SIGMETs.
- `Summary`: `generateSummary`.
- `Weather`: the `/api/weather` handler.
- `Coordinates`: the coordinate cache.

The inputs the code cannot compute are parameters:

- Each upstream fetch is a `Weather.Fetch` value: a response with its `ok` flag, status, status text and body, or a thrown error's message.
- The language model is a function from the request (report type, position in its list, user message) to its reply.
- Whether the API keys are configured is a boolean.
- The airport API answer is a `Coordinates.Lookup` value: found, not found or failed.
- The static airport table is a map.

Where the code loops or updates state step by step, the model does too. Each
such part is a method proved against a specification function:

- `FlightPlan.ParseFlightPlan`;
- the server's route loops;
- `Metar.ClassifyWaypoint`;
- the `+=` chains of `Pirep.FormatPirep` and `Sigmet.FormatSigmet`;
- `Tafs.GroupTafs`, which fills the station object;
- the summary loops of `Weather.GatherReports`;
- the cache class `Coordinates.CoordinateCache`.

The METAR wind of `decodeMETAR` follows the code, not the usual reading of a
METAR. The pattern at script.js:196 is `KT(\d{3}|VRB)(\d{2,3})`, so it needs a
literal `KT` before the digits. A standard `09005KT` group therefore gives no
wind (`Metar.StandardWindGroupNotDecoded`), while `getWindInfo` reads it as
`090° at 05 knots` (`Metar.WindInfoOfGroup`).

## Model

| member | source | states |
|---|---|---|
| FlightPlan.ParseFlightPlan | script.js:133-162 | The client's parse of a plan text is the pair-by-pair parse of its comma-separated tokens, or the error it throws |
| FlightPlan.CheckPairs | script.js:142-158 | The loop over the pairs returns the waypoints of all pairs, or stops at the first pair that fails, with its error |
| FlightPlan.PairsAllPass | script.js:142-158 | When every pair passes, the result lists their waypoints in pair order |
| FlightPlan.PairsFailAt | script.js:142-158 | When every pair before pair j passes and pair j fails, the parse fails with pair j's error |
| FlightPlan.PairsShape | script.js:142-158 | A successful parse has one waypoint per pair, in input order, and waypoint k is what pair k produced |
| FlightPlan.PairsFirstError | script.js:142-158 | The parse succeeds exactly when every pair passes; a failure carries the error of the first failing pair |
| FlightPlan.CheckPairNeverFormatError | script.js:142-152 | A single pair never reports the pair-count error: that error comes only from the odd-count check |
| FlightPlan.ParsePlanShape | script.js:135-169 | A plan fails with the format error exactly when it has an odd number of tokens; a success has tokens/2 waypoints and is never empty, so the emptiness check in fetchWeatherData can never fire |
| FlightPlan.ParsePlanWaypoints | script.js:142-158 | Waypoint k holds the trimmed, upper-cased token 2k, which is 3 or 4 capital letters, and the parseInt value of token 2k+1, which lies in [0, 60000] |
| FlightPlan.ParsePlanReportsFirstBadPair | script.js:142-152 | A failing even-length plan reports its first bad pair: the normalised code when the code is bad, the untrimmed altitude token otherwise, so the code is checked before the altitude |
| FlightPlan.ParsePlanOfTokens | script.js:135 | Joining comma-free tokens with commas and splitting again gives them back, so the plan's parse is the parse of those tokens |
| FlightPlan.CodeOfCapitals | script.js:143 | A code already made of 3 or 4 capitals is unchanged by trim and upper-casing |
| FlightPlan.AltitudeOfNumeral | script.js:144 | A plain decimal numeral is read by parseInt as its value |
| FlightPlan.CheckPairAcceptsPlain | script.js:142-157 | A capital code with a numeral in range gives the waypoint (code, value) |
| FlightPlan.CheckPairRejectsHigh | script.js:150-152 | A valid code with a numeral above 60000 is rejected with the altitude token as written |
| FlightPlan.ClientNormalisesCode | script.js:143 | Trimming and upper-casing turn " kphx " into "KPHX" |
| FlightPlan.PairsOfFour | script.js:142-158 | Four tokens are checked as two pairs, first to last; the first failure wins |
| FlightPlan.CheckPairExamples | script.js:142-157 | The pairs KPHX,10000 and KLAX,1000 become the waypoints (KPHX, 10000) and (KLAX, 1000) |
| FlightPlan.CheckPairHighAltitude | script.js:150-152 | The pair KPHX,70000 fails with "Invalid altitude: 70000" |
| FlightPlan.CheckPairShortCode | script.js:146-148 | The pair XX,1000 fails with "Invalid airport code: XX" |
| JsInt.ParseIntReadsLeadingInteger | script.js:144 | parseInt of an integer's numeral, followed by anything that cannot continue the numeral, is that integer |
| JsInt.ParseIntRoundTrip | server.js:148 | parseInt(String(i)) == i for every integer i |
| JsInt.ParseIntIgnoresLeadingSpace | server.js:148 | Leading white space does not change what parseInt reads |
| JsInt.ParseIntNaN | server.js:148-149 | Without a digit after the optional sign, parseInt is NaN, so the altitude is rejected |
| JsInt.ParseIntHexExample | server.js:148-149 | A 0x prefix switches to hexadecimal: "0x1F" is 31 and "-0x10" is -16, while "0x" alone is NaN |
| Route.ValidateRoute | server.js:116-155 | The route check returns the airports of a valid route, or the 400 error for a missing route, an odd token count, a bad code or a bad altitude |
| Route.CollectCodes | server.js:136-145 | The first loop collects the checked code at every even position, or stops at the first bad one |
| Route.CheckAltitudes | server.js:147-155 | The second loop finds the first odd-position token that is rejected, or none |
| Route.CodesFromShape | server.js:136-145 | A successful first loop returns the checked token of every even position, in order |
| Route.CodesFromFirstFailure | server.js:136-145 | A failing first loop fails at a token that is rejected, after every earlier token was accepted |
| Route.CodesFromFailsAt | server.js:136-145 | A rejected token preceded only by accepted ones is the loop's failure |
| Route.FirstBadFromNoneIff | server.js:147-155 | The altitude loop finds nothing exactly when every token it visits is accepted |
| Route.FirstBadFromFirst | server.js:147-155 | The altitude loop's error is the one for the first rejected token |
| Route.RouteAccepted | server.js:119-155 | An accepted route has pairs of tokens; its airports are the trimmed code tokens in route order, duplicates kept, each of 3 or 4 capitals, and every altitude token reads as a number in [0, 60000] |
| Route.LoopErrors | server.js:136-155 | The code loop reports only bad codes and the altitude loop only bad altitudes |
| Route.RouteRequired | server.js:119-124 | The route is refused as missing exactly when it is absent or empty |
| Route.RouteNeedsPairs | server.js:128-133 | An odd token count is refused with the format error, and only an odd count is |
| Route.ServerReportsFirstBadAltitude | server.js:147-155 | When all codes are good, a refused route reports its first bad altitude token as written |
| Route.ServerChecksCodesFirst | server.js:136-155 | The first bad code is reported even when an earlier altitude is bad: all codes are checked before any altitude |
| Route.ServerAcceptedRouteParsesOnClient | server.js:119-155 | Every route the server accepts is accepted by the client's parseFlightPlan too, with the same airports in the same order |
| Route.ClientAcceptsServerPair | server.js:136-155 | A pair the server accepts passes the client's checks with the same code |
| Route.ClientAcceptsLowerCase | script.js:143-146 | The client upper-cases a lower-case code and accepts it |
| Route.ServerRejectsLowerCase | server.js:136-145 | The server takes a lower-case code as written and refuses it |
| Route.ServerIsCaseSensitive | server.js:136-145 | A route code,altitude with a lower-case code parses on the client and is refused by the server |
| Metar.DecodeMetarFields | script.js:193-195 | The station is the first 4 characters and the time is characters 5 to 10, each clamped for short input, so decoding never fails |
| Metar.KtWindAtIff | script.js:196 | decodeMETAR's wind matches exactly when a literal KT is followed by three digits or VRB, then two or three digits |
| Metar.StandardWindGroupNotDecoded | script.js:196 | A standard dddssKT wind group gives decodeMETAR no wind |
| Metar.WeatherTokens | script.js:198 | The weather list is, in order, the full matches of the leftmost non-overlapping scan from position 0, each a weather code with its sign when it had one |
| Metar.CloudTokens | script.js:199 | The cloud list is, in order, the full matches of the leftmost non-overlapping scan from position 0, each a space, a cover code and three digits |
| Metar.FindMetar | script.js:460 | The METAR found starts with the waypoint's code; there is none exactly when no METAR starts with it |
| Metar.FindMetarFirst | script.js:460 | The METAR used is the first one that starts with the code |
| Metar.ClassifyWaypoint | script.js:459-481 | The class and label are those of the severity ladder applied to the METAR found, and the wind and visibility texts are those of that METAR, or N/A |
| Metar.SevereIff | script.js:466-469 | A waypoint is severe exactly when its METAR's weather list holds a bare TS, SQ or FC |
| Metar.SigWxIff | script.js:470-473 | A waypoint is significant weather exactly when it is not severe and its METAR has any weather, or a broken or overcast layer |
| Metar.NoMetarIsVfr | script.js:459-481 | Without a METAR for the code the waypoint is VFR, and its wind and visibility are N/A |
| Metar.WeatherKeepsSign | script.js:198 | A signed +TS is matched with its sign, so it is not one of the severe codes |
| Metar.SignedThunderstormNotSevere | script.js:466-469 | When the only matches of the weather pattern of script.js:198 are a signed TS and the TS inside it, the weather list is just the signed code and the waypoint is significant weather, not severe |
| Metar.WindInfo | script.js:495-503 | getWindInfo is N/A exactly when no wind group matches |
| Metar.VisibilityInfo | script.js:505-511 | getVisibilityInfo is N/A exactly when no visibility group matches |
| Metar.WindAtOfGroup | script.js:496 | A standard wind group dddss(s)KT matches with its direction and speed as groups |
| Metar.WindInfoOfGroup | script.js:495-503 | The first standard wind group in the text, wherever it starts, is shown as "ddd° at ss knots" |
| Metar.VisibilityAtOfGroup | script.js:506 | The visibility group " <digits>SM" matches with its digits |
| Metar.VisibilityInfoOfGroup | script.js:505-511 | The first visibility group in the text, wherever it starts, is shown as "<digits> SM" |
| Html.AddField | script.js:217 | One `if (match) formatted += paragraph` step appends the field's paragraph, or nothing for an absent field |
| Html.RenderFields | script.js:216-224 | A formatter's paragraphs, written field by field, are those of the fields that are present, in field order |
| Html.ShownInOrder | script.js:216-224 | The shown sections follow the order of the headings, and each is the field its heading names |
| Html.ShownIff | script.js:216-224 | A heading is shown exactly when its field is present |
| Html.EmptyIff | script.js:216-224 | A formatter writes nothing between its opening and closing tags exactly when no field is present |
| Pirep.FormatPirep | script.js:207-227 | formatPIREP is the pirep-item div holding the paragraphs of the fields whose patterns matched |
| Pirep.PirepSectionsInOrder | script.js:216-224 | The paragraphs come in the order Altitude, Location, Time, Type, Turbulence, Icing, Remarks, each the field its heading names |
| Pirep.PirepSectionShownIff | script.js:208-223 | A paragraph is shown exactly when its pattern matches somewhere in the report |
| Pirep.EmptyPirepIff | script.js:216-224 | The item is empty exactly when none of the seven patterns matches |
| Pirep.RemarksToLineEnd | script.js:212 | The remarks are the non-empty rest of the line after the first "/RMK " |
| Pirep.OffsetsSplit | script.js:209 | The greedy offsets split a run of digits 3+3 (six or more), 3+2 (five) or 2+2 (four), and fewer than four digits do not match |
| Pirep.OverAtIff | script.js:209 | /OV matches exactly when two or three capitals, as a whole run, are followed by at least four digits |
| Pirep.FixOfOverAt | script.js:209 | The fix of a /OV match is the whole run of capitals after "/OV " |
| Pirep.OverMatchSplit | script.js:209 | The groups of a /OV match are the fix and the digits split by the greedy offsets |
| Pirep.LocationOfOverMatch | script.js:218 | The Location paragraph is the fix, a space, and the first four to six digits after it |
| Sigmet.FormatSigmet | script.js:229-290 | formatSIGMET is the sigmet-details div holding the paragraphs of the fields whose patterns matched |
| Sigmet.SigmetSectionsInOrder | script.js:236-286 | The paragraphs come in the order ID, Type, Valid, Area, FIR, Phenomenon, Intensity, Movement, Altitude, each the field its heading names |
| Sigmet.SigmetSectionShownIff | script.js:233-286 | A paragraph is shown exactly when its pattern matches somewhere in the advisory |
| Sigmet.EmptySigmetIff | script.js:229-290 | The details are empty exactly when none of the nine patterns matches |
| Sigmet.IdAtIff | script.js:233 | An ID starts where one or two capitals, as a whole run, are followed by a digit; it is those letters and at most two digits |
| Sigmet.IdAtEndOfWord | script.js:233 | Inside a longer capital word followed by a digit, the ID takes the word's last two letters |
| Sigmet.TypeIff | script.js:234 | There is no Type paragraph exactly when none of SIGMET, AIRMET and WST occurs; otherwise it shows one of them |
| Sigmet.FormatTimeOfSix | script.js:292-297 | A six-character DDHHMM becomes the nine characters DD/HH:MMZ, and removing the separators gives it back |
| Sigmet.ValidValueAt | script.js:245-250 | The Valid paragraph is the start and end, two six-digit times, each written DD/HH:MMZ |
| Sigmet.FlightLevelsInValid | script.js:283 | The altitude pattern matches inside a validity period, across the slash between the two times |
| Sigmet.ValidGivesAltitude | script.js:283-286 | So an advisory with a validity period always has an Altitude paragraph |
| Sigmet.FirAtIff | script.js:259 | A FIR match is four capitals that end a run of capitals, followed by " FIR" |
| Sigmet.Describe | script.js:299-324 | A table lookup gives the code's description when it has one, and the code itself when it is not in the table |
| Sigmet.PhenomenaDescribeEveryCode | script.js:299-312 | Every code the phenomenon pattern can give has its own description, different from the code, and the table has no other codes |
| Sigmet.IntensitiesDescribeEveryCode | script.js:314-324 | Every code the intensity pattern can give has its own description, different from the code, and the table has no other codes |
| Sigmet.WordAtGivesCode | script.js:265 | A word match is one of the codes, standing as a whole word |
| Sigmet.PhenomenonDescribed | script.js:265-268 | The Phenomenon paragraph always shows the table's description, never the bare code |
| Sigmet.IntensityDescribed | script.js:271-274 | The Intensity paragraph always shows the table's description, never the bare code |
| Sigmet.MovementAtIff | script.js:277 | MOV matches exactly when one or two direction letters, as a whole run, are followed by a space, digits and KT |
| Sigmet.MovementValueAt | script.js:279 | The Movement paragraph shows the whole run of direction letters and the whole run of digits |
| Scan.Search | script.js:208 | The search finds the leftmost position where the pattern matches, and no earlier one matches |
| Scan.Exec | script.js:208 | match without g gives the match at the leftmost position where the pattern matches, and null exactly when it matches nowhere |
| Scan.ExecAt | script.js:208 | A match at a position with no match before it is the one match without g returns |
| Scan.ScanHitsLeftmost | script.js:198-199 | A g scan is the leftmost non-overlapping scan: its first hit is the leftmost match, each next hit is the leftmost match at or after the end of the previous one, nothing matches after the last, and it is empty exactly when nothing matches |
| Scan.GlobalMatchNoneIff | script.js:198 | A g match is null exactly when the pattern matches nowhere, and otherwise starts with the first match |
| Scan.MatchAllElements | script.js:198 | Every element of a g match list is the full match of the pattern at some position at or after the start |
| Scan.Greedy | script.js:209 | A greedy quantifier takes the largest count the rest of the pattern accepts |
| Scan.FirstWordAt | script.js:265 | `(a\|b\|...)\b` takes the first alternative that occurs with a word boundary after it |
| Text.TrimEmptyIffBlank | server.js:172 | A line trims to nothing exactly when all its characters are white space |
| Text.TrimIdempotent | script.js:143 | Trimming twice is trimming once |
| Text.JoinSplit | server.js:172 | Joining the parts of a split with the separator gives the string back |
| Text.SplitJoin | server.js:47-49 | Splitting a join of separator-free parts, such as the TAF lines joined with a newline, gives the parts back |
| Feeds.NonBlankIff | server.js:172 | A line passes the feed filter exactly when it has a character that is not white space |
| Feeds.FeedLinesKept | server.js:172 | The kept lines are lines of the feed, untrimmed and in feed order, each with a visible character; every line with one is kept |
| Feeds.SigmetLinesKept | server.js:247-255 | The SIGMET lines are lines of the feed, in order, none trimming to empty or starting with Type: or ---; every other line is kept |
| Feeds.SigmetLinesNarrowFeedLines | server.js:247-255 | The SIGMET lines are the feed lines with the header lines removed, in the same order |
| Feeds.DomesticBeforeInternational | server.js:257 | Filtering the combined SIGMET list keeps every domestic SIGMET before every international one |
| Seqs.FilterIsSubsequence | server.js:209 | A filtered list is a subsequence of its input |
| Seqs.FilterAppend | server.js:257 | Filtering a concatenation filters each part in turn |
| Tafs.TafKey | server.js:185 | The key is the first four characters, or the whole line when it is shorter |
| Tafs.KeysDistinct | server.js:183-193 | The station keys are distinct |
| Tafs.KeysComplete | server.js:183-193 | A string is a key exactly when it is the key of some TAF line |
| Tafs.MembersOfKey | server.js:183-190 | Each group holds the lines of its key in feed order: every member has the key, every line with the key is a member, and no key's group is empty |
| Tafs.GroupOfLine | server.js:183-190 | Every line is in the group of its own key and in no other group |
| Tafs.GroupTafs | server.js:183-190 | The grouping object has exactly the keys of the lines, in first-seen order, and each key's group is its lines in feed order |
| Relevance.PirepRelevantIff | server.js:209-224 | A PIREP is kept exactly when it mentions a route airport, or its first /OV fix begins one |
| Relevance.PirepNoAirports | server.js:209-224 | With no airports no PIREP is kept |
| Relevance.LatLonAtIff | server.js:270 | A latitude/longitude is N or S, a whole run of two to four digits, E or W, and three or more digits |
| Relevance.SigmetLadder | server.js:257-281 | A mentioned airport keeps a SIGMET; else an AREA alone decides, by whether it begins a route airport; else any latitude/longitude keeps it; else a FIR decides in the same way; else it is dropped |
| Relevance.SigmetRelevantIff | server.js:257-281 | A SIGMET is kept exactly when it mentions an airport, or the route has airports and the place test passes |
| Relevance.SigmetNoAirports | server.js:257-281 | With no airports no SIGMET is kept, even one with a latitude/longitude |
| Summary.PromptMarked | server.js:52-67 | Each prompt's sixteenth character tells the five prompts apart |
| Summary.PromptIsDefaultIff | server.js:52-67 | The default prompt is used exactly for the types other than METAR, TAF, PIREP and SIGMET |
| Summary.PromptIdentifiesKind | server.js:52-67 | Each known type has a prompt that no other type gets |
| Summary.ContentLayout | server.js:87 | The user message is the prompt, a blank line, then the report |
| Summary.TafLinesRecoverable | server.js:47-49 | A station's TAF lines are joined with newlines, and splitting on newlines gives them back |
| Summary.NoKeyIgnoresReply | server.js:69-72 | Without a key the model is not consulted: every reply gives the fixed API-key-missing placeholder |
| Summary.FailureBecomesPlaceholder | server.js:96-113 | With a key, a failed call gives "Summary temporarily unavailable (message)" carrying the error's message, and never the key-missing text |
| Summary.StatusReadable | server.js:96-100 | The status of a rejected call can be read back from its message with parseInt |
| Weather.MapIndexed | server.js:174-177 | One result per element, the result at i computed from element i |
| Weather.PushEach | server.js:174-177 | The summary loop yields one summary per report, in report order |
| Weather.GroupsGiveTafSummaries | server.js:192-199 | Reading the groups from the grouping object gives the TAF entries of the specification |
| Weather.FetchPireps | server.js:201-233 | The PIREP block keeps the relevant feed lines, or none when the fetch threw or was not ok, with one summary per kept report |
| Weather.HandleWeather | server.js:116-296 | The handler's answer is the specified one: 400 from the route check, 500 from a failed fetch, or the assembled results |
| Weather.GatherReports | server.js:157-288 | After the route check the fetches run in order, each failure ends with 500, and otherwise the results are assembled |
| Weather.GatherKinds | server.js:157-294 | After the route check the answer is 500 exactly when a METAR, TAF or SIGMET fetch fails, and otherwise the assembled results |
| Weather.AnswerKinds | server.js:116-294 | The answer is 400 exactly when the route check fails, with its error and details, whatever the feeds say; 500 exactly when the route is valid and a METAR, TAF or SIGMET fetch fails |
| Weather.SigmetFailureAborts | server.js:235-245 | A SIGMET response that is not ok ends with 500 and a message naming the feed and its status; the domestic feed is looked at first |
| Weather.SigmetFailureStatus | server.js:237 | The status of a failed SIGMET response can be read back from the message |
| Weather.PirepFailureIsolated | server.js:201-233 | A PIREP fetch that throws or is not ok empties the PIREPs and their summaries and changes nothing else in the answer |
| Weather.StatusNotChecked | server.js:170-181 | The METAR and TAF status is not checked: responses with the same body give the same answer, ok or not |
| Weather.SummariesPaired | server.js:174-286 | The METAR, PIREP and SIGMET summary lists have one entry per report, the summary at i being that of report i |
| Weather.TafSummariesPerStation | server.js:192-199 | There is one TAF entry per distinct station, in order of first appearance; each line's station has one, and its summary is that of the station's lines |
| Weather.PirepsKept | server.js:201-224 | The PIREPs kept are feed lines, in feed order, each relevant to the route |
| Weather.SigmetsKept | server.js:247-281 | The SIGMETs kept are relevant to the route, the domestic ones before the international ones, each in feed order |
| Coordinates.CoordinateCache.constructor | script.js:7 | The cache starts empty |
| Coordinates.CoordinateCache.GetAirportCoordinates | script.js:532-587 | One call gives the specified answer and leaves the cache the specified one |
| Coordinates.EmptyCode | script.js:533-535 | An empty code gives null and changes nothing |
| Coordinates.CacheHit | script.js:537-540 | A cache hit returns the cached place, changes nothing, and depends on neither the API nor the table |
| Coordinates.OnlyFoundIsCached | script.js:558-570 | Only a place the API found is written, under its own code; every earlier entry stays |
| Coordinates.FallsBackToTable | script.js:545-585 | Without a key, or when the API finds nothing or fails, an uncached code gets the table entry or null |
| Coordinates.ResultSource | script.js:532-587 | Every place returned comes from the cache, the API or the table |
| Coordinates.FoundIsRemembered | script.js:558-570 | Once the API has found a code, later calls answer the same place, whatever the key, table or API say then |
| Coordinates.FallbackNotRemembered | script.js:572-585 | Table fallbacks are not remembered: a later call sees a changed table |

## Left out

- Tafs.TafKey, Metar.DecodeMetar, Sigmet.FormatTime: strings are sequences of code points, while JavaScript's `substring` and `length` count UTF-16 code units; the two differ only for characters outside the Basic Multilingual Plane, and the feeds are ASCII.
- The map and UI code is presentation work and is not modelled. This covers Leaflet, canvas and DOM drawing, `formatDecodedMetar`, `updateUI`, `showError`, the event listeners and the MutationObserver.
- The waypoint HTML of `generateWeatherSummary` is not modelled either, because it uses `toLocaleString`. Its class, label, wind and visibility are modelled.
- Floating point is not modelled: the map projection, `toFixed`, `toLocaleString`, and the `wp.lat && wp.lng` filter.
- Coordinates.Place: `parseFloat` on the API's coordinates is not modelled. The numbers are kept as the API returns them.
- The static airport table and `usStatesData` are not modelled. The table is a map parameter.
- `calculateTotalDistance` is not modelled, because it is an unimplemented placeholder.
- The duplicate route check in the search-button handler (script.js:849-871) is not modelled. It repeats the server's check order, which `Route` models.
- HTTP, `fetch`, express, the `/api/config` endpoint, the environment-variable check, `process.exit`, the static route and `listen` are I/O. Their results are parameters.
- The exact request body sent to Groq (server.js:74-94) is not modelled.
- Reading the error body of a failed Groq response (server.js:97) and the console logging are left out. Neither changes a result.
- The language model's replies are an opaque function of the request. The model does not say that two identical requests get the same reply.
- Async sequencing: the awaits run one after another, and are modelled as sequential steps.
- Weather.Fetch: fetches are keyed by a `Feed` value rather than by the URL string. `Weather.Url` gives each feed's URL.
- Summary.Reply: a `TypeError` from reading `result.choices` is folded into the thrown-error reply, with its message as a parameter.
- `Tafs.KeysOf`: object keys are kept in first-appearance order. JavaScript lists integer-like keys first, which four-character station codes are not in practice.
- `Coordinates.Decide`, `Sigmet.Describe`: JavaScript prototype keys such as `constructor` in `obj[code] || code` and in the cache lookups are not modelled. Lookups see only the keys that were put in.
- Route.RouteOf: a `route` query value given more than once arrives as an array. It is modelled as absent or as one string.
- `Text.ToUpper` covers ASCII and the few non-ASCII characters whose upper case is ASCII only. Other characters are left unchanged; this matters only in error texts.
