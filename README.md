# Analytics tracker detection

A model of the detection core of the analytics code scraper. The scraper opens
a domain in a browser, waits, and collects the file names of the scripts the
page loaded. It then reports which of three analytics trackers the page uses.
A tracker counts as present when some script name contains that tracker's
fixed pattern as a substring.

The model has two modules:

- `Substrings` (`substrings.dfy`) gives the meaning of Python's
  `pat in s` on strings. `IsSubstring` defines it and `Contains` decides it.
- `CheckJavascript` (`check_javascript.dfy`) holds the rest:
  - the tracker table, an ordered sequence of `Tracker(name, pattern)`
    records;
  - the membership test `IsJsRequestInList` and its scanning method
    `ScanForJsRequest`;
  - the result record built by `CheckWebsiteForAnalyticsJavascript`.

The record is a `map<string, Value>`. A `Value` is either `Str` (the checked
domain) or `Flag` (whether a tracker was detected). `RecordFor` builds it from
an arbitrary table, adding one entry per tracker in table order. The fixed
three-entry table is one instance. So a new tracker is added by adding a
record to the table, and the lemmas about `RecordFor` still apply.

The browser session is not modelled. Its output, the list of script-resource
names, is the `requests` parameter of the orchestrator. The orchestrator fills
the URL entry from its own parameter. The source reads the global `domain`
there instead; see "## Findings".

In the source, the enumeration `AnalyticsTrackingCode` is keyed by identifiers
(such as `GOOGLE_ANALYTICS_TRACKING_CODE_NAME`), not by display names. It is
the orchestrator that pairs each display-name constant with the enumeration
member of the same identifier. The model writes that pairing directly as the
table. `PatternMap` reads the table back as the name-to-pattern mapping.

## Model

| member | source | states |
|---|---|---|
| `Substrings.IsSubstring` | src/check_javascript.py:80 | Definition of Python's `pattern in name`: the pattern occurs in the name as a contiguous run of characters at some start index. A definition, so it has no contract of its own. |
| `Substrings.Contains` | src/check_javascript.py:80 | The string test `pattern in name` is true exactly when the pattern occurs in the name as a contiguous run of characters. |
| `Substrings.SubstringReflexive` | src/check_javascript.py:80 | Every name contains itself, so an exact match always counts. |
| `Substrings.EmptyIsSubstring` | src/check_javascript.py:80 | The empty pattern occurs in every name, the empty name included. |
| `CheckJavascript.IsJsRequestInList` | src/check_javascript.py:60-80 | Definition of `is_js_request_in_list`: some resource name contains the pattern as a substring. A definition, so it has no contract of its own; the lemmas below state its properties. |
| `CheckJavascript.ScanForJsRequest` | src/check_javascript.py:60-80 | Returns true exactly when some name contains the pattern, agreeing with `IsJsRequestInList`. Its body stops at the first match, as `any` does, but the contract does not mention that. |
| `CheckJavascript.NoRequestsNoMatch` | src/check_javascript.py:80 | On an empty list of names the membership test is false for every pattern. |
| `CheckJavascript.InListConcat` | src/check_javascript.py:80 | The test on two joined lists is true exactly when it is true on one of them. |
| `CheckJavascript.AppendKeepsMatch` | src/check_javascript.py:80 | Appending names never turns a detection into a miss. |
| `CheckJavascript.InListBySameNames` | src/check_javascript.py:80 | If every name of one list also occurs in another, a detection in the first is a detection in the second. |
| `CheckJavascript.PermutationKeepsResult` | src/check_javascript.py:80 | Reordering the list of names does not change the result, in either direction. |
| `CheckJavascript.ExactNameMatches` | src/check_javascript.py:80 | A name equal to the pattern is detected. |
| `CheckJavascript.EmptyPatternMatchesAnyName` | src/check_javascript.py:80 | The empty pattern is detected exactly when the list is non-empty. |
| `CheckJavascript.MatchIsBySubstring` | src/check_javascript.py:80 | `chartbeat.js` reveals the Chartbeat pattern `chartbeat` although it does not equal it, so matching is by substring. |
| `CheckJavascript.Trackers` | src/check_javascript.py:19-35 | The fixed tracker table as an ordered list of (name, pattern) records. A constant, so it has no contract of its own; `TrackerTableWellFormed` and `TrackerPatterns` state its properties. |
| `CheckJavascript.TrackerTableWellFormed` | src/check_javascript.py:19-35 | The three display names differ from each other and from `URL`, so no result entry overwrites another. The three patterns differ too, so the enumeration has no aliases. |
| `CheckJavascript.TrackerPatterns` | src/check_javascript.py:19-35 | The table maps `Google Analytics` to `analytics.js`, `Chartbeat` to `chartbeat` and `Facebook Pixel` to `fbevents.js`. |
| `CheckJavascript.PatternMapLookup` | src/check_javascript.py:32-35 | When the names are distinct, the table read as a mapping has one entry per tracker. That entry sends the tracker's name to its pattern, and there is no other entry. |
| `CheckJavascript.RecordFor` | src/check_javascript.py:101-112 | Definition of the record: the URL assignment followed by one assignment per tracker, in table order. A definition, so it has no contract of its own; `RecordForEntries` states what it holds. |
| `CheckJavascript.RecordForEntries` | src/check_javascript.py:101-112 | For any well-formed table the record has the URL under `URL`. Under each tracker's name it has the membership test for that tracker's pattern on the one list of names. It has nothing else, so its size is the table size plus one. |
| `CheckJavascript.RecordKeysIndependentOfRequests` | src/check_javascript.py:101-112 | For any table, the keys of the record do not depend on the list of names, so they do not depend on which trackers were detected. |
| `CheckJavascript.RecordForTrackers` | src/check_javascript.py:101-112 | For the fixed table the record is exactly the URL entry plus the Google Analytics, Chartbeat and Facebook Pixel detections. |
| `CheckJavascript.RecordHasFourKeys` | src/check_javascript.py:101-112 | The record always has exactly four keys: `URL` and the three tracker names. |
| `CheckJavascript.CheckWebsiteForAnalyticsJavascript` | src/check_javascript.py:83-114 | The four successive assignments yield the generic record for the fixed table. It has exactly four keys. `URL` holds the checked domain. Each tracker's flag is the membership test on the same list of names with that tracker's pattern. |
| `CheckJavascript.ExampleMembership` | src/check_javascript.py:80 | Among `jquery.js`, `analytics.js` and `chartbeat.js`, the Google Analytics and Chartbeat patterns are found and the Facebook Pixel pattern is not. |
| `CheckJavascript.ExampleDetection` | src/check_javascript.py:99-112 | For `example.com` with those three names the record is `{URL: example.com, Google Analytics: true, Chartbeat: true, Facebook Pixel: false}`. |
| `CheckJavascript.EmptyRequestsDetectNothing` | src/check_javascript.py:99-112 | With no script names, all three tracker flags are false. |
| `CheckJavascript.CheckAsWritten` | src/check_javascript.py:101-102 | As written, the call returns a record exactly when the module-level `domain` is bound; otherwise it raises a NameError naming `domain`. A returned record has the usual four keys. Its URL entry is that binding, not the parameter. Each tracker flag is the membership test for that tracker's pattern on the list of names. |
| `CheckJavascript.AsWrittenMisreportsUrl` | src/check_javascript.py:102 | A call where `domain` is unbound fails. A call where `domain` names another site reports that site instead of the one asked for. |
| `CheckJavascript.AsWrittenAgreesInCommandLineLoop` | src/check_javascript.py:130-131 | The command-line loop binds `domain` to the argument it passes. There, the code as written produces the same record as the corrected orchestrator. |

## Left out

- Page loading (`open_website_return_javascript_requests`): launching the browser, installing its driver, navigating to `https://` plus the domain, the 5-second wait and closing the session. This is I/O through a browser-automation library. Its result is the `requests` parameter, and its failures (driver launch, navigation, timeout) are not modelled.
- The in-page script that turns resource URLs into their last path segment. It runs inside the browser. A resource URL it cannot match fails in the browser. The model assumes every name arrives as a string.
- The command-line driver: argument parsing, the loop over domains (except for the binding of `domain` it provides) and printing each record. This is process I/O.
- The `HTTPS_PREFIX` concatenation and the wait constant. They only feed the browser.
- Error propagation across domains. An error in one domain ends the whole run because no domain is isolated from the next. This happens only in the left-out I/O layer.
- Python dictionaries keep insertion order; a Dafny `map` does not. Only the printed key order depends on it. `RecordFor` does add entries in table order, but the order is not visible in its result.

## Findings

| source | as written | input that shows it | evidently intended | confidence | as-written member | corrected member |
|---|---|---|---|---|---|---|
| src/check_javascript.py:102 | The URL entry is set from the module-level name `domain`, not from the parameter `url`. | Import the module and call `check_website_for_analytics_javascript("example.com")` with no global `domain`: NameError. If a global `domain` names another site, the record reports that site. | The URL entry is the `url` argument. | high; not executed | `CheckJavascript.AsWrittenMisreportsUrl` | `CheckJavascript.CheckWebsiteForAnalyticsJavascript` |
