/** The tracker-detection core of the analytics code scraper: the fixed table
    of trackers, the substring membership test over the script-resource names
    a page loaded, and the result record built for one domain. The browser
    session that produces the resource names is outside this module; its
    output arrives as the `requests` parameter. */
module CheckJavascript {
  import opened Substrings

  datatype Option<T> = None | Some(value: T)

  // ---------------------------------------------------------------------
  // The tracker table
  // ---------------------------------------------------------------------

  const GoogleAnalyticsName: string := "Google Analytics"
  const ChartbeatName: string := "Chartbeat"
  const FacebookPixelName: string := "Facebook Pixel"

  const GoogleAnalyticsRequest: string := "analytics.js"
  const ChartbeatRequest: string := "chartbeat"
  const FacebookPixelRequest: string := "fbevents.js"

  /** The key under which the result record holds the checked domain. */
  const UrlKey: string := "URL"

  /** A tracker: the name it is reported under and the substring of a
      script-resource name that reveals it. */
  datatype Tracker = Tracker(name: string, pattern: string)

  /** The trackers in the order the result record is filled. */
  const Trackers: seq<Tracker> := [
    Tracker(GoogleAnalyticsName, GoogleAnalyticsRequest),
    Tracker(ChartbeatName, ChartbeatRequest),
    Tracker(FacebookPixelName, FacebookPixelRequest)
  ]

  /** No two trackers are reported under the same name. */
  predicate NamesDistinct(table: seq<Tracker>)
  {
    forall i, j :: 0 <= i < j < |table| ==> table[i].name != table[j].name
  }

  /** No two trackers share a pattern. */
  predicate PatternsDistinct(table: seq<Tracker>)
  {
    forall i, j :: 0 <= i < j < |table| ==> table[i].pattern != table[j].pattern
  }

  /** A table whose names neither collide with each other nor with the URL
      key, so that no entry of a result record overwrites another. */
  predicate WellFormedTable(table: seq<Tracker>)
  {
    && NamesDistinct(table)
    && forall i :: 0 <= i < |table| ==> table[i].name != UrlKey
  }

  /** The table read as a mapping from tracker name to pattern, filled in
      table order. */
  function PatternMap(table: seq<Tracker>): (m: map<string, string>)
  {
    if table == [] then
      map[]
    else
      var last := table[|table| - 1];
      PatternMap(table[..|table| - 1])[last.name := last.pattern]
  }

  /** When names are distinct, the mapping holds exactly one entry per
      tracker, sending its name to its pattern. */
  lemma {:induction false} PatternMapLookup(table: seq<Tracker>)
    requires NamesDistinct(table)
    ensures forall i :: 0 <= i < |table| ==>
      table[i].name in PatternMap(table) && PatternMap(table)[table[i].name] == table[i].pattern
    ensures forall name :: name in PatternMap(table) ==> exists i :: 0 <= i < |table| && table[i].name == name
    ensures |PatternMap(table)| == |table|
  {
    if table != [] {
      var init, last := table[..|table| - 1], table[|table| - 1];
      assert forall i :: 0 <= i < |init| ==> init[i] == table[i];
      PatternMapLookup(init);
      var before, after := PatternMap(init), PatternMap(table);
      assert last.name !in before;
      assert after == before[last.name := last.pattern];
      forall i | 0 <= i < |table|
        ensures table[i].name in after && after[table[i].name] == table[i].pattern
      {
        if i < |init| {
          assert table[i] == init[i] && before[init[i].name] == init[i].pattern;
          assert table[i].name != last.name;
        }
      }
    }
  }

  /** The fixed table is well formed and its patterns are distinct, so the
      enumeration of patterns has three members and no alias. */
  lemma TrackerTableWellFormed()
    ensures WellFormedTable(Trackers) && PatternsDistinct(Trackers)
  {
    assert GoogleAnalyticsName[0] != ChartbeatName[0];
    assert GoogleAnalyticsName[0] != FacebookPixelName[0];
    assert ChartbeatName[0] != FacebookPixelName[0];
    assert forall i :: 0 <= i < |Trackers| ==> Trackers[i].name[0] != UrlKey[0];
    assert GoogleAnalyticsRequest[0] != ChartbeatRequest[0];
    assert GoogleAnalyticsRequest[0] != FacebookPixelRequest[0];
    assert ChartbeatRequest[0] != FacebookPixelRequest[0];
  }

  /** Read as a mapping, the fixed table sends each display name to its
      pattern. */
  lemma TrackerPatterns()
    ensures PatternMap(Trackers) == map[
      GoogleAnalyticsName := GoogleAnalyticsRequest,
      ChartbeatName := ChartbeatRequest,
      FacebookPixelName := FacebookPixelRequest]
  {
    assert Trackers[..2][..1] == Trackers[..1];
    assert Trackers[..1][..0] == [];
    assert PatternMap(Trackers[..1]) == map[GoogleAnalyticsName := GoogleAnalyticsRequest];
    assert PatternMap(Trackers[..2]) == map[GoogleAnalyticsName := GoogleAnalyticsRequest, ChartbeatName := ChartbeatRequest];
    assert Trackers[..3] == Trackers;
  }

  // ---------------------------------------------------------------------
  // The membership test
  // ---------------------------------------------------------------------

  /** Some script-resource name contains `pattern` as a substring. */
  predicate IsJsRequestInList(requests: seq<string>, pattern: string)
  {
    exists i :: 0 <= i < |requests| && IsSubstring(pattern, requests[i])
  }

  /** The membership test as a scan: it tries the names from the first and
      stops at the first one that contains the pattern, as `any` does. */
  method ScanForJsRequest(requests: seq<string>, pattern: string) returns (found: bool)
    ensures found <==> IsJsRequestInList(requests, pattern)
  {
    found := false;
    var i := 0;
    while i < |requests| && !found
      invariant 0 <= i <= |requests|
      invariant found <==> exists j :: 0 <= j < i && IsSubstring(pattern, requests[j])
    {
      found := Contains(pattern, requests[i]);
      i := i + 1;
    }
  }

  /** With no resource names nothing is detected. */
  lemma NoRequestsNoMatch(pattern: string)
    ensures !IsJsRequestInList([], pattern)
  {
  }

  /** A joined list matches exactly when one of its parts does. */
  lemma InListConcat(a: seq<string>, b: seq<string>, pattern: string)
    ensures IsJsRequestInList(a + b, pattern) <==> IsJsRequestInList(a, pattern) || IsJsRequestInList(b, pattern)
  {
    if IsJsRequestInList(a + b, pattern) {
      var i :| 0 <= i < |a + b| && IsSubstring(pattern, (a + b)[i]);
      if i >= |a| {
        assert (a + b)[i] == b[i - |a|];
      }
    }
    if IsJsRequestInList(b, pattern) {
      var i :| 0 <= i < |b| && IsSubstring(pattern, b[i]);
      assert (a + b)[|a| + i] == b[i];
      assert IsSubstring(pattern, (a + b)[|a| + i]);
    }
    if IsJsRequestInList(a, pattern) {
      var i :| 0 <= i < |a| && IsSubstring(pattern, a[i]);
      assert (a + b)[i] == a[i];
      assert IsSubstring(pattern, (a + b)[i]);
    }
  }

  /** Appending resource names never turns a detection into a miss. */
  lemma AppendKeepsMatch(requests: seq<string>, more: seq<string>, pattern: string)
    requires IsJsRequestInList(requests, pattern)
    ensures IsJsRequestInList(requests + more, pattern)
  {
    InListConcat(requests, more, pattern);
  }

  /** The test depends only on which names occur in the list. */
  lemma InListBySameNames(a: seq<string>, b: seq<string>, pattern: string)
    requires forall x :: x in a ==> x in b
    requires IsJsRequestInList(a, pattern)
    ensures IsJsRequestInList(b, pattern)
  {
    var i :| 0 <= i < |a| && IsSubstring(pattern, a[i]);
    assert a[i] in b;
    var j :| 0 <= j < |b| && b[j] == a[i];
  }

  /** Reordering the resource names does not change the result. */
  lemma PermutationKeepsResult(a: seq<string>, b: seq<string>, pattern: string)
    requires multiset(a) == multiset(b)
    ensures IsJsRequestInList(a, pattern) <==> IsJsRequestInList(b, pattern)
  {
    forall x | x in a ensures x in b {
      assert x in multiset(a);
    }
    forall x | x in b ensures x in a {
      assert x in multiset(b);
    }
    if IsJsRequestInList(a, pattern) {
      InListBySameNames(a, b, pattern);
    }
    if IsJsRequestInList(b, pattern) {
      InListBySameNames(b, a, pattern);
    }
  }

  /** A resource name equal to the pattern is detected. */
  lemma ExactNameMatches(requests: seq<string>, pattern: string)
    requires pattern in requests
    ensures IsJsRequestInList(requests, pattern)
  {
    var i :| 0 <= i < |requests| && requests[i] == pattern;
    SubstringReflexive(pattern);
  }

  /** The empty pattern is found exactly when there is a resource name. */
  lemma EmptyPatternMatchesAnyName(requests: seq<string>)
    ensures IsJsRequestInList(requests, "") <==> |requests| > 0
  {
    if |requests| > 0 {
      EmptyIsSubstring(requests[0]);
    }
  }

  /** The match is by substring, not equality: the resource `chartbeat.js`
      reveals the Chartbeat tracker although it is not equal to its
      pattern. */
  lemma MatchIsBySubstring()
    ensures IsJsRequestInList(["chartbeat.js"], ChartbeatRequest)
    ensures ChartbeatRequest !in ["chartbeat.js"]
  {
    var requests := ["chartbeat.js"];
    assert OccursAt(ChartbeatRequest, requests[0], 0);
    assert IsSubstring(ChartbeatRequest, requests[0]);
  }

  // ---------------------------------------------------------------------
  // The result record
  // ---------------------------------------------------------------------

  /** A value of the result record: the checked domain or a detection. */
  datatype Value = Str(s: string) | Flag(b: bool)

  /** The record for `url`: the URL entry, then one detection per tracker of
      `table`, each entry added in table order. */
  function RecordFor(url: string, requests: seq<string>, table: seq<Tracker>): (r: map<string, Value>)
  {
    if table == [] then
      map[UrlKey := Str(url)]
    else
      var last := table[|table| - 1];
      RecordFor(url, requests, table[..|table| - 1])[last.name := Flag(IsJsRequestInList(requests, last.pattern))]
  }

  /** For a well-formed table the record holds the URL under the URL key,
      under each tracker's name the membership test for that tracker's
      pattern on the one list of resource names, and nothing else. */
  lemma {:induction false} RecordForEntries(url: string, requests: seq<string>, table: seq<Tracker>)
    requires WellFormedTable(table)
    ensures UrlKey in RecordFor(url, requests, table) && RecordFor(url, requests, table)[UrlKey] == Str(url)
    ensures forall i :: 0 <= i < |table| ==>
      && table[i].name in RecordFor(url, requests, table)
      && RecordFor(url, requests, table)[table[i].name] == Flag(IsJsRequestInList(requests, table[i].pattern))
    ensures forall key :: key in RecordFor(url, requests, table) ==>
      key == UrlKey || exists i :: 0 <= i < |table| && table[i].name == key
    ensures |RecordFor(url, requests, table)| == |table| + 1
  {
    if table != [] {
      var init, last := table[..|table| - 1], table[|table| - 1];
      assert forall i :: 0 <= i < |init| ==> init[i] == table[i];
      RecordForEntries(url, requests, init);
      assert last.name !in RecordFor(url, requests, init);
      forall i | 0 <= i < |table|
        ensures && table[i].name in RecordFor(url, requests, table)
                && RecordFor(url, requests, table)[table[i].name] == Flag(IsJsRequestInList(requests, table[i].pattern))
      {
        if i < |init| {
          assert table[i].name != last.name;
        }
      }
    }
  }

  /** The keys of a record do not depend on what was detected. */
  lemma {:induction false} RecordKeysIndependentOfRequests(url: string, a: seq<string>, b: seq<string>, table: seq<Tracker>)
    ensures RecordFor(url, a, table).Keys == RecordFor(url, b, table).Keys
  {
    if table != [] {
      RecordKeysIndependentOfRequests(url, a, b, table[..|table| - 1]);
    }
  }

  /** For the fixed table the record is the URL entry followed by the
      Google Analytics, Chartbeat and Facebook Pixel detections. */
  lemma RecordForTrackers(url: string, requests: seq<string>)
    ensures RecordFor(url, requests, Trackers) == map[
      UrlKey := Str(url),
      GoogleAnalyticsName := Flag(IsJsRequestInList(requests, GoogleAnalyticsRequest)),
      ChartbeatName := Flag(IsJsRequestInList(requests, ChartbeatRequest)),
      FacebookPixelName := Flag(IsJsRequestInList(requests, FacebookPixelRequest))]
  {
    assert Trackers[..2][..1] == Trackers[..1];
    assert Trackers[..1][..0] == [];
    var ga := IsJsRequestInList(requests, GoogleAnalyticsRequest);
    var cb := IsJsRequestInList(requests, ChartbeatRequest);
    assert RecordFor(url, requests, Trackers[..1]) == map[UrlKey := Str(url), GoogleAnalyticsName := Flag(ga)];
    assert RecordFor(url, requests, Trackers[..2]) == map[UrlKey := Str(url), GoogleAnalyticsName := Flag(ga), ChartbeatName := Flag(cb)];
    assert Trackers[..3] == Trackers;
  }

  /** The record for the fixed table has exactly four keys, the URL key and
      the three tracker names, whichever trackers were detected. */
  lemma RecordHasFourKeys(url: string, requests: seq<string>)
    ensures RecordFor(url, requests, Trackers).Keys == {UrlKey, GoogleAnalyticsName, ChartbeatName, FacebookPixelName}
    ensures |RecordFor(url, requests, Trackers)| == 4
  {
    RecordForTrackers(url, requests);
    TrackerTableWellFormed();
    RecordForEntries(url, requests, Trackers);
  }

  /** Builds the result record for `url` from the resource names its page
      loaded, filling the URL entry and then one entry per tracker, each
      from the same list. */
  method CheckWebsiteForAnalyticsJavascript(url: string, requests: seq<string>) returns (record: map<string, Value>)
    ensures record == RecordFor(url, requests, Trackers)
    ensures record.Keys == {UrlKey, GoogleAnalyticsName, ChartbeatName, FacebookPixelName}
    ensures record[UrlKey] == Str(url)
    ensures record[GoogleAnalyticsName] == Flag(IsJsRequestInList(requests, GoogleAnalyticsRequest))
    ensures record[ChartbeatName] == Flag(IsJsRequestInList(requests, ChartbeatRequest))
    ensures record[FacebookPixelName] == Flag(IsJsRequestInList(requests, FacebookPixelRequest))
  {
    RecordForTrackers(url, requests);
    RecordHasFourKeys(url, requests);
    record := map[];
    record := record[UrlKey := Str(url)];
    var googleAnalytics := ScanForJsRequest(requests, Trackers[0].pattern);
    record := record[Trackers[0].name := Flag(googleAnalytics)];
    var chartbeat := ScanForJsRequest(requests, Trackers[1].pattern);
    record := record[Trackers[1].name := Flag(chartbeat)];
    var facebookPixel := ScanForJsRequest(requests, Trackers[2].pattern);
    record := record[Trackers[2].name := Flag(facebookPixel)];
  }

  /** Of the resource names jquery.js, analytics.js and chartbeat.js, the
      Google Analytics and Chartbeat patterns are found and the Facebook
      Pixel pattern is not. */
  lemma ExampleMembership()
    ensures IsJsRequestInList(["jquery.js", "analytics.js", "chartbeat.js"], GoogleAnalyticsRequest)
    ensures IsJsRequestInList(["jquery.js", "analytics.js", "chartbeat.js"], ChartbeatRequest)
    ensures !IsJsRequestInList(["jquery.js", "analytics.js", "chartbeat.js"], FacebookPixelRequest)
  {
    var requests := ["jquery.js", "analytics.js", "chartbeat.js"];
    ExactNameMatches(requests, GoogleAnalyticsRequest);
    assert OccursAt(ChartbeatRequest, requests[2], 0);
    assert IsSubstring(ChartbeatRequest, requests[2]);
    forall i | 0 <= i < |requests|
      ensures !IsSubstring(FacebookPixelRequest, requests[i])
    {
      NotSubstringByFirstChar(FacebookPixelRequest, requests[i]);
    }
  }

  /** A page that loaded jQuery, Google Analytics and Chartbeat is reported
      with Google Analytics and Chartbeat and without the Facebook Pixel. */
  lemma ExampleDetection()
    ensures RecordFor("example.com", ["jquery.js", "analytics.js", "chartbeat.js"], Trackers) == map[
      UrlKey := Str("example.com"),
      GoogleAnalyticsName := Flag(true),
      ChartbeatName := Flag(true),
      FacebookPixelName := Flag(false)]
  {
    var requests := ["jquery.js", "analytics.js", "chartbeat.js"];
    RecordForTrackers("example.com", requests);
    ExampleMembership();
  }

  /** A page that loaded no scripts is reported with no tracker. */
  lemma EmptyRequestsDetectNothing(url: string)
    ensures RecordFor(url, [], Trackers) == map[
      UrlKey := Str(url),
      GoogleAnalyticsName := Flag(false),
      ChartbeatName := Flag(false),
      FacebookPixelName := Flag(false)]
  {
    RecordForTrackers(url, []);
  }

  // ---------------------------------------------------------------------
  // The URL entry as the source writes it
  // ---------------------------------------------------------------------

  /** What a call of the orchestrator produces: the record, or the error
      raised when a name it reads is unbound. */
  datatype Outcome = Returned(record: map<string, Value>) | NameError(name: string)

  /** The orchestrator as written: the URL entry is read from the
      module-level name `domain` rather than from the parameter.
      `moduleDomain` is that name's binding at the time of the call, None
      when it is unbound. */
  function CheckAsWritten(url: string, requests: seq<string>, moduleDomain: Option<string>): (o: Outcome)
    ensures o.Returned? <==> moduleDomain.Some?
    ensures o.NameError? ==> o.name == "domain"
    ensures o.Returned? ==> o.record.Keys == {UrlKey, GoogleAnalyticsName, ChartbeatName, FacebookPixelName}
    ensures o.Returned? ==> o.record[UrlKey] == Str(moduleDomain.value)
    ensures o.Returned? ==> o.record[GoogleAnalyticsName] == Flag(IsJsRequestInList(requests, GoogleAnalyticsRequest))
    ensures o.Returned? ==> o.record[ChartbeatName] == Flag(IsJsRequestInList(requests, ChartbeatRequest))
    ensures o.Returned? ==> o.record[FacebookPixelName] == Flag(IsJsRequestInList(requests, FacebookPixelRequest))
  {
    match moduleDomain
    case None => NameError("domain")
    case Some(domain) =>
      RecordForTrackers(domain, requests);
      Returned(RecordFor(domain, requests, Trackers))
  }

  /** Called where `domain` is unbound, the orchestrator as written fails;
      called where `domain` names another site, it reports that site instead
      of the one it was asked to check. */
  lemma AsWrittenMisreportsUrl()
    ensures CheckAsWritten("example.com", [], None) == NameError("domain")
    ensures var o := CheckAsWritten("example.com", [], Some("other.org"));
      o.Returned? && UrlKey in o.record && o.record[UrlKey] != Str("example.com")
  {
    assert "other.org"[0] != "example.com"[0];
  }

  /** In the command-line loop, which binds `domain` to the very argument it
      passes, the orchestrator as written agrees with the corrected one. */
  lemma AsWrittenAgreesInCommandLineLoop(url: string, requests: seq<string>)
    ensures CheckAsWritten(url, requests, Some(url)) == Returned(RecordFor(url, requests, Trackers))
  {
  }
}
