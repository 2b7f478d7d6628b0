/**
 * Clair's vulnerability report turned into Harbor's scan overview: the
 * severity scale, the parsing of Clair's severity names, and the summary
 * of a layer's components by severity.
 */
module ClairUtils {
  import opened Wrappers
  import opened GoStrings

  /** models.Severity, from SevNone (1) up to SevHigh (5). */
  datatype Severity = SevNone | SevUnknown | SevLow | SevMedium | SevHigh

  function Level(s: Severity): (l: int)
    ensures 1 <= l <= 5
  {
    match s
      case SevNone => 1
      case SevUnknown => 2
      case SevLow => 3
      case SevMedium => 4
      case SevHigh => 5
  }

  /** The severity with the given level; the inverse of Level. */
  function SevOfLevel(l: int): (s: Severity)
    requires 1 <= l <= 5
    ensures Level(s) == l
  {
    if l == 1 then SevNone else if l == 2 then SevUnknown else if l == 3 then SevLow
    else if l == 4 then SevMedium else SevHigh
  }

  lemma LevelInjective(a: Severity, b: Severity)
    ensures Level(a) == Level(b) <==> a == b
  {
  }

  /** The larger of two severities. */
  function MaxSev(a: Severity, b: Severity): (m: Severity)
    ensures Level(m) >= Level(a) && Level(m) >= Level(b)
    ensures m == a || m == b
  {
    if Level(b) > Level(a) then b else a
  }

  /** Clair's severity names (models.SeverityNone ... models.SeverityCritical). */
  const SeverityNone: string := "negligible"
  const SeverityLow: string := "low"
  const SeverityMedium: string := "medium"
  const SeverityHigh: string := "high"
  const SeverityCritical: string := "critical"

  /** ParseClairSev: the lower-cased name chooses the severity; any other name is SevUnknown. */
  function ParseClairSev(clairSev: string): (s: Severity)
    ensures s == SevNone <==> GoToLower(clairSev) == SeverityNone
    ensures s == SevLow <==> GoToLower(clairSev) == SeverityLow
    ensures s == SevMedium <==> GoToLower(clairSev) == SeverityMedium
    ensures s == SevHigh <==> GoToLower(clairSev) == SeverityHigh || GoToLower(clairSev) == SeverityCritical
    ensures s == SevUnknown <==>
      GoToLower(clairSev) !in {SeverityNone, SeverityLow, SeverityMedium, SeverityHigh, SeverityCritical}
  {
    var sev := GoToLower(clairSev);
    if sev == SeverityNone then SevNone
    else if sev == SeverityLow then SevLow
    else if sev == SeverityMedium then SevMedium
    else if sev == SeverityHigh || sev == SeverityCritical then SevHigh
    else SevUnknown
  }

  /** Parsing ignores case: a name and its lower-cased form parse alike. */
  lemma ParseIgnoresCase(clairSev: string)
    ensures ParseClairSev(GoToLower(clairSev)) == ParseClairSev(clairSev)
  {
    GoToLowerIdempotent(clairSev);
  }

  /** Go lower-cases U+0130 to an ASCII i, so a dotted capital I in a severity name still parses. */
  lemma ParseDottedCapitalI()
    ensures ParseClairSev("H\U{0130}GH") == SevHigh
    ensures ParseClairSev("CR\U{0130}T\U{0130}CAL") == SevHigh
  {
    var high := "H\U{0130}GH";
    assert GoToLower(high) == [GoLowerChar(high[0]), GoLowerChar(high[1]), GoLowerChar(high[2]), GoLowerChar(high[3])];
    assert GoToLower(high) == SeverityHigh;
    var critical := "CR\U{0130}T\U{0130}CAL";
    assert GoToLower(critical) == SeverityCritical;
  }

  // ---- the components overview ----

  /** A vulnerability in Clair's layer report; a nil list of them is the empty sequence. */
  datatype ClairVulnerability =
    ClairVulnerability(name: string, severity: string, fixedBy: string, link: string, description: string)

  /** A component (feature) of a layer in Clair's report. */
  datatype ClairFeature = ClairFeature(name: string, version: string, vulnerabilities: seq<ClairVulnerability>)

  /** models.ComponentsOverviewEntry: a severity level and how many components have it. */
  datatype OverviewEntry = OverviewEntry(sev: int, count: nat)

  datatype ComponentsOverview = ComponentsOverview(total: nat, summary: seq<OverviewEntry>)

  /** The severity of a component: the largest among its vulnerabilities, SevNone when it has none. */
  function SevOfVulns(vs: seq<ClairVulnerability>): (s: Severity)
    ensures forall j :: 0 <= j < |vs| ==> Level(s) >= Level(ParseClairSev(vs[j].severity))
    ensures s == SevNone || exists j :: 0 <= j < |vs| && s == ParseClairSev(vs[j].severity)
  {
    if vs == [] then SevNone
    else MaxSev(SevOfVulns(vs[..|vs| - 1]), ParseClairSev(vs[|vs| - 1].severity))
  }

  function FeatureSev(f: ClairFeature): Severity {
    SevOfVulns(f.vulnerabilities)
  }

  /** How many components have severity s. */
  function CountOf(features: seq<ClairFeature>, s: Severity): (n: nat)
    ensures n <= |features|
  {
    if features == [] then 0
    else CountOf(features[..|features| - 1], s) + (if FeatureSev(features[|features| - 1]) == s then 1 else 0)
  }

  /** How many components have a severity in the set. */
  function CountIn(features: seq<ClairFeature>, sevs: set<Severity>): nat {
    if features == [] then 0
    else CountIn(features[..|features| - 1], sevs) + (if FeatureSev(features[|features| - 1]) in sevs then 1 else 0)
  }

  function SumCounts(entries: seq<OverviewEntry>): nat {
    if entries == [] then 0 else SumCounts(entries[..|entries| - 1]) + entries[|entries| - 1].count
  }

  lemma {:induction false} CountOfStep(features: seq<ClairFeature>, i: nat, s: Severity)
    requires i < |features|
    ensures CountOf(features[..i + 1], s) == CountOf(features[..i], s) + (if FeatureSev(features[i]) == s then 1 else 0)
  {
    assert features[..i + 1][..i] == features[..i];
  }

  /** Every component's severity is counted. */
  lemma {:induction false} OwnSevCounted(features: seq<ClairFeature>, k: nat)
    requires k < |features|
    ensures CountOf(features, FeatureSev(features[k])) > 0
    decreases |features|
  {
    if k < |features| - 1 {
      OwnSevCounted(features[..|features| - 1], k);
    }
  }

  /** A count over a set splits off the count of one of its members. */
  lemma {:induction false} CountInSplit(features: seq<ClairFeature>, sevs: set<Severity>, s: Severity)
    requires s in sevs
    ensures CountIn(features, sevs) == CountIn(features, sevs - {s}) + CountOf(features, s)
    decreases |features|
  {
    if features != [] {
      CountInSplit(features[..|features| - 1], sevs, s);
    }
  }

  /** When every component's severity is in the set, the set counts every component. */
  lemma {:induction false} CountInAll(features: seq<ClairFeature>, sevs: set<Severity>)
    requires forall k :: 0 <= k < |features| ==> FeatureSev(features[k]) in sevs
    ensures CountIn(features, sevs) == |features|
    decreases |features|
  {
    if features != [] {
      CountInAll(features[..|features| - 1], sevs);
    }
  }

  lemma CountInEmpty(features: seq<ClairFeature>)
    ensures CountIn(features, {}) == 0
    decreases |features|
  {
    if features != [] {
      CountInEmpty(features[..|features| - 1]);
    }
  }

  /** The severity of one component, computed as the inner loop of transformVuln does. */
  method ComponentSev(f: ClairFeature) returns (sev: Severity)
    ensures sev == FeatureSev(f)
  {
    var vs := f.vulnerabilities;
    sev := SevNone;
    var j := 0;
    while j < |vs|
      invariant 0 <= j <= |vs|
      invariant sev == SevOfVulns(vs[..j])
    {
      assert vs[..j + 1][..j] == vs[..j];
      var temp := ParseClairSev(vs[j].severity);
      if Level(temp) > Level(sev) {
        sev := temp;
      }
      j := j + 1;
    }
    assert vs[..j] == vs;
  }

  /** The first loop of transformVuln: vulnMap counts the components of each severity that occurs. */
  method CountSeverities(features: seq<ClairFeature>) returns (vulnMap: map<Severity, nat>)
    ensures CountsBySeverity(features, vulnMap)
  {
    vulnMap := map[];
    var i := 0;
    while i < |features|
      invariant 0 <= i <= |features|
      invariant CountsBySeverity(features[..i], vulnMap)
    {
      var sev := ComponentSev(features[i]);
      CountsStep(features, i, vulnMap);
      vulnMap := vulnMap[sev := if sev in vulnMap then vulnMap[sev] + 1 else 1];
      i := i + 1;
    }
    assert features[..i] == features;
  }

  /** Counting one more component: its severity's entry goes up by one, starting at 1. */
  lemma CountsStep(features: seq<ClairFeature>, i: nat, vulnMap: map<Severity, nat>)
    requires i < |features| && CountsBySeverity(features[..i], vulnMap)
    ensures var sev := FeatureSev(features[i]);
      CountsBySeverity(features[..i + 1], vulnMap[sev := if sev in vulnMap then vulnMap[sev] + 1 else 1])
  {
    forall s | true
      ensures CountOf(features[..i + 1], s) == CountOf(features[..i], s) + (if FeatureSev(features[i]) == s then 1 else 0)
    {
      CountOfStep(features, i, s);
    }
  }

  /** vulnMap holds, for each severity that occurs, how many components have it. */
  ghost predicate CountsBySeverity(features: seq<ClairFeature>, vulnMap: map<Severity, nat>) {
    && (forall s :: s in vulnMap <==> CountOf(features, s) > 0)
    && (forall s :: s in vulnMap ==> vulnMap[s] == CountOf(features, s))
  }

  /**
   * The second loop of transformVuln: one summary entry per key of
   * vulnMap, and the largest key. Go ranges over a map in no fixed order,
   * so the model picks each next key arbitrarily.
   */
  method Summarize(features: seq<ClairFeature>, vulnMap: map<Severity, nat>)
    returns (summary: seq<OverviewEntry>, overall: Severity)
    requires CountsBySeverity(features, vulnMap)
    ensures SumCounts(summary) == |features|
    ensures forall j :: 0 <= j < |summary| ==>
      1 <= summary[j].sev <= 5 && summary[j].count == CountOf(features, SevOfLevel(summary[j].sev)) > 0
    ensures forall i, j :: 0 <= i < j < |summary| ==> summary[i].sev != summary[j].sev
    ensures forall s :: CountOf(features, s) > 0 ==> exists j :: 0 <= j < |summary| && summary[j].sev == Level(s)
    ensures forall s :: s in vulnMap ==> Level(overall) >= Level(s)
    ensures overall == SevNone || overall in vulnMap
  {
    AllKeysCountAll(features, vulnMap);
    overall := SevNone;
    summary := [];
    var rest := vulnMap.Keys;
    // the keys already visited, in the order they were visited
    ghost var picked: seq<Severity> := [];
    while rest != {}
      invariant SummaryState(features, vulnMap, rest, picked, summary, overall)
      decreases rest
    {
      NonEmptyHasElement(rest);
      var k :| k in rest;
      ghost var before := overall;
      if Level(k) > Level(overall) {
        overall := k;
      }
      var entry := OverviewEntry(Level(k), vulnMap[k]);
      SummaryStep(features, vulnMap, rest, picked, summary, before, k, overall);
      summary := summary + [entry];
      picked := picked + [k];
      rest := rest - {k};
    }
    SummaryDone(features, vulnMap, picked, summary, overall);
  }

  /** Once no key is left, the loop state gives Summarize's postconditions. */
  lemma SummaryDone(features: seq<ClairFeature>, vulnMap: map<Severity, nat>,
                    picked: seq<Severity>, summary: seq<OverviewEntry>, overall: Severity)
    requires CountsBySeverity(features, vulnMap)
    requires SummaryState(features, vulnMap, {}, picked, summary, overall)
    ensures SumCounts(summary) == |features|
    ensures forall j :: 0 <= j < |summary| ==>
      1 <= summary[j].sev <= 5 && summary[j].count == CountOf(features, SevOfLevel(summary[j].sev)) > 0
    ensures forall i, j :: 0 <= i < j < |summary| ==> summary[i].sev != summary[j].sev
    ensures forall s :: CountOf(features, s) > 0 ==> exists j :: 0 <= j < |summary| && summary[j].sev == Level(s)
    ensures forall s :: s in vulnMap ==> Level(overall) >= Level(s)
    ensures overall == SevNone || overall in vulnMap
  {
    EntriesOfFacts(picked, vulnMap, features);
    CountInEmpty(features);
  }

  /** The loop state of Summarize: `picked` lists, without repeats, the keys visited so far. */
  ghost predicate SummaryState(features: seq<ClairFeature>, vulnMap: map<Severity, nat>, rest: set<Severity>,
                               picked: seq<Severity>, summary: seq<OverviewEntry>, overall: Severity)
  {
    && Visited(vulnMap, rest, picked)
    && Tallied(features, vulnMap, rest, picked, summary)
    && Highest(picked, overall)
  }

  /** The keys are split between those visited, each once, and those left. */
  ghost predicate Visited(vulnMap: map<Severity, nat>, rest: set<Severity>, picked: seq<Severity>) {
    && rest <= vulnMap.Keys
    && (forall s :: s in picked ==> s in vulnMap && s !in rest)
    && (forall s :: s in vulnMap && s !in rest ==> s in picked)
    && (forall i, j :: 0 <= i < j < |picked| ==> picked[i] != picked[j])
  }

  /** The summary holds the visited keys' entries, and with the keys left it counts every component. */
  ghost predicate Tallied(features: seq<ClairFeature>, vulnMap: map<Severity, nat>, rest: set<Severity>,
                          picked: seq<Severity>, summary: seq<OverviewEntry>)
  {
    && (forall s :: s in picked ==> s in vulnMap)
    && summary == EntriesOf(picked, vulnMap)
    && SumCounts(summary) + CountIn(features, rest) == |features|
  }

  /** overall is the highest key visited, or None before any. */
  ghost predicate Highest(picked: seq<Severity>, overall: Severity) {
    && (forall s :: s in picked ==> Level(overall) >= Level(s))
    && (overall == SevNone || overall in picked)
  }

  /** One iteration of Summarize keeps its loop state. */
  lemma SummaryStep(features: seq<ClairFeature>, vulnMap: map<Severity, nat>, rest: set<Severity>,
                    picked: seq<Severity>, summary: seq<OverviewEntry>, overall: Severity, k: Severity, overall': Severity)
    requires CountsBySeverity(features, vulnMap)
    requires SummaryState(features, vulnMap, rest, picked, summary, overall)
    requires k in rest
    requires overall' == if Level(k) > Level(overall) then k else overall
    ensures SummaryState(features, vulnMap, rest - {k}, picked + [k],
                         summary + [OverviewEntry(Level(k), vulnMap[k])], overall')
  {
    VisitedStep(vulnMap, rest, picked, k);
    TalliedStep(features, vulnMap, rest, picked, summary, k);
  }

  lemma VisitedStep(vulnMap: map<Severity, nat>, rest: set<Severity>, picked: seq<Severity>, k: Severity)
    requires Visited(vulnMap, rest, picked) && k in rest
    ensures Visited(vulnMap, rest - {k}, picked + [k])
  {
  }

  lemma TalliedStep(features: seq<ClairFeature>, vulnMap: map<Severity, nat>, rest: set<Severity>,
                    picked: seq<Severity>, summary: seq<OverviewEntry>, k: Severity)
    requires CountsBySeverity(features, vulnMap)
    requires Tallied(features, vulnMap, rest, picked, summary) && k in rest && rest <= vulnMap.Keys
    ensures Tallied(features, vulnMap, rest - {k}, picked + [k], summary + [OverviewEntry(Level(k), vulnMap[k])])
  {
    assert (picked + [k])[..|picked|] == picked;
    CountInSplit(features, rest, k);
    SumCountsAppend(summary, OverviewEntry(Level(k), vulnMap[k]));
  }

  lemma SumCountsAppend(entries: seq<OverviewEntry>, e: OverviewEntry)
    ensures SumCounts(entries + [e]) == SumCounts(entries) + e.count
  {
    assert (entries + [e])[..|entries|] == entries;
  }

  /** The keys of vulnMap between them count every component. */
  lemma AllKeysCountAll(features: seq<ClairFeature>, vulnMap: map<Severity, nat>)
    requires CountsBySeverity(features, vulnMap)
    ensures CountIn(features, vulnMap.Keys) == |features|
  {
    forall k | 0 <= k < |features|
      ensures FeatureSev(features[k]) in vulnMap
    {
      OwnSevCounted(features, k);
    }
    CountInAll(features, vulnMap.Keys);
  }

  /** The summary entries for the given keys, in order. */
  function EntriesOf(picked: seq<Severity>, m: map<Severity, nat>): (r: seq<OverviewEntry>)
    requires forall s :: s in picked ==> s in m
    ensures |r| == |picked|
    ensures forall j :: 0 <= j < |picked| ==> r[j] == OverviewEntry(Level(picked[j]), m[picked[j]])
  {
    if picked == [] then []
    else EntriesOf(picked[..|picked| - 1], m) + [OverviewEntry(Level(picked[|picked| - 1]), m[picked[|picked| - 1]])]
  }

  /** What the summary says once every key of vulnMap has been visited exactly once. */
  lemma EntriesOfFacts(picked: seq<Severity>, vulnMap: map<Severity, nat>, features: seq<ClairFeature>)
    requires forall s :: s in picked <==> s in vulnMap
    requires forall i, j :: 0 <= i < j < |picked| ==> picked[i] != picked[j]
    requires CountsBySeverity(features, vulnMap)
    ensures var summary := EntriesOf(picked, vulnMap);
      (forall j :: 0 <= j < |summary| ==>
         1 <= summary[j].sev <= 5 && summary[j].count == CountOf(features, SevOfLevel(summary[j].sev)) > 0)
      && (forall i, j :: 0 <= i < j < |summary| ==> summary[i].sev != summary[j].sev)
      && (forall s :: CountOf(features, s) > 0 ==> exists j :: 0 <= j < |summary| && summary[j].sev == Level(s))
  {
    var summary := EntriesOf(picked, vulnMap);
    forall j | 0 <= j < |summary|
      ensures SevOfLevel(summary[j].sev) == picked[j]
    {
      LevelInjective(SevOfLevel(summary[j].sev), picked[j]);
    }
    forall i, j | 0 <= i < j < |summary|
      ensures summary[i].sev != summary[j].sev
    {
      LevelInjective(picked[i], picked[j]);
    }
    forall s | CountOf(features, s) > 0
      ensures exists j :: 0 <= j < |summary| && summary[j].sev == Level(s)
    {
      var j :| 0 <= j < |picked| && picked[j] == s;
      assert summary[j].sev == Level(s);
    }
  }

  /** transformVuln: the components overview of a layer and its overall severity. */
  method TransformVuln(features: seq<ClairFeature>) returns (overview: ComponentsOverview, overall: Severity)
    ensures overview.total == |features|
    ensures SumCounts(overview.summary) == |features|
    ensures forall j :: 0 <= j < |overview.summary| ==>
      1 <= overview.summary[j].sev <= 5
      && overview.summary[j].count == CountOf(features, SevOfLevel(overview.summary[j].sev)) > 0
    ensures forall i, j :: 0 <= i < j < |overview.summary| ==> overview.summary[i].sev != overview.summary[j].sev
    ensures forall s :: CountOf(features, s) > 0 ==>
      exists j :: 0 <= j < |overview.summary| && overview.summary[j].sev == Level(s)
    ensures forall k :: 0 <= k < |features| ==> Level(overall) >= Level(FeatureSev(features[k]))
    ensures overall == SevNone || exists k :: 0 <= k < |features| && FeatureSev(features[k]) == overall
  {
    var vulnMap := CountSeverities(features);
    var summary;
    summary, overall := Summarize(features, vulnMap);
    overview := ComponentsOverview(|features|, summary);
    forall k | 0 <= k < |features|
      ensures Level(overall) >= Level(FeatureSev(features[k]))
    {
      OwnSevCounted(features, k);
    }
    if overall != SevNone {
      OverallIsSomeSev(features, overall);
    }
  }

  /** A severity with a positive count is the severity of some component. */
  lemma {:induction false} OverallIsSomeSev(features: seq<ClairFeature>, s: Severity)
    requires CountOf(features, s) > 0
    ensures exists k :: 0 <= k < |features| && FeatureSev(features[k]) == s
    decreases |features|
  {
    var n := |features| - 1;
    if FeatureSev(features[n]) != s {
      OverallIsSomeSev(features[..n], s);
      var k :| 0 <= k < n && FeatureSev(features[..n][k]) == s;
      assert features[k] == features[..n][k];
    }
  }

  // ---- UpdateScanOverview ----

  datatype UpdateError = MoreThanOneLogger | GetResultFailed | UpdateFailed

  /** The record written to img_scan_overview. */
  datatype OverviewRecord = OverviewRecord(digest: string, layerName: string, sev: Severity, overview: ComponentsOverview)

  /**
   * UpdateScanOverview. `loggers` is how many loggers the caller passed;
   * `result` is Clair's report for the layer, None when fetching it fails;
   * `updateOk` is the database's answer.
   */
  method UpdateScanOverview(digest: string, layerName: string, loggers: nat,
                            result: Option<seq<ClairFeature>>, updateOk: bool)
    returns (err: Option<UpdateError>, written: Option<OverviewRecord>)
    ensures loggers > 1 ==> err == Some(MoreThanOneLogger) && written.None?
    ensures loggers <= 1 && result.None? ==> err == Some(GetResultFailed) && written.None?
    ensures written.Some? <==> loggers <= 1 && result.Some?
    ensures written.Some? ==>
      written.value.digest == digest && written.value.layerName == layerName
      && written.value.overview.total == |result.value|
      && forall k :: 0 <= k < |result.value| ==> Level(written.value.sev) >= Level(FeatureSev(result.value[k]))
    ensures err.None? <==> written.Some? && updateOk
  {
    if loggers > 1 {
      return Some(MoreThanOneLogger), None;
    }
    if result.None? {
      return Some(GetResultFailed), None;
    }
    var overview, sev := TransformVuln(result.value);
    written := Some(OverviewRecord(digest, layerName, sev, overview));
    err := if updateOk then None else Some(UpdateFailed);
  }
}
