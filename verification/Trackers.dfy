/**
 * Story trackers and the log of their metrics (backend/src/models/trackers.js): the stored metrics of a tracker and
 * its revisions are written together, and each is supposed to account for the other.
 */
module Trackers {
  import opened Common

  const TemplateTypes: seq<string> :=
    ["conflict", "outbreak", "incident", "sports", "environmental", "election", "entertainment", "study"]

  const RevisionReasons: seq<string> :=
    ["ingestion-update", "source-revision", "editorial-override", "retraction", "recount", "closeout"]

  function MetricNames(template: string): seq<string> {
    match template
    case "conflict" =>
      ["casualties_killed", "casualties_wounded", "casualties_missing", "displaced", "event_count", "geographic_scope",
       "escalation"]
    case "outbreak" =>
      ["suspected_cases", "probable_cases", "confirmed_cases", "deaths", "cfr", "geographic_extent", "r0_rt",
       "who_designation", "testing_intensity"]
    case "incident" =>
      ["casualties_killed", "casualties_injured", "casualties_missing", "people_affected", "cause_attribution",
       "economic_damage", "response_status"]
    case "sports" =>
      ["score", "standings", "series_state", "key_stats", "fixture_schedule", "context", "milestones"]
    case "environmental" =>
      ["magnitude_intensity", "affected_area", "affected_population", "casualties", "damage_estimate", "alert_level",
       "hazard_chain"]
    case "election" =>
      ["votes_by_contestant", "seats", "turnout", "count_completion_pct", "race_called_by", "provisional_final_flag",
       "recount_dispute"]
    case "entertainment" =>
      ["box_office_opening", "box_office_cumulative", "worldwide_total", "budget", "critical_reception",
       "audience_reception", "awards_milestones"]
    case "study" =>
      ["finding_summary", "study_type", "sample_size", "effect_size", "peer_review_status", "replication_status", "coi"]
    case _ => []
  }

  function Confidences(template: string): seq<string> {
    match template
    case "conflict" => ["provisional", "disputed", "confirmed"]
    case "outbreak" => ["suspected", "probable", "confirmed"]
    case "incident" => ["preliminary", "investigating", "official-finding"]
    case "sports" => ["scheduled", "live", "final"]
    case "environmental" => ["preliminary-reading", "revised", "confirmed"]
    case "election" => ["projected", "partial-count", "certified-official"]
    case "entertainment" => ["estimated", "studio-reported", "final-actuals"]
    case "study" => ["preprint", "peer-reviewed", "replicated-or-consensus"]
    case _ => []
  }

  /** A JSON value in a metric's place; `payload` is everything else the object holds. */
  datatype Block = NotAnObject | Object(value: Option<string>, confidence: Option<string>, payload: string)

  datatype Entry = Entry(name: string, block: Block)

  /** A JSON object: its entries in order, no name twice. */
  type Metrics = m: seq<Entry> | NoNameTwice(m)

  predicate NoNameTwice(m: seq<Entry>) {
    forall i, j :: 0 <= i < j < |m| ==> m[i].name != m[j].name
  }

  datatype Json = NotMetrics | Is(metrics: Metrics)

  datatype Error =
    | MissingEventId | MissingStartedAt | MissingId | BadUpdatesShape | BadReason | NotFound | NoSuchEvent
    | BadTemplateType
    | BadMetricsRoot
    | UnknownMetric(name: string)
    | BadBlockShape(name: string)
    | MissingValue(name: string)
    | MissingConfidence(name: string)
    | BadConfidence(name: string)

  // ---- validation -----------------------------------------------------------------------------

  /** What is wrong with one entry, the first thing first. */
  function EntryError(e: Entry, template: string): Option<Error> {
    if e.name !in MetricNames(template) then Some(UnknownMetric(e.name))
    else if e.block.NotAnObject? then Some(BadBlockShape(e.name))
    else if e.block.value.None? then Some(MissingValue(e.name))
    else if e.block.confidence.None? then Some(MissingConfidence(e.name))
    else if e.block.confidence.value !in Confidences(template) then Some(BadConfidence(e.name))
    else None
  }

  /** An entry the template allows: a metric of its own, with a value, and a confidence in its own words. */
  predicate EntryOk(e: Entry, template: string) {
    && e.name in MetricNames(template)
    && e.block.Object? && e.block.value.Some?
    && e.block.confidence.Some? && e.block.confidence.value in Confidences(template)
  }

  predicate MetricsOk(m: Metrics, template: string) {
    forall k :: 0 <= k < |m| ==> EntryOk(m[k], template)
  }

  /** What the error about an entry says is so, and what is asked before it is not. */
  lemma EntryErrorMeans(e: Entry, template: string)
    ensures EntryError(e, template).None? <==> EntryOk(e, template)
    ensures EntryError(e, template).Some? ==>
              match EntryError(e, template).value
              case UnknownMetric(name) => name == e.name && e.name !in MetricNames(template)
              case BadBlockShape(name) => name == e.name && e.name in MetricNames(template) && e.block == NotAnObject
              case MissingValue(name) => name == e.name && e.block.Object? && e.block.value == None
              case MissingConfidence(name) =>
                name == e.name && e.block.Object? && e.block.value.Some? && e.block.confidence == None
              case BadConfidence(name) =>
                name == e.name && e.block.Object? && e.block.value.Some? && e.block.confidence.Some?
                && e.block.confidence.value !in Confidences(template)
              case _ => false
  {
    hide MetricNames, Confidences;
  }

  method ValidateMetrics(metrics: Json, template: string) returns (r: Option<Error>)
    ensures r.None? <==> template in TemplateTypes && metrics.Is? && MetricsOk(metrics.metrics, template)
    ensures template !in TemplateTypes ==> r == Some(BadTemplateType)
    ensures template in TemplateTypes && metrics.NotMetrics? ==> r == Some(BadMetricsRoot)
    // The first entry that is wrong is the one reported.
    ensures template in TemplateTypes && metrics.Is? && r.Some? ==>
              exists k :: 0 <= k < |metrics.metrics| && r == EntryError(metrics.metrics[k], template)
                          && forall j :: 0 <= j < k ==> EntryOk(metrics.metrics[j], template)
  {
    hide MetricNames, Confidences;
    if template !in TemplateTypes {
      return Some(BadTemplateType);
    }
    if metrics.NotMetrics? {
      return Some(BadMetricsRoot);
    }
    var m := metrics.metrics;
    for k := 0 to |m|
      invariant forall j :: 0 <= j < k ==> EntryOk(m[j], template)
    {
      var e := EntryError(m[k], template);
      if e.Some? {
        return e;
      }
    }
    r := None;
  }

  // ---- objects and merging --------------------------------------------------------------------

  function Lookup(m: seq<Entry>, name: string): Option<Block> {
    if m == [] then None else if m[0].name == name then Some(m[0].block) else Lookup(m[1..], name)
  }

  /** Assigning a property: in place when it is there, at the end when it is not. */
  function Put(m: seq<Entry>, e: Entry): seq<Entry> {
    if m == [] then [e] else if m[0].name == e.name then [e] + m[1..] else [m[0]] + Put(m[1..], e)
  }

  /** { ...m, ...updates } */
  function Merge(m: seq<Entry>, updates: seq<Entry>): seq<Entry> {
    if updates == [] then m else Put(Merge(m, updates[..|updates| - 1]), updates[|updates| - 1])
  }

  /** Looking up a name finds the entry of that name. */
  lemma {:induction false} LookupFinds(m: Metrics, e: Entry)
    ensures Lookup(m, e.name) == Some(e.block) <==> e in m
    ensures Lookup(m, e.name) == None <==> forall k :: 0 <= k < |m| ==> m[k].name != e.name
  {
    if m != [] {
      LookupFinds(m[1..], e);
      assert m == [m[0]] + m[1..];
    }
  }

  /** Merging keeps the old names where they were; new ones come after them. */
  lemma {:induction false} MergeKeepsPlaces(m: seq<Entry>, updates: seq<Entry>)
    ensures |m| <= |Merge(m, updates)| && forall k :: 0 <= k < |m| ==> Merge(m, updates)[k].name == m[k].name
  {
    if updates != [] {
      var n := |updates| - 1;
      MergeKeepsPlaces(m, updates[..n]);
      PutKeepsPlaces(Merge(m, updates[..n]), updates[n]);
    }
  }

  lemma {:induction false} PutKeepsPlaces(m: seq<Entry>, e: Entry)
    ensures |m| <= |Put(m, e)| <= |m| + 1 && forall k :: 0 <= k < |m| ==> Put(m, e)[k].name == m[k].name
    ensures |Put(m, e)| > |m| ==> Put(m, e) == m + [e]
  {
    if m != [] && m[0].name != e.name {
      PutKeepsPlaces(m[1..], e);
    }
  }

  lemma {:induction false} PutLooks(m: seq<Entry>, e: Entry, name: string)
    ensures Lookup(Put(m, e), name) == if name == e.name then Some(e.block) else Lookup(m, name)
  {
    if m != [] && m[0].name != e.name {
      PutLooks(m[1..], e, name);
    }
  }

  lemma {:induction false} PutNames(m: seq<Entry>, e: Entry)
    requires NoNameTwice(m)
    ensures NoNameTwice(Put(m, e))
    ensures forall k :: 0 <= k < |Put(m, e)| ==> Put(m, e)[k] == e || Put(m, e)[k] in m
    ensures forall k :: 0 <= k < |m| ==> m[k].name == e.name || m[k] in Put(m, e)
    ensures e in Put(m, e)
  {
    if m != [] && m[0].name != e.name {
      PutNames(m[1..], e);
      var rest := Put(m[1..], e);
      assert forall k :: 1 <= k < |m| ==> m[k] in m;
      forall k | 0 <= k < |rest|
        ensures rest[k].name != m[0].name
      {
        if rest[k] in m[1..] {
          var j :| 0 <= j < |m[1..]| && m[1..][j] == rest[k];
          assert m[j + 1] == rest[k];
        }
      }
    }
  }

  lemma {:induction false} MergeIsObject(m: Metrics, updates: Metrics)
    ensures NoNameTwice(Merge(m, updates))
    ensures forall e :: e in Merge(m, updates) ==> e in m || e in updates
    ensures forall e :: e in updates ==> e in Merge(m, updates)
  {
    if updates != [] {
      var n := |updates| - 1;
      MergeIsObject(m, updates[..n]);
      PutNames(Merge(m, updates[..n]), updates[n]);
      forall e | e in updates
        ensures e in Merge(m, updates)
      {
        var k :| 0 <= k < |updates| && updates[k] == e;
        if k < n {
          assert updates[..n][k] == e;
          assert e in updates[..n];
          var before := Merge(m, updates[..n]);
          var j :| 0 <= j < |before| && before[j] == e;
        }
      }
    }
  }

  lemma {:induction false} MergeLooks(m: seq<Entry>, updates: Metrics, name: string)
    ensures Lookup(Merge(m, updates), name) ==
              if Lookup(updates, name).Some? then Lookup(updates, name) else Lookup(m, name)
  {
    if updates != [] {
      var n := |updates| - 1;
      MergeLooks(m, updates[..n], name);
      PutLooks(Merge(m, updates[..n]), updates[n], name);
      LookupLast(updates[..n], updates[n], name);
      assert updates == updates[..n] + [updates[n]];
    }
  }

  lemma {:induction false} LookupLast(m: seq<Entry>, e: Entry, name: string)
    requires NoNameTwice(m + [e])
    ensures Lookup(m + [e], name) == if name == e.name then Some(e.block) else Lookup(m, name)
  {
    if m != [] {
      assert (m + [e])[1..] == m[1..] + [e];
      assert (m + [e])[0].name != (m + [e])[|m|].name;
      LookupLast(m[1..], e, name);
    }
  }

  /** Merging into good metrics gives good metrics exactly when every update is good in itself. */
  lemma MergeOk(m: Metrics, updates: Metrics, template: string)
    requires MetricsOk(m, template)
    ensures NoNameTwice(Merge(m, updates))
    ensures MetricsOk(Merge(m, updates), template) <==> MetricsOk(updates, template)
  {
    hide EntryOk;
    MergeIsObject(m, updates);
    var r := Merge(m, updates);
    assert forall k :: 0 <= k < |r| ==> r[k] in r;
    assert forall k :: 0 <= k < |updates| ==> updates[k] in updates;
  }

  // ---- the store ------------------------------------------------------------------------------

  datatype Tracker = Tracker(
    event: string, template: string, archived: bool, metrics: Metrics,
    startedAt: int, lastUpdatedAt: int, closedAt: Option<int>, updatedAt: int)

  datatype Revision = Revision(
    tracker: string, name: string, prev: Option<Block>, block: Block, reason: string, at: int)

  /** A time given as 0, or not at all, means now. */
  function OrNow(at: int, now: int): int {
    if at == 0 then now else at
  }

  /** The rows one update writes, in the order of its entries. */
  function Rows(id: string, before: seq<Entry>, updates: seq<Entry>, reason: string, at: int): seq<Revision> {
    seq(|updates|, k requires 0 <= k < |updates| =>
      Revision(id, updates[k].name, Lookup(before, updates[k].name), updates[k].block, reason, at))
  }

  /** The log has grown by one revision for each entry of the update, in its order. */
  ghost predicate Logs(
    log: seq<Revision>, log': seq<Revision>, id: string, before: seq<Entry>, updates: seq<Entry>, reason: string,
    at: int)
  {
    && |log'| == |log| + |updates| && log'[..|log|] == log
    && forall k :: 0 <= k < |updates| ==>
         log'[|log| + k]
         == Revision(id, updates[k].name, Lookup(before, updates[k].name), updates[k].block, reason, at)
  }

  /** Playing a tracker's revisions, oldest first, over what it was created with. */
  function Replay(start: seq<Entry>, log: seq<Revision>, id: string): seq<Entry> {
    if log == [] then start
    else
      var n := |log| - 1;
      var m := Replay(start, log[..n], id);
      if log[n].tracker == id then Put(m, Entry(log[n].name, log[n].block)) else m
  }

  /** The k-th revision remembers what its metric was just before it. */
  predicate RemembersPrev(created: map<string, Metrics>, log: seq<Revision>, k: nat)
    requires k < |log|
  {
    log[k].tracker in created
    && log[k].prev == Lookup(Replay(created[log[k].tracker], log[..k], log[k].tracker), log[k].name)
  }

  ghost predicate Faithful(created: map<string, Metrics>, log: seq<Revision>, id: string, metrics: seq<Entry>) {
    id in created && Replay(created[id], log, id) == metrics
  }

  ghost predicate LogOk(created: map<string, Metrics>, log: seq<Revision>) {
    forall k :: 0 <= k < |log| ==> RemembersPrev(created, log, k)
  }

  lemma {:induction false} ReplayRows(
    start: seq<Entry>, log: seq<Revision>, id: string, other: string, before: seq<Entry>, updates: seq<Entry>,
    reason: string, at: int)
    ensures Replay(start, log + Rows(id, before, updates, reason, at), other)
         == if other == id then Merge(Replay(start, log, other), updates) else Replay(start, log, other)
  {
    if updates == [] {
      assert log + Rows(id, before, updates, reason, at) == log;
    } else {
      var n := |updates| - 1;
      ReplayRows(start, log, id, other, before, updates[..n], reason, at);
      RowsSplit(id, before, updates, reason, at);
      var rows, e := Rows(id, before, updates[..n], reason, at), updates[n];
      var r := Revision(id, e.name, Lookup(before, e.name), e.block, reason, at);
      hide Rows, Lookup, Put, Replay;
      assert log + (rows + [r]) == (log + rows) + [r];
      ReplayNext(start, log + rows, r, other);
    }
  }

  lemma RowsSplit(id: string, before: seq<Entry>, updates: seq<Entry>, reason: string, at: int)
    requires updates != []
    ensures var n, e := |updates| - 1, updates[|updates| - 1];
            Rows(id, before, updates, reason, at) ==
              Rows(id, before, updates[..n], reason, at)
              + [Revision(id, e.name, Lookup(before, e.name), e.block, reason, at)]
  {
  }

  lemma ReplayNext(start: seq<Entry>, log: seq<Revision>, r: Revision, id: string)
    ensures Replay(start, log + [r], id) ==
              if r.tracker == id then Put(Replay(start, log, id), Entry(r.name, r.block)) else Replay(start, log, id)
  {
    assert (log + [r])[..|log|] == log;
  }

  ghost predicate AgreeOn(a: seq<Entry>, b: seq<Entry>, updates: seq<Entry>) {
    forall k :: 0 <= k < |updates| ==> Lookup(a, updates[k].name) == Lookup(b, updates[k].name)
  }

  /**
   * The rows written from `before`, which need not be what the log makes of the tracker, all remember the right block
   * exactly when the two agree on every metric the update sets.
   */
  lemma RowsRememberIff(
    created: map<string, Metrics>, log: seq<Revision>, id: string, before: seq<Entry>, updates: Metrics,
    reason: string, at: int)
    requires LogOk(created, log) && id in created
    ensures LogOk(created, log + Rows(id, before, updates, reason, at)) <==>
              AgreeOn(before, Replay(created[id], log, id), updates)
  {
    var log', current := log + Rows(id, before, updates, reason, at), Replay(created[id], log, id);
    forall k | 0 <= k < |log|
      ensures RemembersPrev(created, log', k)
    {
      assert log'[..k] == log[..k];
      assert RemembersPrev(created, log, k);
    }
    forall j | 0 <= j < |updates|
      ensures RemembersPrev(created, log', |log| + j) <==>
                Lookup(before, updates[j].name) == Lookup(current, updates[j].name)
    {
      assert log'[..|log| + j] == log + Rows(id, before, updates[..j], reason, at);
      ReplayRows(created[id], log, id, id, before, updates[..j], reason, at);
      MergeLooks(current, updates[..j], updates[j].name);
      NotThere(updates[..j], updates[j].name);
    }
    forall k | |log| <= k < |log'|
      ensures RemembersPrev(created, log', k) <==>
                Lookup(before, updates[k - |log|].name) == Lookup(current, updates[k - |log|].name)
    {
      assert k == |log| + (k - |log|);
    }
  }

  lemma RowsRemember(
    created: map<string, Metrics>, log: seq<Revision>, id: string, before: seq<Entry>, updates: Metrics,
    reason: string, at: int)
    requires LogOk(created, log) && Faithful(created, log, id, before)
    ensures LogOk(created, log + Rows(id, before, updates, reason, at))
  {
    RowsRememberIff(created, log, id, before, updates, reason, at);
  }

  lemma {:induction false} NotThere(m: seq<Entry>, name: string)
    requires forall k :: 0 <= k < |m| ==> m[k].name != name
    ensures Lookup(m, name) == None
  {
    if m != [] {
      NotThere(m[1..], name);
    }
  }

  lemma {:induction false} ReplayOfNew(created: map<string, Metrics>, log: seq<Revision>, start: Metrics, id: string)
    requires LogOk(created, log) && id !in created
    ensures Replay(start, log, id) == start
  {
    if log != [] {
      var n := |log| - 1;
      assert RemembersPrev(created, log, n);
      forall k | 0 <= k < n
        ensures RemembersPrev(created, log[..n], k)
      {
        assert RemembersPrev(created, log, k) && log[..n][..k] == log[..k];
      }
      ReplayOfNew(created, log[..n], start, id);
    }
  }

  class Store {
    const events: set<string>
    var trackers: map<string, Tracker>
    var revisions: seq<Revision>
    /** What each tracker was created with. */
    ghost var created: map<string, Metrics>

    /** Every tracker is what its template allows and what its log says; every revision remembers what it replaced. */
    ghost predicate Valid()
      reads this
    {
      && created.Keys == trackers.Keys
      && (forall id :: id in trackers ==>
          trackers[id].template in TemplateTypes && MetricsOk(trackers[id].metrics, trackers[id].template))
      && (forall id :: id in trackers ==> Faithful(created, revisions, id, trackers[id].metrics))
      && LogOk(created, revisions)
    }

    constructor (events: set<string>)
      ensures Valid() && this.events == events && trackers == map[] && revisions == []
    {
      this.events := events;
      trackers, revisions, created := map[], [], map[];
    }

    /** `id` is the new identifier drawn for the row. */
    method CreateTracker(id: string, event: string, template: string, metrics: Json, startedAt: int, now: int)
      returns (r: Option<Error>)
      requires Valid() && id !in trackers
      modifies this
      ensures Valid() && revisions == old(revisions)
      ensures r.None? <==>
                && event != "" && startedAt != 0 && event in events
                && template in TemplateTypes && metrics.Is? && MetricsOk(metrics.metrics, template)
      ensures r.Some? ==> trackers == old(trackers)
      ensures r.None? ==>
                && created == old(created)[id := metrics.metrics]
                && trackers == old(trackers)[id :=
                     Tracker(event, template, false, metrics.metrics, startedAt, startedAt, None, now)]
    {
      hide MetricsOk, LogOk, Faithful;
      if event == "" {
        return Some(MissingEventId);
      }
      if startedAt == 0 {
        return Some(MissingStartedAt);
      }
      r := ValidateMetrics(metrics, template);
      if r.Some? {
        return;
      }
      if event !in events {
        return Some(NoSuchEvent);
      }
      CreateIsFaithful(created, revisions, id, metrics.metrics);
      forall other | other in trackers
        ensures Faithful(created[id := metrics.metrics], revisions, other, trackers[other].metrics)
      {
        OthersStayFaithful(created, revisions, id, metrics.metrics, other, trackers[other].metrics);
      }
      created := created[id := metrics.metrics];
      trackers := trackers[id := Tracker(event, template, false, metrics.metrics, startedAt, startedAt, None, now)];
    }

    /** All of an update is stored and logged, or nothing is. It is refused exactly when it is wrong in itself. */
    method UpdateTrackerMetrics(id: string, updates: Json, reason: string, changedAt: int, now: int)
      returns (r: Option<Error>)
      requires Valid()
      modifies this
      ensures Valid() && created == old(created)
      ensures r.None? <==>
                && id != "" && updates.Is? && reason in RevisionReasons && id in old(trackers)
                && MetricsOk(updates.metrics, old(trackers)[id].template)
      ensures r.Some? ==> trackers == old(trackers) && revisions == old(revisions)
      ensures r.None? ==>
                var at, t := if changedAt == 0 then now else changedAt, old(trackers)[id];
                && NoNameTwice(Merge(t.metrics, updates.metrics))
                && trackers == old(trackers)[id :=
                     t.(metrics := Merge(t.metrics, updates.metrics), lastUpdatedAt := at, updatedAt := at)]
                && Logs(old(revisions), revisions, id, t.metrics, updates.metrics, reason, at)
    {
      hide MetricsOk, LogOk, Faithful, NoNameTwice;
      if id == "" {
        return Some(MissingId);
      }
      if updates.NotMetrics? {
        return Some(BadUpdatesShape);
      }
      if reason !in RevisionReasons {
        return Some(BadReason);
      }
      if id !in trackers {
        return Some(NotFound);
      }
      var t := trackers[id];
      MergeOk(t.metrics, updates.metrics, t.template);
      var merged: Metrics := Merge(t.metrics, updates.metrics);
      r := ValidateMetrics(Is(merged), t.template);
      if r.Some? {
        return;
      }
      var at := OrNow(changedAt, now);
      var rows := Rows(id, t.metrics, updates.metrics, reason, at);
      RowsRemember(created, revisions, id, t.metrics, updates.metrics, reason, at);
      forall other | other in trackers
        ensures Faithful(created, revisions + rows, other, if other == id then merged else trackers[other].metrics)
      {
        UpdateIsFaithful(created, revisions, id, t.metrics, updates.metrics, reason, at, other,
            trackers[other].metrics);
      }
      trackers := trackers[id := t.(metrics := merged, lastUpdatedAt := at, updatedAt := at)];
      revisions := revisions + rows;
    }

    /** Archiving stamps the row and leaves metrics and log alone. */
    method ArchiveTracker(id: string, closedAt: int, now: int) returns (r: Option<Error>)
      requires Valid()
      modifies this`trackers
      ensures Valid()
      ensures r.None? <==> id != "" && id in old(trackers)
      ensures r.Some? ==> trackers == old(trackers)
      ensures r.None? ==>
                var at, t := if closedAt == 0 then now else closedAt, old(trackers)[id];
                trackers == old(trackers)[id :=
                  t.(archived := true, closedAt := Some(at), lastUpdatedAt := at, updatedAt := at)]
    {
      hide MetricsOk, LogOk, Faithful;
      if id == "" {
        return Some(MissingId);
      }
      if id !in trackers {
        return Some(NotFound);
      }
      var at := OrNow(closedAt, now);
      var t := trackers[id].(archived := true, closedAt := Some(at), lastUpdatedAt := at, updatedAt := at);
      trackers := trackers[id := t];
      r := None;
    }
  }

  lemma CreateIsFaithful(created: map<string, Metrics>, log: seq<Revision>, id: string, m: Metrics)
    requires LogOk(created, log) && id !in created
    ensures LogOk(created[id := m], log) && Faithful(created[id := m], log, id, m)
  {
    ReplayOfNew(created, log, m, id);
    var created' := created[id := m];
    forall k: nat | k < |log|
      ensures RemembersPrev(created', log, k)
    {
      assert RemembersPrev(created, log, k);
    }
  }

  lemma OthersStayFaithful(
    created: map<string, Metrics>, log: seq<Revision>, id: string, m: Metrics, other: string, metrics: seq<Entry>)
    requires Faithful(created, log, other, metrics) && id !in created
    ensures Faithful(created[id := m], log, other, metrics)
  {
  }

  lemma UpdateIsFaithful(
    created: map<string, Metrics>, log: seq<Revision>, id: string, m: Metrics, updates: Metrics, reason: string,
    at: int, other: string, metrics: seq<Entry>)
    requires Faithful(created, log, other, metrics) && (other == id ==> m == metrics)
    ensures Faithful(created, log + Rows(id, m, updates, reason, at), other,
                     if other == id then Merge(m, updates) else metrics)
  {
    ReplayRows(created[other], log, id, other, m, updates, reason, at);
  }

  // ---- two processes --------------------------------------------------------------------------

  ghost predicate SameView(a: seq<Entry>, b: seq<Entry>) {
    forall name :: Lookup(a, name) == Lookup(b, name)
  }

  ghost predicate AgreeOutside(a: seq<Entry>, b: seq<Entry>, updates: seq<Entry>) {
    forall name :: Lookup(updates, name).None? ==> Lookup(a, name) == Lookup(b, name)
  }

  /**
   * The row is read before the transaction begins. If another process has written in between, the update merges into
   * `stale` while the log continues from `current`. Log and row still agree exactly when that other write touched
   * only metrics this update sets as well.
   */
  lemma StaleUpdateIff(
    start: seq<Entry>, log: seq<Revision>, id: string, stale: seq<Entry>, updates: Metrics, reason: string, at: int)
    ensures var current := Replay(start, log, id);
            var replayed := Replay(start, log + Rows(id, stale, updates, reason, at), id);
            SameView(replayed, Merge(stale, updates)) <==> AgreeOutside(stale, current, updates)
  {
    var current := Replay(start, log, id);
    ReplayRows(start, log, id, id, stale, updates, reason, at);
    forall name
      ensures Lookup(Merge(current, updates), name) == Lookup(Merge(stale, updates), name)
              <==> (Lookup(updates, name).None? ==> Lookup(stale, name) == Lookup(current, name))
    {
      MergeLooks(current, updates, name);
      MergeLooks(stale, updates, name);
    }
  }

  /** The new revisions remember the right blocks and the row agrees with the log exactly when nothing was stale. */
  lemma StaleIsHarmlessIff(
    created: map<string, Metrics>, log: seq<Revision>, id: string, stale: Metrics, updates: Metrics, reason: string,
    at: int)
    requires LogOk(created, log) && id in created
    ensures var log' := log + Rows(id, stale, updates, reason, at);
            LogOk(created, log') && SameView(Replay(created[id], log', id), Merge(stale, updates)) <==>
            SameView(stale, Replay(created[id], log, id))
  {
    var current := Replay(created[id], log, id);
    RowsRememberIff(created, log, id, stale, updates, reason, at);
    StaleUpdateIff(created[id], log, id, stale, updates, reason, at);
    forall name | Lookup(updates, name).Some?
      ensures exists k :: 0 <= k < |updates| && updates[k].name == name
    {
      if forall k :: 0 <= k < |updates| ==> updates[k].name != name {
        NotThere(updates, name);
      }
    }
  }

  /** So it happens: two processes set different metrics of a new tracker; both are logged, one is gone from the row. */
  lemma UpdateIsLost(id: string, a: Block, b: Block, reason: string, at: int)
    ensures var first, second: Metrics := [Entry("score", a)], [Entry("standings", b)];
            var log := Rows(id, [], first, reason, at) + Rows(id, [], second, reason, at);
            && Lookup(Replay([], log, id), "score") == Some(a)
            && Lookup(Merge([], second), "score") == None
  {
    var first: Metrics, second: Metrics := [Entry("score", a)], [Entry("standings", b)];
    var log1 := Rows(id, [], first, reason, at);
    ReplayRows([], [], id, id, [], first, reason, at);
    assert [] + log1 == log1;
    ReplayRows([], log1, id, id, [], second, reason, at);
    MergeLooks(Replay([], log1, id), second, "score");
    MergeLooks([], first, "score");
    MergeLooks([], second, "score");
  }
}
