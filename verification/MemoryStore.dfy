/** The in-process store: maps updated and slices appended in place. */
module MemoryStore {
  import opened Text
  import opened Events
  import opened Transitions
  import opened Runs
  import opened Ordering
  import SampleCounts
  import SampleLists
  import Duplicates
  import DuplicateReport
  import Unauth

  class Memory {
    var onuState: map<string, OnuState>
    var ethState: map<string, PortState>
    var statusEvents: seq<StatusEvent>
    var ethEvents: seq<EthEvent>
    var samples: seq<Sample>
    var runs: seq<Run>
    var nextRun: int
    var unauth: map<string, Unauth.UnauthList>

    /** What the sample-by-sample fold has built so far. */
    ghost function View(): Mem
      reads this
    {
      Mem(onuState, ethState, statusEvents, ethEvents)
    }

    /** The state row and a port row of an ONU, whatever their string keys. */
    ghost function Row(device: string, serial: string): OnuState
      reads this
    {
      OnuAt(onuState, OnuKey(device, serial))
    }

    ghost function Port(device: string, serial: string, port: int): Option<PortState>
      reads this
      requires Valid()
    {
      PortRow(PortsOf(ethState, device, serial), port)
    }

    ghost predicate Valid()
      reads this
    {
      Keyed(ethState)
    }

    constructor ()
      ensures Valid() && View() == EMPTY && samples == [] && runs == [] && nextRun == 0 && unauth == map[]
    {
      onuState, ethState := map[], map[];
      statusEvents, ethEvents := [], [];
      samples, runs, nextRun := [], [], 0;
      unauth := map[];
    }

    // ----- samples and transitions -----

    method InsertSamples(list: seq<Sample>)
      modifies this`samples
      ensures samples == old(samples) + list
    {
      samples := samples + list;
    }

    /** Collects the rows of one ONU by ranging over the whole map, in no particular order. */
    method ScanPorts(device: string, serial: string) returns (prev: map<int, PortState>)
      requires Valid() && ValidDevice(device)
      ensures prev == PortsOf(ethState, device, serial)
    {
      prev := map[];
      var todo := ethState.Keys;
      assert Visited(ethState, todo) == map[];
      while todo != {}
        invariant todo <= ethState.Keys
        invariant prev == PortsOf(Visited(ethState, todo), device, serial)
        decreases todo
      {
        var k :| k in todo;
        var state := ethState[k];
        PutRowProjects(Visited(ethState, todo), state, device, serial);
        VisitOne(ethState, todo, k);
        if state.device == device && state.serial == serial {
          prev := prev[state.port := state];
        }
        todo := todo - {k};
      }
      assert Visited(ethState, {}) == ethState;
    }

    /** Writes the port rows of one padded sample, one port after the other. */
    method StorePorts(sample: Sample)
      requires Valid() && ValidDevice(sample.device)
      modifies this`ethState
      ensures Valid() && ethState == PutPorts(old(ethState), sample, sample.ethPorts)
    {
      hide PortKey;
      var ports := sample.ethPorts;
      for i := 0 to |ports|
        invariant ethState == PutPorts(old(ethState), sample, ports[..i])
      {
        var port := ports[i];
        assert ports[..i + 1][..i] == ports[..i];
        var pkey := PortKey(sample.device, sample.serial, port.port);
        var was := if pkey in ethState then ethState[pkey] else NO_PORT;
        if was.serial == "" || was.link != port.link || was.admin != port.admin {
          was := was.(lastChanged := Some(sample.time));
        }
        was := was.(device := sample.device, serial := sample.serial, port := port.port, admin := port.admin,
                    link := port.link,
                    speed := port.speed, duplex := port.duplex, lastSeen := Some(sample.time));
        ethState := ethState[pkey := was];
      }
      assert ports[..|ports|] == ports;
      PutPortsKeyed(old(ethState), sample, ports);
    }

    /** Writes the state row of one padded sample and logs its status change. */
    method StoreStatus(sample: Sample)
      modifies this`onuState, this`statusEvents
      ensures var key := OnuKey(sample.device, sample.serial);
              var prev := OnuAt(old(onuState), key);
              && onuState == old(onuState)[key := OnuAfter(prev, sample)]
              && statusEvents == old(statusEvents) + StatusEventsFrom(prev, sample, "poller")
    {
      var key := OnuKey(sample.device, sample.serial);
      var prev := if key in onuState then onuState[key] else NO_ONU;
      if StatusChanged(prev, sample) {
        statusEvents := statusEvents + [StatusEventFrom(prev, sample, "poller")];
        prev := prev.(previousStatus := prev.status, changedAt := Some(sample.time));
      }
      prev := prev.(device := sample.device, serial := sample.serial, name := sample.name, onuType := sample.onuType,
                    board := sample.board, pon := sample.pon, onu := sample.onu, status := sample.status,
                    expectedPorts := sample.expectedPorts, lastSeen := Some(sample.time));
      onuState := onuState[key := prev];
    }

    /** The body of the transition loop. */
    method RecordSample(raw: Sample)
      requires Valid() && ValidDevice(raw.device)
      modifies this`onuState, this`ethState, this`statusEvents, this`ethEvents
      ensures Valid() && View() == RecordOne(old(View()), raw)
    {
      hide Padded, StatusEventsFrom, OnuAfter, EthEventsOf, PutPorts, PortsOf;
      var sample := ApplyExpectedPorts(raw);
      PaddedIdempotent(raw);
      StoreStatus(sample);
      var prev := ScanPorts(sample.device, sample.serial);
      var events := EthEventsFrom(prev, sample, "poller");
      ethEvents := ethEvents + events;
      StorePorts(sample);
    }

    /** The whole effect of a batch is the fold over its samples. */
    method RecordSampleTransitions(list: seq<Sample>)
      requires Valid() && ValidDevices(list)
      modifies this`onuState, this`ethState, this`statusEvents, this`ethEvents
      ensures Valid() && View() == RecordAll(old(View()), list)
      ensures forall device, serial :: ValidDevice(device) ==>
                RowFollows(old(Row(device, serial)), Row(device, serial), list, device, serial)
      ensures forall device, serial, port :: ValidDevice(device) ==>
                PortFollows(old(Port(device, serial, port)), Port(device, serial, port), list, device, serial, port)
      ensures old(statusEvents) <= statusEvents && old(ethEvents) <= ethEvents
      ensures forall e :: e in statusEvents[|old(statusEvents)|..] ==> StatusFrom(e, list, "poller")
      ensures forall e :: e in ethEvents[|old(ethEvents)|..] ==> EthFrom(e, list, "poller")
    {
      hide RecordOne, RowFollows, PortFollows, StatusFrom, EthFrom;
      for i := 0 to |list|
        invariant Valid() && View() == RecordAll(old(View()), list[..i])
      {
        RecordSample(list[i]);
        assert list[..i + 1][..i] == list[..i];
      }
      assert list[..|list|] == list;
      RecordedEvents(old(View()), list);
      forall device, serial | ValidDevice(device)
        ensures RowFollows(old(Row(device, serial)), Row(device, serial), list, device, serial)
      {
        RecordedIsShown(old(View()), list, device, serial, 0);
      }
      forall device, serial, port | ValidDevice(device)
        ensures PortFollows(old(Port(device, serial, port)), Port(device, serial, port), list, device, serial, port)
      {
        RecordedIsShown(old(View()), list, device, serial, port);
      }
    }

    /** Newest first, at most the limit (50 by default, never above 500). */
    method ListStatusEvents(device: string, serial: string, limit: int) returns (out: seq<StatusEvent>)
      ensures out == NewestEvents(statusEvents, device, serial, EventLimit(limit))
      ensures LastMatching(statusEvents, device, serial,
                           if limit <= 0 then 50 else if limit > 500 then 500 else limit, out)
    {
      hide NewestEvents, EventLimit, LastMatching;
      NewestMatching(statusEvents, device, serial, EventLimit(limit));
      LimitUsed(limit);
      out := [];
      var i := |statusEvents|;
      ghost var all := NewestEvents(statusEvents, device, serial, EventLimit(limit));
      assert statusEvents[..i] == statusEvents && [] + all == all;
      while i > 0
        invariant 0 <= i <= |statusEvents|
        invariant |out| < EventLimit(limit)
        invariant all == out + NewestEvents(statusEvents[..i], device, serial, EventLimit(limit) - |out|)
      {
        i := i - 1;
        var event := statusEvents[i];
        NewestStep(statusEvents, i, device, serial, EventLimit(limit) - |out|);
        if device != "" && event.device != device {
          continue;
        }
        if serial != "" && event.serial != serial {
          continue;
        }
        ghost var older := NewestEvents(statusEvents[..i], device, serial, EventLimit(limit) - |out| - 1);
        assert out + ([event] + older) == out + [event] + older;
        out := out + [event];
        if |out| >= EventLimit(limit) {
          NoneAllowed(statusEvents[..i], device, serial);
          assert out + [] == out;
          return;
        }
      }
      NoneLeft(device, serial, EventLimit(limit) - |out|);
      assert statusEvents[..0] == [] && out + [] == out;
    }

    // ----- runs -----

    method InsertCollectionRun(run: Run) returns (id: int)
      modifies this`runs, this`nextRun
      ensures id == nextRun == old(nextRun) + 1
      ensures runs == old(runs) + [run.(id := id)]
    {
      nextRun := nextRun + 1;
      id := nextRun;
      runs := runs + [run.(id := id)];
    }

    /** Replaces the first row with the run's id, or appends. */
    method FinishCollectionRun(run: Run)
      modifies this`runs
      ensures runs == FinishRun(old(runs), run)
    {
      hide FinishRun;
      var i := 0;
      assert runs[..0] + FinishRun(runs[0..], run) == FinishRun(runs, run) by {
        assert runs[0..] == runs;
      }
      while i < |runs|
        invariant 0 <= i <= |runs| && runs == old(runs)
        invariant FinishRun(runs, run) == runs[..i] + FinishRun(runs[i..], run)
      {
        FinishStep(runs, run, i);
        if runs[i].id == run.id {
          assert runs[i := run] == runs[..i] + ([run] + runs[i + 1..]);
          runs := runs[i := run];
          return;
        }
        assert runs[..i] + ([runs[i]] + FinishRun(runs[i + 1..], run)) == runs[..i + 1] + FinishRun(runs[i + 1..], run);
        i := i + 1;
      }
      FinishEnd(run);
      assert runs[..i] == runs && runs[i..] == [];
      runs := runs + [run];
    }

    /** A missing run is an error; otherwise the matching samples, newest first, cut at the limit. */
    method ListSamples(query: Query, now: int) returns (r: Option<seq<Sample>>)
      ensures match ApplyRunWindow(runs, query, now)
              case None => r == None
              case Some(q) => r.Some? && NewestFirst(r.value, Selected(samples, q, now), if q.limit <= 0 then 500
                                                     else q.limit)
      ensures r == None <==> SampleLists.Unanswerable(runs, query)
      ensures r.Some? ==>
                exists from, to, runID ::
                  && SampleLists.WindowAsked(runs, query, now, from, to, runID)
                  && SampleLists.Answer(samples, query, from, to, SampleLimit(query), r.value)
    {
      hide NewestFirst, SampleLists.WindowAsked, SampleLists.Answer, SampleLists.Unanswerable, SampleWindow,
        ApplyRunWindow;
      SampleLists.ResolvedMeans(runs, query, now);
      var window := ApplyRunWindow(runs, query, now);
      if window == None {
        return None;
      }
      var q := window.value;
      var out: seq<Sample> := [];
      for i := 0 to |samples|
        invariant out == Selected(samples[..i], q, now)
      {
        assert samples[..i + 1][..i] == samples[..i];
        if !MatchSample(samples[i], q, now) {
          continue;
        }
        out := out + [samples[i]];
      }
      assert samples[..|samples|] == samples;
      NewerOrder();
      var sorted := SortSlice(Newer, out);
      var limit := q.limit;
      if limit <= 0 {
        limit := 500;
      }
      assert Ordered(Newer, sorted) && multiset(sorted) == multiset(Selected(samples, q, now));
      CutNewest(sorted, Selected(samples, q, now), limit);
      if |sorted| > limit {
        sorted := sorted[..limit];
      }
      SampleLists.AnswerMeans(samples, query, q, now, limit, sorted);
      return Some(sorted);
    }

    /** The matching samples of the window, counted by one column; the total is theirs. */
    method ListSampleCounts(query: Query, countBy: string, now: int) returns (r: Option<SampleCounts.CountResult>)
      ensures match ApplyRunWindow(runs, query, now)
              case None => r == None
              case Some(q) =>
                && r.Some? && r.value.groupBy == (if countBy == "" then "status" else countBy)
                && SampleCounts.Exact(r.value.counts, Selected(samples, q, now), r.value.groupBy)
                && r.value.total == |Selected(samples, q, now)| == SampleCounts.Total(r.value.counts)
                && r.value.runID == q.resolvedRunID && (r.value.from, r.value.to) == SampleWindow(q, now)
                && forall s :: s in Selected(samples, q, now) ==> r.value.from <= s.time <= r.value.to
      ensures r == None <==> SampleLists.Unanswerable(runs, query)
      ensures r.Some? ==>
                var c := r.value;
                && SampleLists.WindowAsked(runs, query, now, c.from, c.to, c.runID)
                && SampleLists.Counts(samples, query, c.from, c.to, if countBy == "" then "status" else countBy,
                                      c.counts)
                && c.total == |SampleLists.AllPlaces(samples, query, c.from, c.to)|
    {
      hide SampleCounts.Exact, MatchSample, SampleCounts.SampleGroupKey, SampleWindow, SampleLists.WindowAsked,
        SampleLists.Counts, SampleLists.AllPlaces, SampleLists.Unanswerable, ApplyRunWindow;
      SampleLists.ResolvedMeans(runs, query, now);
      var window := ApplyRunWindow(runs, query, now);
      if window == None {
        return None;
      }
      var q, groupBy := window.value, countBy;
      if groupBy == "" {
        groupBy := "status";
      }
      var tally: map<string, int> := map[];
      var total := 0;
      for i := 0 to |samples|
        invariant tally == SampleCounts.Tally(Selected(samples[..i], q, now), groupBy)
        invariant total == |Selected(samples[..i], q, now)|
      {
        assert samples[..i + 1][..i] == samples[..i];
        if !MatchSample(samples[i], q, now) {
          continue;
        }
        ghost var before := Selected(samples[..i], q, now);
        assert (before + [samples[i]])[..|before|] == before;
        var key := SampleCounts.SampleGroupKey(samples[i], groupBy);
        tally := tally[key := (if key in tally then tally[key] else 0) + 1];
        total := total + 1;
      }
      assert samples[..|samples|] == samples;
      var counts := SampleCounts.SortTally(Selected(samples, q, now), groupBy, tally);
      SampleCounts.CountsConserve(counts, Selected(samples, q, now), groupBy);
      var (from, to) := SampleWindow(q, now);
      SampleLists.CountsMean(samples, query, q, now, groupBy, counts);
      SampleLists.TotalIsPlaces(samples, query, q, now);
      forall s | s in Selected(samples, q, now) ensures from <= s.time <= to {
        SelectedWithin(samples, q, now);
        InWindow(s, q, now);
      }
      r := Some(SampleCounts.CountResult(groupBy, total, counts, q.resolvedRunID, from, to));
    }

    method ListDuplicateSerials(device: string, scope: string) returns (out: Duplicates.DuplicateList)
      ensures var latest := Duplicates.BestRun(runs, device);
              && Duplicates.Assembled(Duplicates.Acc(samples, device, latest), device, latest, scope, out)
              && (Duplicates.NumberedRuns(runs) ==> Duplicates.IsLatestFinished(runs, device, latest))
              && DuplicateReport.Reports(samples, device, latest, out)
      ensures Duplicates.Displayed(out)
      ensures out.scope == if Lower(TrimSpace(scope)) == "history" then "history" else "current"
      ensures Duplicates.NumberedRuns(runs) ==> LatestHeader(runs, device, out)
    {
      hide Duplicates.Displayed, DuplicateReport.Reports, Duplicates.Acc, LatestHeader;
      var latest := Duplicates.LatestFinishedRun(runs, device);
      out := Duplicates.BuildDuplicateSerials(device, samples, latest, scope);
      DuplicateReport.AssembledReports(samples, device, latest, scope, out);
      if Duplicates.NumberedRuns(runs) {
        HeaderShows(runs, device, latest, scope, Duplicates.Acc(samples, device, latest), out);
      }
    }

    // ----- unconfigured ONUs -----

    method ReplaceUnauth(device: string, list: Unauth.UnauthList)
      modifies this`unauth
      ensures unauth == Unauth.MemReplace(old(unauth), device, list)
    {
      var kept := list;
      if (list.status == "unsupported" || list.status == "unavailable") && |list.onus| == 0 {
        if device in unauth {
          kept := kept.(onus := unauth[device].onus, count := |unauth[device].onus|);
        }
      }
      unauth := unauth[device := kept];
    }
  }

  /** A run of the device, or of any when none is named, that is over. */
  predicate Over(run: Run, device: string) {
    (device != "" ==> run.device == device) && run.finishedAt != None && run.status != "running"
  }

  /** The head of a report is that of the run with the greatest id among those that are over, and empty without one. */
  ghost predicate LatestHeader(runs: seq<Run>, device: string, out: Duplicates.DuplicateList) {
    if exists i :: 0 <= i < |runs| && Over(runs[i], device) then
      exists i :: 0 <= i < |runs| && Over(runs[i], device)
                  && (forall j :: 0 <= j < |runs| && Over(runs[j], device) ==> runs[j].id <= runs[i].id)
                  && out.runID == runs[i].id && out.from == runs[i].startedAt && Some(out.to) == runs[i].finishedAt
    else out.runID == 0 && out.from == 0 && out.to == 0
  }

  lemma {:induction false} HeaderShows(runs: seq<Run>, device: string, latest: Run, scope: string,
                                       acc: map<Duplicates.Key, Duplicates.Position>, out: Duplicates.DuplicateList)
    requires Duplicates.NumberedRuns(runs) && Duplicates.IsLatestFinished(runs, device, latest)
    requires Duplicates.Assembled(acc, device, latest, scope, out)
    ensures LatestHeader(runs, device, out)
  {
    hide Duplicates.ItemOf, Duplicates.Kept, Duplicates.SerialBefore;
    forall i | 0 <= i < |runs| ensures Over(runs[i], device) <==> Duplicates.Eligible(runs[i], device) {
    }
    if latest != Duplicates.NO_RUN {
      var i :| 0 <= i < |runs| && runs[i] == latest;
      assert Over(runs[i], device);
    }
  }

  /** The limit of a sample query, 2000 for a run and 500 otherwise when none is given. */
  function SampleLimit(query: Query): (limit: int)
    ensures limit > 0 && (query.limit > 0 ==> limit == query.limit)
  {
    if query.limit > 0 then query.limit else if query.latestRun || query.runID != 0 then 2000 else 500
  }

  lemma {:induction false} CutNewest(sorted: seq<Sample>, selected: seq<Sample>, limit: int)
    requires Ordered(Newer, sorted) && multiset(sorted) == multiset(selected) && limit > 0
    ensures NewestFirst(if |sorted| > limit then sorted[..limit] else sorted, selected, limit)
  {
  }

  /** The part of a map a loop over its keys has been through. */
  function Visited<K, V>(m: map<K, V>, todo: set<K>): map<K, V> {
    map k | k in m && k !in todo :: m[k]
  }

  lemma {:induction false} InWindow(s: Sample, q: Query, now: int)
    requires MatchSample(s, q, now)
    ensures SampleWindow(q, now).0 <= s.time <= SampleWindow(q, now).1
  {
  }

  lemma {:induction false} SelectedWithin(samples: seq<Sample>, q: Query, now: int)
    ensures forall s :: s in Selected(samples, q, now) ==> s in samples && MatchSample(s, q, now)
  {
    hide MatchSample;
    if samples != [] {
      SelectedWithin(samples[..|samples| - 1], q, now);
    }
  }

  lemma {:induction false} VisitOne(ports: map<string, PortState>, todo: set<string>, k: string)
    requires Keyed(ports) && k in todo && k in ports
    ensures Keyed(Visited(ports, todo))
    ensures Visited(ports, todo - {k}) == PutRow(Visited(ports, todo), ports[k])
  {
  }

  function EventLimit(limit: int): (r: int)
    ensures 1 <= r <= 500
  {
    if limit <= 0 then 50 else if limit > 500 then 500 else limit
  }

  /** The last events of one device and ONU (empty selects all), newest first. */
  function NewestEvents(log: seq<StatusEvent>, device: string, serial: string, limit: int): seq<StatusEvent> {
    if log == [] || limit <= 0 then []
    else
      var e := log[|log| - 1];
      if (device == "" || e.device == device) && (serial == "" || e.serial == serial) then
        [e] + NewestEvents(log[..|log| - 1], device, serial, limit - 1)
      else NewestEvents(log[..|log| - 1], device, serial, limit)
  }

  lemma {:induction false} LimitUsed(limit: int)
    ensures EventLimit(limit) == if limit <= 0 then 50 else if limit > 500 then 500 else limit
  {
  }

  predicate Matching(e: StatusEvent, device: string, serial: string) {
    (device != "" ==> e.device == device) && (serial != "" ==> e.serial == serial)
  }

  predicate Descending(places: seq<int>) {
    forall i, j :: 0 <= i < j < |places| ==> places[i] > places[j]
  }

  predicate MatchesAt(log: seq<StatusEvent>, device: string, serial: string, p: int) {
    0 <= p < |log| && Matching(log[p], device, serial)
  }

  predicate PlacesMatch(log: seq<StatusEvent>, device: string, serial: string, places: seq<int>) {
    forall i :: 0 <= i < |places| ==> MatchesAt(log, device, serial, places[i])
  }

  /** A matching place is listed, or comes before the last of a full list. */
  predicate Covered(places: seq<int>, limit: int, p: int) {
    p in places || (|places| == limit && places != [] && p < places[|places| - 1])
  }

  predicate Covers(log: seq<StatusEvent>, device: string, serial: string, limit: int, places: seq<int>) {
    forall p :: 0 <= p < |log| && Matching(log[p], device, serial) ==> Covered(places, limit, p)
  }

  /** The places of the last matching events, the last first: every one from the last listed on, and every one at all
      when there are fewer than the limit. */
  predicate LastPlaces(log: seq<StatusEvent>, device: string, serial: string, limit: int, places: seq<int>) {
    && |places| <= limit && Descending(places)
    && PlacesMatch(log, device, serial, places) && Covers(log, device, serial, limit, places)
  }

  predicate AtPlaces(log: seq<StatusEvent>, places: seq<int>, out: seq<StatusEvent>) {
    && |places| == |out|
    && forall i :: 0 <= i < |out| ==> 0 <= places[i] < |log| && out[i] == log[places[i]]
  }

  /** The events listed are the last matching ones, the last first. */
  ghost predicate LastMatching(log: seq<StatusEvent>, device: string, serial: string, limit: int,
                               out: seq<StatusEvent>) {
    exists places :: LastPlaces(log, device, serial, limit, places) && AtPlaces(log, places, out)
  }

  lemma {:induction false} CoversMore(log: seq<StatusEvent>, device: string, serial: string, limit: int,
                                      places: seq<int>)
    requires log != [] && limit > 0
    requires var rest := if Matching(log[|log| - 1], device, serial) then limit - 1 else limit;
             rest > 0 ==> Covers(log[..|log| - 1], device, serial, rest, places)
    requires Matching(log[|log| - 1], device, serial) && limit == 1 ==> places == []
    ensures Covers(log, device, serial, limit,
                   if Matching(log[|log| - 1], device, serial) then [|log| - 1] + places else places)
  {
    hide Matching;
    var front, n := log[..|log| - 1], |log| - 1;
    var all := if Matching(log[n], device, serial) then [n] + places else places;
    forall p | 0 <= p < |log| && Matching(log[p], device, serial) ensures Covered(all, limit, p) {
      if p < n {
        assert front[p] == log[p];
      } else {
        assert all[0] == n;
      }
    }
  }

  lemma {:induction false} MatchesMore(log: seq<StatusEvent>, device: string, serial: string, p: int)
    requires log != [] && MatchesAt(log[..|log| - 1], device, serial, p)
    ensures MatchesAt(log, device, serial, p) && p < |log| - 1
  {
    hide Matching;
  }

  lemma {:induction false} PlacesMore(log: seq<StatusEvent>, device: string, serial: string, places: seq<int>)
    requires log != [] && Descending(places) && PlacesMatch(log[..|log| - 1], device, serial, places)
    ensures var all := if Matching(log[|log| - 1], device, serial) then [|log| - 1] + places else places;
            Descending(all) && PlacesMatch(log, device, serial, all)
  {
    var n := |log| - 1;
    assert Matching(log[n], device, serial) ==> MatchesAt(log, device, serial, n);
    hide MatchesAt, Matching;
    forall i | 0 <= i < |places| ensures MatchesAt(log, device, serial, places[i]) && places[i] < n {
      MatchesMore(log, device, serial, places[i]);
    }
  }

  lemma {:induction false} AtMore(log: seq<StatusEvent>, places: seq<int>, out: seq<StatusEvent>)
    requires log != [] && AtPlaces(log[..|log| - 1], places, out)
    ensures AtPlaces(log, places, out)
    ensures AtPlaces(log, [|log| - 1] + places, [log[|log| - 1]] + out)
  {
    var front := log[..|log| - 1];
    forall i | 0 <= i < |out| ensures 0 <= places[i] < |log| && out[i] == log[places[i]] {
      assert front[places[i]] == log[places[i]];
    }
  }

  lemma {:induction false} NewestMatching(log: seq<StatusEvent>, device: string, serial: string, limit: int)
    requires limit > 0
    ensures LastMatching(log, device, serial, limit, NewestEvents(log, device, serial, limit))
  {
    var places := NewestPlaces(log, device, serial, limit);
    hide LastPlaces, NewestEvents, AtPlaces;
  }

  lemma {:induction false} NewestPlaces(log: seq<StatusEvent>, device: string, serial: string, limit: int)
    returns (places: seq<int>)
    requires limit > 0
    ensures LastPlaces(log, device, serial, limit, places)
    ensures AtPlaces(log, places, NewestEvents(log, device, serial, limit))
  {
    hide Covers, Descending, PlacesMatch, AtPlaces, Matching;
    if log == [] {
      places := [];
      NoPlaces(device, serial, limit);
    } else {
      var front, e := log[..|log| - 1], log[|log| - 1];
      MatchingSplit(e, device, serial);
      if Matching(e, device, serial) && limit == 1 {
        NoPlaces(device, serial, 1);
        NoneAllowed(front, device, serial);
        CoversMore(log, device, serial, limit, []);
        NothingPlaced(front, device, serial);
        PlacesMore(log, device, serial, []);
        AtMore(log, [], []);
        places := [|log| - 1];
        assert [|log| - 1] + [] == places && [e] + [] == [e];
      } else {
        var before := NewestPlaces(front, device, serial, if Matching(e, device, serial) then limit - 1 else limit);
        places := if Matching(e, device, serial) then [|log| - 1] + before else before;
        CoversMore(log, device, serial, limit, before);
        PlacesMore(log, device, serial, before);
        AtMore(log, before,
               NewestEvents(front, device, serial, if Matching(e, device, serial) then limit - 1 else limit));
      }
    }
  }

  lemma {:induction false} MatchingSplit(e: StatusEvent, device: string, serial: string)
    ensures Matching(e, device, serial) <==>
            (device == "" || e.device == device) && (serial == "" || e.serial == serial)
  {
  }

  lemma {:induction false} NoPlaces(device: string, serial: string, limit: int)
    requires limit > 0
    ensures LastPlaces([], device, serial, limit, []) && AtPlaces([], [], NewestEvents([], device, serial, limit))
  {
  }

  lemma {:induction false} NothingPlaced(log: seq<StatusEvent>, device: string, serial: string)
    ensures Descending([]) && PlacesMatch(log, device, serial, []) && AtPlaces(log, [], [])
  {
  }

  lemma {:induction false} NewestStep(log: seq<StatusEvent>, i: nat, device: string, serial: string, limit: int)
    requires i < |log| && limit > 0
    ensures NewestEvents(log[..i + 1], device, serial, limit) ==
            if (device == "" || log[i].device == device) && (serial == "" || log[i].serial == serial) then
              [log[i]] + NewestEvents(log[..i], device, serial, limit - 1)
            else NewestEvents(log[..i], device, serial, limit)
  {
    assert log[..i + 1][..i] == log[..i];
  }

  lemma {:induction false} NoneAllowed(log: seq<StatusEvent>, device: string, serial: string)
    ensures NewestEvents(log, device, serial, 0) == []
  {
  }

  lemma {:induction false} NoneLeft(device: string, serial: string, limit: int)
    ensures NewestEvents([], device, serial, limit) == []
  {
  }

  function FinishRun(runs: seq<Run>, run: Run): seq<Run> {
    if runs == [] then [run]
    else if runs[0].id == run.id then [run] + runs[1..]
    else [runs[0]] + FinishRun(runs[1..], run)
  }

  lemma {:induction false} FinishStep(runs: seq<Run>, run: Run, i: nat)
    requires i < |runs|
    ensures FinishRun(runs[i..], run) ==
            if runs[i].id == run.id then [run] + runs[i + 1..] else [runs[i]] + FinishRun(runs[i + 1..], run)
  {
    assert runs[i..][1..] == runs[i + 1..];
  }

  lemma {:induction false} FinishEnd(run: Run)
    ensures FinishRun([], run) == [run]
  {
  }

  lemma {:induction false} NewerOrder()
    ensures StrictWeakOrder(Newer)
  {
  }

  /** The newest listed event of an ONU is the last entry of its own log, so what the event list shows
      first is what explains the ONU's row. */
  lemma {:induction false} NewestIsLast(log: seq<StatusEvent>, device: string, serial: string, limit: int)
    requires device != "" && serial != "" && limit > 0 && StatusOf(log, device, serial) != []
    ensures var out, mine := NewestEvents(log, device, serial, limit), StatusOf(log, device, serial);
            out != [] && out[0] == mine[|mine| - 1]
  {
    if log != [] {
      var e := log[|log| - 1];
      if e.device != device || e.serial != serial {
        NewestIsLast(log[..|log| - 1], device, serial, limit);
      }
    }
  }

  /** A list that fits the limit is the selection itself, reordered newest first. */
  lemma {:induction false} FittingList(out: seq<Sample>, selected: seq<Sample>, limit: int)
    requires NewestFirst(out, selected, limit) && |selected| <= limit
    ensures multiset(out) == multiset(selected)
    ensures forall i, j :: 0 <= i < j < |out| ==> out[i].time >= out[j].time
  {
    var all :| Ordered(Newer, all) && multiset(all) == multiset(selected)
               && out == if limit < |all| && 0 <= limit then all[..limit] else all;
    assert |all| == |multiset(all)| == |multiset(selected)| == |selected|;
  }
}
