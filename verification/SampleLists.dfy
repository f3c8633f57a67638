/** What a sample query answers, said of the stored samples and runs alone. */
module SampleLists {
  import opened Text
  import opened Events
  import opened Runs
  import opened Ordering
  import SampleCounts

  // ----- filters and window -----

  /** The sample has whatever the query asks for: an empty or zero filter asks for nothing, a status is compared without
      regard to letter case. */
  ghost predicate Meets(s: Sample, query: Query) {
    && (query.device != "" ==> s.device == query.device)
    && (query.serial != "" ==> s.serial == query.serial)
    && (query.board != 0 ==> s.board == query.board)
    && (query.pon != 0 ==> s.pon == query.pon)
    && (query.onu != 0 ==> s.onu == query.onu)
    && (query.status != "" ==> Lower(s.status) == Lower(query.status))
  }

  /** The query is for a run: the last one of the device, or the first with the id, of any device when none is asked. */
  ghost predicate RunAsked(runs: seq<Run>, query: Query, i: int) {
    && 0 <= i < |runs| && (query.device != "" ==> runs[i].device == query.device)
    && (query.latestRun ==>
          forall j :: i < j < |runs| ==> query.device != "" && runs[j].device != query.device)
    && (!query.latestRun ==>
          && runs[i].id == query.runID
          && forall j :: 0 <= j < i && runs[j].id == query.runID ==>
            query.device != "" && runs[j].device != query.device)
  }

  /** A bound, or what stands in for a missing one. */
  function Or(t: int, otherwise: int): int {
    if t != 0 then t else otherwise
  }

  /** The window of a query: the run's times when one is asked, the times asked otherwise; up to now when no end is
      given, and the 24 hours before the end when no start is. */
  ghost predicate WindowAsked(runs: seq<Run>, query: Query, now: int, from: int, to: int, runID: int) {
    if query.latestRun || query.runID != 0 then
      exists i :: RunAsked(runs, query, i) && runID == runs[i].id
                  && to == (if runs[i].finishedAt.Some? then Or(runs[i].finishedAt.value, now) else now)
                  && from == Or(runs[i].startedAt, to - 86_400_000_000_000)
    else
      && runID == query.resolvedRunID && to == Or(query.to, now) && from == Or(query.from, to - 86_400_000_000_000)
  }

  predicate Unanswerable(runs: seq<Run>, query: Query) {
    && (query.latestRun || query.runID != 0)
    && forall i :: 0 <= i < |runs| ==>
         (query.device != "" && runs[i].device != query.device) || (!query.latestRun && runs[i].id != query.runID)
  }

  // ----- the resolved query -----

  lemma {:induction false} GetRunMeans(runs: seq<Run>, device: string, id: int)
    ensures GetRun(runs, device, id) == None ==>
              forall i :: 0 <= i < |runs| ==> (device != "" && runs[i].device != device) || runs[i].id != id
    ensures GetRun(runs, device, id).Some? ==>
              exists i :: 0 <= i < |runs| && runs[i] == GetRun(runs, device, id).value && runs[i].id == id
                          && (device != "" ==> runs[i].device == device)
                          && forall j :: 0 <= j < i && runs[j].id == id ==> device != "" && runs[j].device != device
  {
    if runs != [] && !(runs[0].id == id && (device == "" || runs[0].device == device)) {
      GetRunMeans(runs[1..], device, id);
      var found := GetRun(runs, device, id);
      if found.Some? {
        var i :| 0 <= i < |runs[1..]| && runs[1..][i] == found.value && runs[1..][i].id == id
                 && (device != "" ==> runs[1..][i].device == device)
                 && forall j :: 0 <= j < i && runs[1..][j].id == id ==> device != "" && runs[1..][j].device != device;
        forall j | 0 <= j < i + 1 && runs[j].id == id ensures device != "" && runs[j].device != device {
          assert j > 0 ==> runs[1..][j - 1] == runs[j];
        }
        assert runs[i + 1] == found.value;
      } else {
        forall i | 0 <= i < |runs| ensures (device != "" && runs[i].device != device) || runs[i].id != id {
          assert i > 0 ==> runs[1..][i - 1] == runs[i];
        }
      }
    }
  }

  lemma {:induction false} LatestRunMeans(runs: seq<Run>, device: string)
    ensures LatestRun(runs, device) == None ==>
              forall i :: 0 <= i < |runs| ==> device != "" && runs[i].device != device
    ensures LatestRun(runs, device).Some? ==>
              exists i :: 0 <= i < |runs| && runs[i] == LatestRun(runs, device).value
                          && (device != "" ==> runs[i].device == device)
                          && forall j :: i < j < |runs| ==> device != "" && runs[j].device != device
  {
    if runs != [] && !(device == "" || runs[|runs| - 1].device == device) {
      var front := runs[..|runs| - 1];
      LatestRunMeans(front, device);
      if LatestRun(runs, device).Some? {
        var i :| 0 <= i < |front| && front[i] == LatestRun(runs, device).value
                 && (device != "" ==> front[i].device == device)
                 && forall j :: i < j < |front| ==> device != "" && front[j].device != device;
        assert runs[i] == front[i];
      }
    }
  }

  /** The resolved query asks the same filters, for the window asked. */
  lemma {:induction false} ResolvedMeans(runs: seq<Run>, query: Query, now: int)
    ensures ApplyRunWindow(runs, query, now) == None <==> Unanswerable(runs, query)
    ensures ApplyRunWindow(runs, query, now).Some? ==>
              var q := ApplyRunWindow(runs, query, now).value;
              && WindowAsked(runs, query, now, SampleWindow(q, now).0, SampleWindow(q, now).1, q.resolvedRunID)
              && q == query.(from := q.from, to := q.to, resolvedRunID := q.resolvedRunID, limit := q.limit)
              && q.limit == if query.limit <= 0 && (query.latestRun || query.runID != 0) then 2000 else query.limit
  {
    if query.latestRun {
      LatestRunMeans(runs, query.device);
      if LatestRun(runs, query.device).Some? {
        var i :| 0 <= i < |runs| && runs[i] == LatestRun(runs, query.device).value
                 && (query.device != "" ==> runs[i].device == query.device)
                 && forall j :: i < j < |runs| ==> query.device != "" && runs[j].device != query.device;
        assert RunAsked(runs, query, i);
      }
    } else if query.runID != 0 {
      GetRunMeans(runs, query.device, query.runID);
      var found := GetRun(runs, query.device, query.runID);
      if found.Some? {
        var i :| 0 <= i < |runs| && runs[i] == found.value && runs[i].id == query.runID
                 && (query.device != "" ==> runs[i].device == query.device)
                 && forall j :: 0 <= j < i && runs[j].id == query.runID ==>
                      query.device != "" && runs[j].device != query.device;
        assert RunAsked(runs, query, i);
      }
    }
    hide GetRun, LatestRun, RunAsked;
  }

  lemma {:induction false} MatchMeans(s: Sample, query: Query, q: Query, now: int)
    requires q == query.(from := q.from, to := q.to, resolvedRunID := q.resolvedRunID, limit := q.limit)
    ensures MatchSample(s, q, now) <==> Meets(s, query) && SampleWindow(q, now).0 <= s.time <= SampleWindow(q, now).1
  {
    hide SampleWindow;
  }

  // ----- lists -----

  ghost predicate Wanted(s: Sample, query: Query, from: int, to: int) {
    Meets(s, query) && from <= s.time <= to
  }

  /** The list a query gives: stored samples that meet it, newest first, no more than the limit; all of them, as often
      as they are stored, when that is less, and otherwise none newer is left out. */
  ghost predicate Answer(samples: seq<Sample>, query: Query, from: int, to: int, limit: int, out: seq<Sample>) {
    && (forall s :: s in out ==> Wanted(s, query, from, to))
    && (forall i, j :: 0 <= i < j < |out| ==> out[i].time >= out[j].time)
    && multiset(out) <= multiset(samples)
    && |out| <= limit
    && (|out| < limit ==> forall s :: Wanted(s, query, from, to) ==> multiset(out)[s] == multiset(samples)[s])
    && (forall s, t :: s in out && Wanted(t, query, from, to) && multiset(out)[t] < multiset(samples)[t] ==>
          t.time <= s.time)
  }

  lemma {:induction false} SelectedCounts(samples: seq<Sample>, q: Query, now: int, s: Sample)
    ensures multiset(Selected(samples, q, now))[s] == if MatchSample(s, q, now) then multiset(samples)[s] else 0
  {
    hide MatchSample;
    if samples != [] {
      SelectedCounts(samples[..|samples| - 1], q, now, s);
      assert samples == samples[..|samples| - 1] + [samples[|samples| - 1]];
    }
  }

  lemma {:induction false} CutCounts(all: seq<Sample>, n: nat, s: Sample)
    requires n <= |all|
    ensures multiset(all[..n])[s] <= multiset(all)[s]
    ensures multiset(all[..n])[s] < multiset(all)[s] ==> exists i :: n <= i < |all| && all[i] == s
  {
    assert all == all[..n] + all[n..];
    if multiset(all[..n])[s] < multiset(all)[s] {
      assert s in all[n..];
      var i :| 0 <= i < |all[n..]| && all[n..][i] == s;
      assert all[n + i] == s;
    }
  }

  /** How often a sample stands in the sorted selection. */
  ghost predicate Chosen(all: seq<Sample>, samples: seq<Sample>, query: Query, from: int, to: int) {
    && Ordered(Newer, all)
    && forall s: Sample :: multiset(all)[s] == if Wanted(s, query, from, to) then multiset(samples)[s] else 0
  }

  lemma {:induction false} ChosenCut(all: seq<Sample>, samples: seq<Sample>, query: Query, from: int, to: int, n: nat)
    requires Chosen(all, samples, query, from, to) && n <= |all|
    ensures forall s :: s in all[..n] ==> Wanted(s, query, from, to)
    ensures multiset(all[..n]) <= multiset(samples)
  {
    hide Wanted, Ordered;
    forall s: Sample ensures multiset(all[..n])[s] <= multiset(samples)[s] {
      CutCounts(all, n, s);
    }
    forall s | s in all[..n] ensures Wanted(s, query, from, to) {
      assert s in all;
      assert multiset(all)[s] > 0;
    }
  }

  lemma {:induction false} ChosenOrder(all: seq<Sample>, n: nat)
    requires Ordered(Newer, all) && n <= |all|
    ensures forall i, j :: 0 <= i < j < n ==> all[i].time >= all[j].time
    ensures forall i, j :: 0 <= i < n <= j < |all| ==> all[i].time >= all[j].time
  {
    forall i, j | 0 <= i < j < |all| ensures all[i].time >= all[j].time {
      assert !Newer(all[j], all[i]);
    }
  }

  lemma {:induction false} ChosenRest(all: seq<Sample>, samples: seq<Sample>, query: Query, from: int, to: int, n: nat,
                                      s: Sample, t: Sample)
    requires Chosen(all, samples, query, from, to) && n <= |all| && s in all[..n] && Wanted(t, query, from, to)
    requires multiset(all[..n])[t] < multiset(samples)[t]
    ensures t.time <= s.time
  {
    hide Wanted, Ordered;
    CutCounts(all, n, t);
    ChosenOrder(all, n);
    var j :| n <= j < |all| && all[j] == t;
    var i :| 0 <= i < n && all[..n][i] == s;
  }

  lemma {:induction false} ChosenAll(selected: seq<Sample>, all: seq<Sample>, samples: seq<Sample>, query: Query,
                                     q: Query, now: int)
    requires q == query.(from := q.from, to := q.to, resolvedRunID := q.resolvedRunID, limit := q.limit)
    requires selected == Selected(samples, q, now) && multiset(all) == multiset(selected) && Ordered(Newer, all)
    ensures Chosen(all, samples, query, SampleWindow(q, now).0, SampleWindow(q, now).1)
  {
    hide MatchSample, SampleWindow, Meets, Selected, Ordered;
    forall s: Sample
      ensures multiset(all)[s] ==
              if Wanted(s, query, SampleWindow(q, now).0, SampleWindow(q, now).1) then multiset(samples)[s] else 0
    {
      SelectedCounts(samples, q, now, s);
      MatchMeans(s, query, q, now);
    }
  }

  lemma {:induction false} ChosenAnswer(all: seq<Sample>, samples: seq<Sample>, query: Query, from: int, to: int,
                                        limit: int)
    requires Chosen(all, samples, query, from, to) && limit > 0
    ensures Answer(samples, query, from, to, limit, if limit < |all| then all[..limit] else all)
  {
    hide Wanted, Ordered;
    var n := if limit < |all| then limit else |all|;
    assert all[..|all|] == all;
    ChosenCut(all, samples, query, from, to, n);
    ChosenOrder(all, n);
    forall s, t | s in all[..n] && Wanted(t, query, from, to) && multiset(all[..n])[t] < multiset(samples)[t]
      ensures t.time <= s.time
    {
      ChosenRest(all, samples, query, from, to, n, s, t);
    }
  }

  lemma {:induction false} AnswerMeans(samples: seq<Sample>, query: Query, q: Query, now: int, limit: int,
                                       out: seq<Sample>)
    requires q == query.(from := q.from, to := q.to, resolvedRunID := q.resolvedRunID, limit := q.limit)
    requires NewestFirst(out, Selected(samples, q, now), limit) && limit > 0
    ensures Answer(samples, query, SampleWindow(q, now).0, SampleWindow(q, now).1, limit, out)
  {
    hide SampleWindow, Selected, Chosen, Answer, Ordered;
    var selected := Selected(samples, q, now);
    var all :| Ordered(Newer, all) && multiset(all) == multiset(selected)
               && out == if limit < |all| && 0 <= limit then all[..limit] else all;
    ChosenAll(selected, all, samples, query, q, now);
    ChosenAnswer(all, samples, query, SampleWindow(q, now).0, SampleWindow(q, now).1, limit);
  }

  // ----- counts -----

  /** The sample is counted under the key: the column of the grouping, any unknown one being the status. */
  ghost predicate Grouped(s: Sample, groupBy: string, key: string) {
    && (groupBy == "board" ==> key == Itoa(s.board))
    && (groupBy == "pon" ==> key == Itoa(s.pon))
    && (groupBy == "eth_link" ==> key == if s.ethLink != "" then s.ethLink else "(empty)")
    && (groupBy == "onu_type" ==> key == if s.onuType != "" then s.onuType else "(empty)")
    && (groupBy !in {"board", "pon", "eth_link", "onu_type"} ==> key == if s.status != "" then s.status else "(empty)")
  }

  ghost function Places(samples: seq<Sample>, query: Query, from: int, to: int, groupBy: string,
                        key: string): set<int> {
    set i | 0 <= i < |samples| && Wanted(samples[i], query, from, to) && Grouped(samples[i], groupBy, key)
  }

  ghost function AllPlaces(samples: seq<Sample>, query: Query, from: int, to: int): set<int> {
    set i | 0 <= i < |samples| && Wanted(samples[i], query, from, to)
  }

  /** The counts a query gives: the more frequent first, ties by key, each key with the number of stored samples that
      meet the query and have it, and no such sample without one. */
  ghost predicate Counts(samples: seq<Sample>, query: Query, from: int, to: int, groupBy: string,
                         counts: seq<SampleCounts.Bucket>)
  {
    && (forall i, j :: 0 <= i < j < |counts| ==>
          counts[i].count > counts[j].count
          || (counts[i].count == counts[j].count && StrLess(counts[i].key, counts[j].key)))
    && (forall b :: b in counts ==> b.count == |Places(samples, query, from, to, groupBy, b.key)| > 0)
    && (forall s :: s in samples && Wanted(s, query, from, to) ==>
          exists b :: b in counts && Grouped(s, groupBy, b.key))
  }

  lemma {:induction false} KeyGroups(s: Sample, groupBy: string, key: string)
    ensures Grouped(s, groupBy, key) <==> key == SampleCounts.SampleGroupKey(s, groupBy)
  {
    hide Itoa;
  }

  lemma {:induction false} PlacesStep(samples: seq<Sample>, query: Query, from: int, to: int, groupBy: string,
                                      key: string)
    requires samples != []
    ensures var front, n := samples[..|samples| - 1], |samples| - 1;
            var more := Wanted(samples[n], query, from, to) && Grouped(samples[n], groupBy, key);
            |Places(samples, query, from, to, groupBy, key)| ==
            |Places(front, query, from, to, groupBy, key)| + if more then 1 else 0
  {
    hide Wanted, Grouped;
    var front, n := samples[..|samples| - 1], |samples| - 1;
    var was, now := Places(front, query, from, to, groupBy, key), Places(samples, query, from, to, groupBy, key);
    assert n !in was;
    if Wanted(samples[n], query, from, to) && Grouped(samples[n], groupBy, key) {
      assert now == was + {n};
    } else {
      assert now == was;
    }
  }

  lemma {:induction false} CountIsPlaces(samples: seq<Sample>, query: Query, q: Query, now: int, groupBy: string,
                                         key: string)
    requires q == query.(from := q.from, to := q.to, resolvedRunID := q.resolvedRunID, limit := q.limit)
    ensures SampleCounts.CountKey(Selected(samples, q, now), groupBy, key) ==
            |Places(samples, query, SampleWindow(q, now).0, SampleWindow(q, now).1, groupBy, key)|
  {
    hide MatchSample, SampleWindow, Wanted, Grouped, SampleCounts.SampleGroupKey, Places;
    var from, to := SampleWindow(q, now).0, SampleWindow(q, now).1;
    if samples == [] {
      NoPlaces(query, from, to, groupBy, key);
    } else {
      var front, s := samples[..|samples| - 1], samples[|samples| - 1];
      CountIsPlaces(front, query, q, now, groupBy, key);
      PlacesStep(samples, query, from, to, groupBy, key);
      IsWanted(s, query, q, now);
      KeyGroups(s, groupBy, key);
      var before := Selected(front, q, now);
      assert (before + [s])[..|before|] == before;
    }
  }

  lemma {:induction false} NoPlaces(query: Query, from: int, to: int, groupBy: string, key: string)
    ensures Places([], query, from, to, groupBy, key) == {}
  {
  }

  lemma {:induction false} IsWanted(s: Sample, query: Query, q: Query, now: int)
    requires q == query.(from := q.from, to := q.to, resolvedRunID := q.resolvedRunID, limit := q.limit)
    ensures MatchSample(s, q, now) <==> Wanted(s, query, SampleWindow(q, now).0, SampleWindow(q, now).1)
  {
    MatchMeans(s, query, q, now);
    hide MatchSample, SampleWindow, Meets;
  }

  lemma {:induction false} TotalIsPlaces(samples: seq<Sample>, query: Query, q: Query, now: int)
    requires q == query.(from := q.from, to := q.to, resolvedRunID := q.resolvedRunID, limit := q.limit)
    ensures |Selected(samples, q, now)| ==
            |AllPlaces(samples, query, SampleWindow(q, now).0, SampleWindow(q, now).1)|
  {
    hide MatchSample, SampleWindow, Wanted;
    var from, to := SampleWindow(q, now).0, SampleWindow(q, now).1;
    if samples == [] {
      assert AllPlaces(samples, query, from, to) == {};
    } else {
      var front, n := samples[..|samples| - 1], |samples| - 1;
      TotalIsPlaces(front, query, q, now);
      IsWanted(samples[n], query, q, now);
      var was, all := AllPlaces(front, query, from, to), AllPlaces(samples, query, from, to);
      assert n !in was;
      assert all == if Wanted(samples[n], query, from, to) then was + {n} else was;
    }
  }

  lemma {:induction false} CountsMean(samples: seq<Sample>, query: Query, q: Query, now: int, groupBy: string,
                                      counts: seq<SampleCounts.Bucket>)
    requires q == query.(from := q.from, to := q.to, resolvedRunID := q.resolvedRunID, limit := q.limit)
    requires SampleCounts.Exact(counts, Selected(samples, q, now), groupBy)
    ensures Counts(samples, query, SampleWindow(q, now).0, SampleWindow(q, now).1, groupBy, counts)
  {
    hide MatchSample, SampleWindow, Wanted, Grouped, Places, SampleCounts.SampleGroupKey, SampleCounts.CountKey,
      Selected,
      StrLess;
    var from, to := SampleWindow(q, now).0, SampleWindow(q, now).1;
    var list := Selected(samples, q, now);
    forall b | b in counts ensures b.count == |Places(samples, query, from, to, groupBy, b.key)| > 0 {
      CountIsPlaces(samples, query, q, now, groupBy, b.key);
    }
    forall i, j | 0 <= i < j < |counts|
      ensures counts[i].count > counts[j].count
              || (counts[i].count == counts[j].count && StrLess(counts[i].key, counts[j].key))
    {
      assert SampleCounts.BucketBefore(counts[i], counts[j]);
    }
    forall s | s in samples && Wanted(s, query, from, to)
      ensures exists b :: b in counts && Grouped(s, groupBy, b.key) {
      IsWanted(s, query, q, now);
      SelectedCounts(samples, q, now, s);
      assert s in list;
      var i :| 0 <= i < |list| && list[i] == s;
      SampleCounts.Occurs(list, groupBy, i);
      var key := SampleCounts.SampleGroupKey(s, groupBy);
      KeyGroups(s, groupBy, key);
      assert SampleCounts.Bucket(key, SampleCounts.CountKey(list, groupBy, key)) in counts;
    }
  }
}
