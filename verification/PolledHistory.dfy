/** What the poller's way of taking samples guarantees to those who replay them later. */
module PolledHistory {
  import opened Events
  import opened Transitions
  import opened StoreAgreement
  import opened Polling
  import opened Poller
  import opened Runs
  import opened MemoryStore
  import opened Backfill
  import opened UnreadOnus
  import opened PollFailures
  import opened DurableHistory
  import opened ReplaySteps

  /** No PON reply lists the ONU twice. */
  ghost predicate Once(visits: seq<Visit>, device: string, serial: string) {
    forall v :: v in visits ==> |Mine(v.samples, device, serial)| <= 1
  }

  lemma {:induction false} VisitTimes(v: Visit, device: string, serial: string)
    requires SampledAt(v)
    ensures forall s :: s in Mine(v.samples, device, serial) ==> s.time == v.at
  {
  }

  /** The ONU's recorded samples have strictly increasing times. */
  lemma {:induction false} PolledTimesRise(visits: seq<Visit>, device: string, serial: string, since: int, now: int)
    requires Timely(visits, since, now) && Once(visits, device, serial)
    ensures StrictTimes(Mine(Logged(visits), device, serial))
    ensures forall s :: s in Mine(Logged(visits), device, serial) ==> s.time <= now
  {
    hide SampledAt, Mine;
    if visits == [] {
      assert Mine([], device, serial) == [] by {
        NothingMine(device, serial);
      }
    } else {
      var front, v := visits[..|visits| - 1], visits[|visits| - 1];
      assert v in visits;
      PolledTimesRise(front, device, serial, since, v.at - 1);
      var added := if v.outcome.Logged() then v.samples else [];
      VisitTimes(v, device, serial);
      NothingMine(device, serial);
      MineConcat(Logged(front), added, device, serial);
      TimesAppend(Mine(Logged(front), device, serial), Mine(added, device, serial), v.at);
    }
  }

  lemma {:induction false} NothingMine(device: string, serial: string)
    ensures Mine([], device, serial) == []
  {
  }

  lemma {:induction false} TimesAppend(a: seq<Sample>, b: seq<Sample>, at: int)
    requires StrictTimes(a) && |b| <= 1 && (forall s :: s in a ==> s.time < at) && (forall s :: s in b ==> s.time == at)
    ensures StrictTimes(a + b) && forall s :: s in a + b ==> s.time <= at
  {
    assert forall i :: 0 <= i < |a| ==> a[i] in a;
    assert b != [] ==> b[0] in b;
  }

  /** Main result: whatever the poller has done so far, as long as no insert was refused after its transitions
      were recorded and no PON reply listed the ONU twice, rebuilding that ONU's events from the stored
      samples, in whatever order the query returns ties, gives the events the poller logged. */
  lemma {:induction false} PolledHistoryReplays(past: seq<Visit>, view: Mem, samples: seq<Sample>, now: int,
                                                rows: seq<Sample>, device: string, serial: string)
    requires Told(past, view, samples, now) && QueryRows(samples, rows)
    requires forall v :: v in past ==> v.outcome != Collected(InsertRefused)
    requires ValidDevice(device) && serial != "" && Once(past, device, serial)
    ensures var r := ReplayAll(rows);
            && StatusOf(r.statusLog, device, serial) ==
              RetagStatus(StatusOf(view.statusLog, device, serial), "backfill")
            && EthOf(r.ethLog, device, serial) == RetagEth(EthOf(view.ethLog, device, serial), "backfill")
  {
    hide Logged, Kept, RecordAll, ReplayAll, StatusOf, EthOf, RetagStatus, RetagEth, Timely;
    LoggedIsStored(past);
    PolledTimesRise(past, device, serial, 0, now);
    BackfillEqualsLive(Logged(past), samples, rows, device, serial);
  }

  // ----- refused inserts -----

  /** The ONU's samples visit by visit, against what had been recorded of it. */
  function VisitSteps(visits: seq<Visit>, device: string, serial: string): seq<Seen> {
    if visits == [] then []
    else
      var front, v := visits[..|visits| - 1], visits[|visits| - 1];
      var mine, o := Mine(v.samples, device, serial), ObserveAll(Mine(Logged(front), device, serial), "poller");
      VisitSteps(front, device, serial)
        + if mine == [] then []
          else [Seen(mine[0], o.state, o.ports, v.outcome.Logged(), v.outcome.Logged(), v.outcome.Kept())]
  }

  lemma {:induction false} OneMoreSeen(before: seq<Seen>, step: Seen)
    ensures var all := before + [step];
            && StatusLogged(all) == StatusLogged(before) + StatusAdded(step)
            && EthLogged(all) == EthLogged(before) + EthAdded(step)
            && Samples(all) == Samples(before) + [step.x]
            && KeptOf(all) == KeptOf(before) + if step.kept then [step.x] else []
  {
    hide StatusAdded, EthAdded;
    assert (before + [step])[..|before|] == before;
  }

  lemma {:induction false} ObserveMore(mine: seq<Sample>, added: seq<Sample>)
    requires |added| <= 1
    ensures var was, now := ObserveAll(mine, "poller"), ObserveAll(mine + added, "poller");
            if added == [] then now == was
            else
              var s := Padded(added[0]);
              && now.statusLog == was.statusLog + StatusEventsFrom(was.state, s, "poller")
              && now.ethLog == was.ethLog + EthEventsOf(was.ports, s, s.ethPorts, "poller")
  {
    hide Padded, StatusEventsFrom, EthEventsOf;
    if added == [] {
      assert mine + added == mine;
    } else {
      assert (mine + added)[..|mine + added| - 1] == mine;
    }
  }

  lemma {:induction false} OneMoreVisited(visits: seq<Visit>, device: string, serial: string)
    requires visits != [] && |Mine(visits[|visits| - 1].samples, device, serial)| <= 1
    ensures var front, v := visits[..|visits| - 1], visits[|visits| - 1];
            var mine, before := Mine(v.samples, device, serial), VisitSteps(front, device, serial);
            && Samples(VisitSteps(visits, device, serial)) == Samples(before) + mine
            && KeptOf(VisitSteps(visits, device, serial)) == KeptOf(before) + if v.outcome.Kept() then mine else []
  {
    hide Mine, ObserveAll, Samples, KeptOf;
    var front, v := visits[..|visits| - 1], visits[|visits| - 1];
    var mine, before := Mine(v.samples, device, serial), VisitSteps(front, device, serial);
    assert KeptOf(before) + [] == KeptOf(before) && before + [] == before && Samples(before) + [] == Samples(before);
    if mine != [] {
      OneMoreSeen(before, VisitSteps(visits, device, serial)[|before|]);
      assert mine == [mine[0]];
    }
  }

  lemma {:induction false} VisitStepsSamples(visits: seq<Visit>, device: string, serial: string, since: int, now: int)
    requires Timely(visits, since, now) && Once(visits, device, serial)
    ensures var steps := VisitSteps(visits, device, serial);
            && KeptOf(steps) == Mine(Kept(visits), device, serial)
            && StrictTimes(Samples(steps)) && forall s :: s in Samples(steps) ==> s.time <= now
  {
    hide SampledAt, Mine, ObserveAll, Samples, KeptOf, VisitSteps;
    NothingMine(device, serial);
    if visits == [] {
      NoVisitSteps(device, serial);
    } else {
      var front, v := visits[..|visits| - 1], visits[|visits| - 1];
      assert v in visits;
      VisitStepsSamples(front, device, serial, since, v.at - 1);
      OneMoreVisited(visits, device, serial);
      VisitTimes(v, device, serial);
      MineConcat(Kept(front), if v.outcome.Kept() then v.samples else [], device, serial);
      TimesAppend(Samples(VisitSteps(front, device, serial)), Mine(v.samples, device, serial), v.at);
    }
  }

  lemma {:induction false} NoVisitSteps(device: string, serial: string)
    ensures VisitSteps([], device, serial) == [] && Samples([]) == [] && KeptOf([]) == []
  {
  }

  /** What is stored was recorded. */
  lemma {:induction false} KeptDevices(visits: seq<Visit>)
    requires ValidDevices(Logged(visits))
    ensures ValidDevices(Kept(visits))
  {
    hide ValidDevice;
    if visits != [] {
      var front, v := visits[..|visits| - 1], visits[|visits| - 1];
      var before, added := Logged(front), if v.outcome.Logged() then v.samples else [];
      forall i | 0 <= i < |before| ensures ValidDevice(before[i].device) {
        assert Logged(visits)[i] == before[i];
      }
      forall i | 0 <= i < |added| ensures ValidDevice(added[i].device) {
        assert Logged(visits)[|before| + i] == added[i];
      }
      KeptDevices(front);
    }
  }

  lemma {:induction false} VisitStepsLog(visits: seq<Visit>, device: string, serial: string)
    requires Once(visits, device, serial)
    ensures var o := ObserveAll(Mine(Logged(visits), device, serial), "poller");
            && StatusLogged(VisitSteps(visits, device, serial)) == o.statusLog
            && EthLogged(VisitSteps(visits, device, serial)) == o.ethLog
  {
    hide Mine, ObserveAll, StatusEventsFrom, EthEventsOf, Padded, StatusLogged, EthLogged;
    NothingMine(device, serial);
    if visits == [] {
      NothingSeen();
    } else {
      var front, v := visits[..|visits| - 1], visits[|visits| - 1];
      assert v in visits;
      VisitStepsLog(front, device, serial);
      var mine, before := Mine(v.samples, device, serial), VisitSteps(front, device, serial);
      var logged := Mine(Logged(front), device, serial);
      MineConcat(Logged(front), if v.outcome.Logged() then v.samples else [], device, serial);
      ObserveMore(logged, if v.outcome.Logged() then mine else []);
      if mine == [] {
        assert before + [] == before;
      } else {
        var o := ObserveAll(logged, "poller");
        OneMoreSeen(before, VisitSteps(visits, device, serial)[|before|]);
        assert o.statusLog + [] == o.statusLog && o.ethLog + [] == o.ethLog;
      }
    }
  }

  lemma {:induction false} NothingSeen()
    ensures StatusLogged([]) == [] && EthLogged([]) == []
    ensures ObserveAll([], "poller").statusLog == [] && ObserveAll([], "poller").ethLog == []
  {
  }

  /** Main result: refused inserts included, rebuilding an ONU's events from the stored samples gives the events the
      poller logged exactly when every sample fits: what was recorded and not stored was no change, and what was stored
      was the same change against the recorded state as against the last stored sample. */
  lemma {:induction false} PolledHistoryReplaysIff(past: seq<Visit>, view: Mem, samples: seq<Sample>, now: int,
                                                   rows: seq<Sample>, device: string, serial: string)
    requires Told(past, view, samples, now) && QueryRows(samples, rows)
    requires ValidDevice(device) && serial != "" && Once(past, device, serial)
    ensures StatusOf(ReplayAll(rows).statusLog, device, serial) ==
            RetagStatus(StatusOf(view.statusLog, device, serial), "backfill") <==>
            StatusExplained(VisitSteps(past, device, serial))
    ensures EthOf(ReplayAll(rows).ethLog, device, serial) ==
            RetagEth(EthOf(view.ethLog, device, serial), "backfill") <==>
            EthExplained(VisitSteps(past, device, serial))
  {
    hide Logged, Kept, RecordAll, ReplayAll, RetagStatus, RetagEth, StatusOf, EthOf, ObserveAll, StatusExplained,
      EthExplained, VisitSteps, QueryRows, Timely, StatusLogged, EthLogged, KeptOf;
    var steps := VisitSteps(past, device, serial);
    KeptDevices(past);
    VisitStepsSamples(past, device, serial, 0, now);
    VisitStepsLog(past, device, serial);
    KeptIncreasing(steps);
    assert StoredAs(samples, samples);
    BackfillEqualsLive(samples, samples, rows, device, serial);
    LiveOnu(samples, device, serial);
    LiveOnu(Logged(past), device, serial);
    StepsExplainedIff(steps, now);
    var o := ObserveAll(KeptOf(steps), "poller");
    SameStatusRetagged(StatusLogged(steps), o.statusLog, "poller", "backfill");
    SameEthRetagged(EthLogged(steps), o.ethLog, "poller", "backfill");
  }

  // ----- the durable store under the poller -----

  /** The durable store is handed each visit's samples, and each of its polls may stop anywhere. */
  ghost predicate Drives(visits: seq<Visit>, run: seq<(seq<Sample>, Stop)>) {
    && |run| == |visits|
    && forall i :: 0 <= i < |run| ==> run[i].0 == visits[i].samples && Polled(run[i].0)
  }

  lemma {:induction false} VisitedTimesRise(visits: seq<Visit>, run: seq<(seq<Sample>, Stop)>, device: string,
                                            serial: string, since: int, now: int)
    requires Timely(visits, since, now) && Once(visits, device, serial) && Drives(visits, run)
    ensures StrictTimes(Mine(Flatten(Batches(run)), device, serial))
    ensures forall s :: s in Mine(Flatten(Batches(run)), device, serial) ==> s.time <= now
  {
    hide SampledAt, Mine, Flatten, Polled;
    NothingFlat(device, serial);
    if visits != [] {
      var front, v := visits[..|visits| - 1], visits[|visits| - 1];
      var earlier := Batches(run[..|run| - 1]);
      assert v in visits;
      VisitedTimesRise(front, run[..|run| - 1], device, serial, since, v.at - 1);
      VisitTimes(v, device, serial);
      FlattenMore(earlier, v.samples, device, serial);
      TimesAppend(Mine(Flatten(earlier), device, serial), Mine(v.samples, device, serial), v.at);
    }
  }

  lemma {:induction false} PolledOnce(batch: seq<Sample>, device: string, serial: string)
    requires Polled(batch) && serial != ""
    ensures |Mine(batch, device, serial)| <= 1
    ensures (forall s :: s in batch ==> s.serial != serial) ==> Mine(batch, device, serial) == []
  {
    if batch != [] {
      var front, last := batch[..|batch| - 1], batch[|batch| - 1];
      PolledOnce(front, device, serial);
      if last.serial == serial {
        assert forall s :: s in front ==> s.serial != serial;
      }
    }
  }

  /** Main result: whatever the poller has visited, and whichever statements of the durable store failed, rebuilding an
      ONU's events from the durable samples gives the events the durable store holds, source tag aside, exactly when
      every one of its samples fits; and, as long as no poll failed between two ONU rows, the status events exactly
      when no failed poll had logged one for it. */
  lemma {:induction false} PolledRunReplaysIff(visits: seq<Visit>, run: seq<(seq<Sample>, Stop)>, rows: seq<Sample>,
                                               device: string, serial: string, since: int, now: int)
    requires Timely(visits, since, now) && Drives(visits, run)
    requires QueryRows(PollRun(run).samples, rows) && ValidDevice(device) && serial != ""
    ensures var status := StatusOf(ReplayAll(rows).statusLog, device, serial) ==
                          RetagStatus(StatusOf(PollRun(run).statusLog, device, serial), "backfill");
            && (status <==> StatusExplained(Steps(run, device, serial)))
            && (NoOnuRow(run) ==> (status <==> Stray(run, device, serial) == 0))
    ensures EthOf(ReplayAll(rows).ethLog, device, serial) ==
            RetagEth(EthOf(PollRun(run).ethLog, device, serial), "backfill") <==>
            EthExplained(Steps(run, device, serial))
  {
    hide Timely, ReplayAll, RetagStatus, RetagEth, StatusOf, EthOf, PollRun, Stray, StrictTimes, QueryRows, Polled,
      Mine,
      Steps, StatusExplained, EthExplained, Flatten;
    forall v | v in visits ensures |Mine(v.samples, device, serial)| <= 1 {
      var i :| 0 <= i < |visits| && visits[i] == v;
      PolledOnce(run[i].0, device, serial);
    }
    VisitedTimesRise(visits, run, device, serial, since, now);
    AnyRunReplaysIff(run, rows, device, serial);
    if NoOnuRow(run) {
      StoredTimes(run, device, serial);
      FailedRunReplaysIff(run, rows, device, serial);
    }
  }

  /** The stored batches' samples of the ONU are some of all its samples. */
  lemma {:induction false} StoredTimes(run: seq<(seq<Sample>, Stop)>, device: string, serial: string)
    requires serial != "" && (forall i :: 0 <= i < |run| ==> Polled(run[i].0)) && NoOnuRow(run)
    requires StrictTimes(Mine(Flatten(Batches(run)), device, serial))
    ensures StrictTimes(Mine(Flatten(Stored(run)), device, serial))
  {
    hide Steps, Flatten, Mine, Polled, StrictTimes;
    StepsSamples(run, device, serial);
    KeptIncreasing(Steps(run, device, serial));
    StoredAreKept(run);
  }

  lemma {:induction false} StoredAreKept(run: seq<(seq<Sample>, Stop)>)
    requires NoOnuRow(run)
    ensures KeptBatches(run) == Stored(run)
  {
    hide PollStopped;
    if run != [] {
      StoredAreKept(run[..|run| - 1]);
      assert !run[|run| - 1].1.AtOnuRow?;
    }
  }

  // ----- asking for a run -----

  /** Main result: on the store as the poller leaves it, asking for the samples of a run by its id lists exactly the
      samples that run stored, newest first, when they fit the limit and the run's row was closed or no later run stored
      a sample the query would select. */
  method SamplesOfRun(poller: Poller, i: nat, q: Query, now: int) returns (out: seq<Sample>)
    requires poller.Valid() && poller.clock <= now && i < |poller.history|
    requires AllOf(poller.history[i].run.device, q) && q.runID == poller.history[i].run.id && !q.latestRun
    ensures var r, limit := poller.history[i], if q.limit <= 0 then 2000 else q.limit;
            (r.closed || InsertedSince(poller.history, i + 1, q.device) == []) && |r.inserted| <= limit ==>
              && multiset(out) == multiset(r.inserted)
              && forall j, k :: 0 <= j < k < |out| ==> out[j].time >= out[k].time
  {
    hide Recorded, Told, Selected, InsertedSince, AllOf;
    var store := poller.store;
    LaterStillRecorded(poller.history, store.runs, store.samples, store.nextRun, poller.clock, now);
    RunQueryRecoversRunIff(poller.history, store.runs, store.samples, store.nextRun, now, i, q);
    var listed := store.ListSamples(q, now);
    out := listed.value;
    ghost var w := ApplyRunWindow(store.runs, q, now).value;
    ghost var r := poller.history[i];
    if (r.closed || InsertedSince(poller.history, i + 1, q.device) == []) && |r.inserted| <= w.limit {
      FittingList(out, r.inserted, w.limit);
    }
  }
}
