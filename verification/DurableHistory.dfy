/** The samples of the durable store, replayed, against the logs the store itself wrote. */
module DurableHistory {
  import opened Text
  import opened Events
  import opened Transitions
  import opened Tables
  import opened StoreAgreement
  import opened Backfill
  import opened UnreadOnus
  import opened PollFailures
  import opened ReplaySteps

  lemma {:induction false} StoredPoll(history: seq<Sample>, stored: seq<Sample>, batch: seq<Sample>)
    requires StoredAs(history, stored)
    ensures StoredAs(history + batch, stored + PadAll(PadAll(batch)))
  {
    hide Padded;
    forall i | 0 <= i < |batch| ensures PadAll(PadAll(batch))[i] == Padded(batch[i]) {
      PaddedIdempotent(batch[i]);
    }
  }

  lemma {:induction false} PollSamples(db: Db, batch: seq<Sample>)
    ensures PollBatch(db, batch).samples == db.samples + PadAll(PadAll(batch))
  {
  }

  /** The store keeps every polled sample, padded. */
  lemma {:induction false} StoredPolls(batches: seq<seq<Sample>>)
    ensures StoredAs(Flatten(batches), PollAll(batches).samples)
  {
    hide PollBatch, StoredAs;
    if batches == [] {
      NothingStored();
    } else {
      var front, batch := batches[..|batches| - 1], batches[|batches| - 1];
      StoredPolls(front);
      StoredPoll(Flatten(front), PollAll(front).samples, batch);
      PollSamples(PollAll(front), batch);
    }
  }

  lemma {:induction false} NothingStored()
    ensures StoredAs([], [])
  {
  }

  /** Main result: over every run of polls, ONUs that could not be read included, the backfill derives from the durable
      store's samples the events the durable store itself logged, source tag aside, for every ONU that was read and
      whose sample times strictly increase. */
  lemma {:induction false} DurableBackfill(batches: seq<seq<Sample>>, rows: seq<Sample>, device: string, serial: string)
    requires forall i :: 0 <= i < |batches| ==> Polled(batches[i])
    requires QueryRows(PollAll(batches).samples, rows)
    requires ValidDevice(device) && serial != "" && StrictTimes(Mine(Flatten(batches), device, serial))
    ensures var db, r := PollAll(batches), ReplayAll(rows);
            && StatusOf(r.statusLog, device, serial) == RetagStatus(StatusOf(db.statusLog, device, serial), "backfill")
            && EthOf(r.ethLog, device, serial) == RetagEth(EthOf(db.ethLog, device, serial), "backfill")
  {
    StoresAgreeOnReadOnus(batches, device, serial);
    StoredPolls(batches);
    BackfillEqualsLive(Flatten(batches), PollAll(batches).samples, rows, device, serial);
  }

  lemma {:induction false} RetagLength(log: seq<StatusEvent>, source: string)
    ensures |RetagStatus(log, source)| == |log|
  {
    if log != [] {
      RetagLength(log[..|log| - 1], source);
    }
  }

  /** Main result: when polls have failed before an ONU row was written, the backfill gives back the status events the
      store logged for an ONU exactly when no failed poll had logged any for it. What it leaves out are those of polls
      whose samples were never stored. It always gives back the Ethernet events when no failed poll reached the port
      rows. */
  lemma {:induction false} FailedRunReplaysIff(run: seq<(seq<Sample>, Stop)>, rows: seq<Sample>, device: string,
                                               serial: string)
    requires NoOnuRow(run) && forall i :: 0 <= i < |run| ==> Polled(run[i].0)
    requires QueryRows(PollRun(run).samples, rows)
    requires ValidDevice(device) && serial != "" && StrictTimes(Mine(Flatten(Stored(run)), device, serial))
    ensures StatusOf(ReplayAll(rows).statusLog, device, serial) ==
            RetagStatus(StatusOf(PollRun(run).statusLog, device, serial), "backfill") <==>
            Stray(run, device, serial) == 0
    ensures NoPortRow(run) ==>
              EthOf(ReplayAll(rows).ethLog, device, serial) ==
              RetagEth(EthOf(PollRun(run).ethLog, device, serial), "backfill")
  {
    hide ReplayAll, RetagStatus, RetagEth, StatusOf, EthOf, PollRun, PollAll, Polled, Stray, StrictTimes, QueryRows;
    FailedPollsOnlyLog(run, device, serial);
    StoredArePolled(run);
    DurableBackfill(Stored(run), rows, device, serial);
    RetagLength(StatusOf(PollRun(run).statusLog, device, serial), "backfill");
    RetagLength(StatusOf(PollAll(Stored(run)).statusLog, device, serial), "backfill");
  }

  lemma {:induction false} StoredArePolled(run: seq<(seq<Sample>, Stop)>)
    requires forall i :: 0 <= i < |run| ==> Polled(run[i].0)
    ensures forall i :: 0 <= i < |Stored(run)| ==> Polled(Stored(run)[i])
  {
    hide Polled, PollStopped;
    if run != [] {
      StoredArePolled(run[..|run| - 1]);
    }
  }

  /** The first poll of a new ONU, failing when its Ethernet events are inserted, is such a poll. */
  lemma {:induction false} FailedInsertIsStray(s: Sample)
    requires !Blank(s.serial) && EthEventsOf(map[], Padded(s), Padded(s).ethPorts, "poller") != []
    ensures Stray([([s], AtEthInsert)], s.device, s.serial) == 1
  {
    hide Padded, EthEventsOf, Blank, PollBatch;
    PaddedIdempotent(s);
    NamedSerial(s.serial);
    FirstChange(Padded(s));
    var run := [([s], AtEthInsert)];
    assert run[..0] == [] && [s][..0] == [];
    assert PollRun(run[..0]) == EMPTY_DB;
    assert EthBatch(map[], [s][..0]) == [] && StatusBatch(map[], s.device, [s][..0]) == [];
    assert EthPrev(map[], s.device, s.serial) == map[];
    assert EthBatch(map[], [s]) == EthEventsOf(map[], Padded(s), Padded(s).ethPorts, "poller");
    var events := StatusBatch(map[], s.device, [s]);
    assert events == StatusEventsFrom(NO_ONU, Padded(s), "poller");
    assert PollStopped(EMPTY_DB, [s], AtEthInsert).1;
    assert Extra(EMPTY_DB, [s], AtEthInsert) == events;
    StatusEventsOwner(NO_ONU, Padded(s), "poller", s.device, s.serial);
    assert StatusOf(events, s.device, s.serial) == events;
    assert Stray(run[..0], s.device, s.serial) == 0;
  }

  lemma {:induction false} FirstChange(s: Sample)
    requires !Blank(s.serial)
    ensures |StatusEventsFrom(NO_ONU, s, "poller")| == 1
  {
  }

  // ----- any failures at all -----

  /** Whether a poll's status events, its Ethernet events and its samples reach the store. */
  predicate LogsStatus(db: Db, batch: seq<Sample>, stop: Stop) {
    !PollStopped(db, batch, stop).1 || (!stop.AtQuery? && !stop.AtStatusInsert?)
  }

  predicate LogsEth(db: Db, batch: seq<Sample>, stop: Stop) {
    !PollStopped(db, batch, stop).1 || stop.AtPortRow? || stop.AtSampleInsert? || stop.AtOnuRow?
  }

  predicate Keeps(db: Db, batch: seq<Sample>, stop: Stop) {
    !PollStopped(db, batch, stop).1 || stop.AtOnuRow?
  }

  lemma {:induction false} PollEffects(db: Db, batch: seq<Sample>, stop: Stop)
    ensures var next, device := PollStopped(db, batch, stop).0, if batch == [] then "" else batch[0].device;
            && next.statusLog ==
               db.statusLog + (if LogsStatus(db, batch, stop) then StatusBatch(db.onus, device, batch) else [])
            && next.ethLog == db.ethLog + (if LogsEth(db, batch, stop) then EthBatch(db.ports, batch) else [])
            && next.samples == db.samples + if Keeps(db, batch, stop) then PadAll(PadAll(batch)) else []
  {
    hide PollStopped, PollBatch, StatusBatch, EthBatch, PadAll;
    assert db.statusLog + [] == db.statusLog && db.ethLog + [] == db.ethLog && db.samples + [] == db.samples;
    if PollStopped(db, batch, stop).1 {
      FailedEffects(db, batch, stop);
    } else {
      UnfailedIsWhole(db, batch, stop);
      LogsOfPoll(db, batch);
      PollSamples(db, batch);
    }
  }

  lemma {:induction false} FailedEffects(db: Db, batch: seq<Sample>, stop: Stop)
    requires PollStopped(db, batch, stop).1
    ensures batch != [] && !stop.Never?
    ensures var next, changes := PollStopped(db, batch, stop).0, StatusBatch(db.onus, batch[0].device, batch);
            && next.statusLog == (if stop.AtQuery? || stop.AtStatusInsert? then db.statusLog
                                  else db.statusLog + changes)
            && next.ethLog == (if stop.AtPortRow? || stop.AtSampleInsert? || stop.AtOnuRow? then
                                 db.ethLog + EthBatch(db.ports, batch) else db.ethLog)
            && next.samples == if stop.AtOnuRow? then db.samples + PadAll(PadAll(batch)) else db.samples
  {
    hide StatusBatch, EthBatch, PadAll, UpsertEthState, UpsertOnus, PortWrites, Readable, PutAll;
    match stop
    case AtPortRow(n) =>
    case _ =>
  }

  /** The batches that were polled, and those whose samples were stored. */
  function Batches(run: seq<(seq<Sample>, Stop)>): (r: seq<seq<Sample>>)
    ensures |r| == |run| && forall i :: 0 <= i < |r| ==> r[i] == run[i].0
  {
    if run == [] then [] else Batches(run[..|run| - 1]) + [run[|run| - 1].0]
  }

  function KeptBatches(run: seq<(seq<Sample>, Stop)>): seq<seq<Sample>> {
    if run == [] then []
    else
      var (batch, stop) := run[|run| - 1];
      KeptBatches(run[..|run| - 1]) + if Keeps(PollRun(run[..|run| - 1]), batch, stop) then [batch] else []
  }

  /** One ONU's sample of one poll, with what the store held of the ONU and what became of the sample. */
  function StepOf(db: Db, batch: seq<Sample>, stop: Stop, x: Sample): Seen {
    Seen(x, RowAt(db.onus, x.device, x.serial), DbPortsOf(db.ports, x.device, x.serial),
         LogsStatus(db, batch, stop), LogsEth(db, batch, stop), Keeps(db, batch, stop))
  }

  function Steps(run: seq<(seq<Sample>, Stop)>, device: string, serial: string): seq<Seen> {
    if run == [] then []
    else
      var front, (batch, stop) := run[..|run| - 1], run[|run| - 1];
      var mine := Mine(batch, device, serial);
      Steps(front, device, serial) + if mine == [] then [] else [StepOf(PollRun(front), batch, stop, mine[0])]
  }

  /** Of a poll, an ONU has the events of its one sample. */
  lemma {:induction false} BatchMine(db: Db, batch: seq<Sample>, target: string, device: string, serial: string)
    requires serial != "" && Polled(batch) && (batch != [] ==> batch[0].device == target)
    ensures var mine := Mine(batch, device, serial);
            && |mine| <= 1 && (mine != [] ==> Is(mine[0], device, serial))
            && ((forall s :: s in batch ==> s.serial != serial) ==> mine == [])
            && StatusOf(StatusBatch(db.onus, target, batch), device, serial) ==
               (if mine == [] then []
                else StatusEventsFrom(RowAt(db.onus, device, serial), Padded(mine[0]), "poller"))
            && EthOf(EthBatch(db.ports, batch), device, serial) ==
               if mine == [] then []
               else EthEventsOf(DbPortsOf(db.ports, device, serial), Padded(mine[0]), Padded(mine[0]).ethPorts,
                                "poller")
  {
    hide Padded, StatusEventsFrom, EthEventsOf, RowAt, DbPortsOf;
    if batch != [] {
      var front, raw := batch[..|batch| - 1], batch[|batch| - 1];
      var s := Padded(raw);
      PaddedIdempotent(raw);
      BatchMine(db, front, target, device, serial);
      var row, prev := RowAt(db.onus, target, s.serial), EthPrev(db.ports, s.device, s.serial);
      StatusOfAppend(StatusBatch(db.onus, target, front), StatusEventsFrom(row, s, "poller"), device, serial);
      StatusEventsOwner(row, s, "poller", device, serial);
      EthOfAppend(EthBatch(db.ports, front), EthEventsOf(prev, s, s.ethPorts, "poller"), device, serial);
      EthEventsOwner(prev, s, s.ethPorts, "poller", device, serial);
      if raw.serial == serial {
        assert forall t :: t in front ==> t.serial != serial;
      }
    }
  }

  /** What the run has logged of an ONU is what its steps logged. */
  lemma {:induction false} StepsLog(run: seq<(seq<Sample>, Stop)>, device: string, serial: string)
    requires serial != "" && forall i :: 0 <= i < |run| ==> Polled(run[i].0)
    ensures StatusOf(PollRun(run).statusLog, device, serial) == StatusLogged(Steps(run, device, serial))
    ensures EthOf(PollRun(run).ethLog, device, serial) == EthLogged(Steps(run, device, serial))
  {
    hide PollStopped, StatusBatch, EthBatch, Polled, StatusEventsFrom, EthEventsOf, Padded, LogsStatus, LogsEth, Keeps,
      RowAt, DbPortsOf, Mine;
    if run != [] {
      var front, batch, stop := run[..|run| - 1], run[|run| - 1].0, run[|run| - 1].1;
      var db := PollRun(front);
      StepsLog(front, device, serial);
      var target := if batch == [] then "" else batch[0].device;
      PollEffects(db, batch, stop);
      BatchMine(db, batch, target, device, serial);
      var status := if LogsStatus(db, batch, stop) then StatusBatch(db.onus, target, batch) else [];
      var eth := if LogsEth(db, batch, stop) then EthBatch(db.ports, batch) else [];
      StatusOfAppend(db.statusLog, status, device, serial);
      EthOfAppend(db.ethLog, eth, device, serial);
      AddedSteps(Steps(front, device, serial), Mine(batch, device, serial), db, batch, stop);
    }
  }

  lemma {:induction false} AddedSteps(before: seq<Seen>, mine: seq<Sample>, db: Db, batch: seq<Sample>, stop: Stop)
    ensures var all := before + if mine == [] then [] else [StepOf(db, batch, stop, mine[0])];
            && StatusLogged(all) ==
               StatusLogged(before) + (if mine == [] then [] else StatusAdded(StepOf(db, batch, stop, mine[0])))
            && EthLogged(all) ==
               EthLogged(before) + (if mine == [] then [] else EthAdded(StepOf(db, batch, stop, mine[0])))
            && Samples(all) == Samples(before) + (if mine == [] then [] else [mine[0]])
            && KeptOf(all) ==
               KeptOf(before) + if mine != [] && Keeps(db, batch, stop) then [mine[0]] else []
  {
    hide StatusAdded, EthAdded, Keeps;
    if mine == [] {
      assert before + [] == before;
    } else {
      assert (before + [StepOf(db, batch, stop, mine[0])])[..|before|] == before;
    }
  }

  lemma {:induction false} FlattenMore(batches: seq<seq<Sample>>, batch: seq<Sample>, device: string, serial: string)
    ensures Flatten(batches + [batch]) == Flatten(batches) + batch
    ensures Mine(Flatten(batches) + batch, device, serial) ==
            Mine(Flatten(batches), device, serial) + Mine(batch, device, serial)
  {
    assert (batches + [batch])[..|batches|] == batches;
    MineConcat(Flatten(batches), batch, device, serial);
  }

  /** The steps are the ONU's samples of all polls, and the kept ones those the store holds. */
  lemma {:induction false} StepsSamples(run: seq<(seq<Sample>, Stop)>, device: string, serial: string)
    requires serial != "" && forall i :: 0 <= i < |run| ==> Polled(run[i].0)
    ensures Samples(Steps(run, device, serial)) == Mine(Flatten(Batches(run)), device, serial)
    ensures KeptOf(Steps(run, device, serial)) == Mine(Flatten(KeptBatches(run)), device, serial)
  {
    hide PollStopped, Polled, Keeps, Mine, Flatten, PollRun, StepOf, Samples, KeptOf, Steps;
    if run == [] {
      NothingFlat(device, serial);
      NoSteps(device, serial);
    } else {
      var front, batch, stop := run[..|run| - 1], run[|run| - 1].0, run[|run| - 1].1;
      StepsSamples(front, device, serial);
      OneMorePolled(run, device, serial);
      FlattenMore(Batches(front), batch, device, serial);
      FlattenMore(KeptBatches(front), batch, device, serial);
      assert !Keeps(PollRun(front), batch, stop) ==> KeptBatches(front) + [] == KeptBatches(front);
    }
  }

  lemma {:induction false} OneMorePolled(run: seq<(seq<Sample>, Stop)>, device: string, serial: string)
    requires run != [] && serial != "" && Polled(run[|run| - 1].0)
    ensures var front, (batch, stop) := run[..|run| - 1], run[|run| - 1];
            var before, mine := Steps(front, device, serial), Mine(batch, device, serial);
            && Samples(Steps(run, device, serial)) == Samples(before) + mine
            && KeptOf(Steps(run, device, serial)) ==
               if Keeps(PollRun(front), batch, stop) then KeptOf(before) + mine else KeptOf(before)
  {
    hide PollStopped, Polled, Keeps, Mine, PollRun, StepOf, Samples, KeptOf;
    var front, batch, stop := run[..|run| - 1], run[|run| - 1].0, run[|run| - 1].1;
    var db, mine := PollRun(front), Mine(batch, device, serial);
    BatchMine(db, batch, if batch == [] then "" else batch[0].device, device, serial);
    AddedSteps(Steps(front, device, serial), mine, db, batch, stop);
    assert mine == if mine == [] then [] else [mine[0]];
    var kept := KeptOf(Steps(front, device, serial));
    assert kept + [] == kept;
  }

  lemma {:induction false} NoSteps(device: string, serial: string)
    ensures Steps([], device, serial) == []
  {
  }

  lemma {:induction false} KeptAreStored(run: seq<(seq<Sample>, Stop)>)
    requires forall i :: 0 <= i < |run| ==> Polled(run[i].0)
    ensures StoredAs(Flatten(KeptBatches(run)), PollRun(run).samples)
    ensures forall i :: 0 <= i < |KeptBatches(run)| ==> Polled(KeptBatches(run)[i])
  {
    hide PollStopped, Polled, Keeps, StoredAs, Flatten;
    if run == [] {
      NothingStored();
      NothingFlat("", "");
    } else {
      var front, batch, stop := run[..|run| - 1], run[|run| - 1].0, run[|run| - 1].1;
      KeptAreStored(front);
      PollEffects(PollRun(front), batch, stop);
      if Keeps(PollRun(front), batch, stop) {
        FlattenMore(KeptBatches(front), batch, "", "");
        StoredPoll(Flatten(KeptBatches(front)), PollRun(front).samples, batch);
      } else {
        assert KeptBatches(front) + [] == KeptBatches(front);
        assert PollRun(front).samples + [] == PollRun(front).samples;
      }
    }
  }

  lemma {:induction false} NothingFlat(device: string, serial: string)
    ensures Flatten([]) == [] && Mine([], device, serial) == [] && Samples([]) == [] && KeptOf([]) == []
  {
  }

  lemma {:induction false} KeptIncreasing(steps: seq<Seen>)
    requires StrictTimes(Samples(steps))
    ensures StrictTimes(KeptOf(steps))
    ensures forall s :: s in KeptOf(steps) ==> s in Samples(steps)
  {
    if steps != [] {
      var front, step := steps[..|steps| - 1], steps[|steps| - 1];
      StepsEarlier(steps);
      KeptIncreasing(front);
      assert forall s :: s in Samples(front) ==> s.time < step.x.time;
      assert Samples(steps)[|steps| - 1] == step.x;
    }
  }

  /** Main result: whatever statements of whatever polls failed, between two rows of one poll included, the backfill
      gives back the status events the store logged for an ONU exactly when every one of its polled samples fits: none
      that was logged and not stored was a change, and none that was stored met a row that told another change than the
      last stored sample. The same for its Ethernet events, port by port. */
  lemma {:induction false} AnyRunReplaysIff(run: seq<(seq<Sample>, Stop)>, rows: seq<Sample>, device: string,
                                            serial: string)
    requires forall i :: 0 <= i < |run| ==> Polled(run[i].0)
    requires QueryRows(PollRun(run).samples, rows)
    requires ValidDevice(device) && serial != "" && StrictTimes(Mine(Flatten(Batches(run)), device, serial))
    ensures StatusOf(ReplayAll(rows).statusLog, device, serial) ==
            RetagStatus(StatusOf(PollRun(run).statusLog, device, serial), "backfill") <==>
            StatusExplained(Steps(run, device, serial))
    ensures EthOf(ReplayAll(rows).ethLog, device, serial) ==
            RetagEth(EthOf(PollRun(run).ethLog, device, serial), "backfill") <==>
            EthExplained(Steps(run, device, serial))
  {
    hide ReplayAll, RecordAll, RetagStatus, RetagEth, StatusOf, EthOf, PollRun, Polled, Steps, QueryRows, Flatten,
      KeptBatches, Batches, StatusExplained, EthExplained, ObserveAll, StatusLogged, EthLogged, KeptOf;
    var steps, kept := Steps(run, device, serial), Flatten(KeptBatches(run));
    StepsLog(run, device, serial);
    StepsSamples(run, device, serial);
    KeptAreStored(run);
    KeptIncreasing(steps);
    PolledDevices(KeptBatches(run));
    BackfillEqualsLive(kept, PollRun(run).samples, rows, device, serial);
    LiveOnu(kept, device, serial);
    var now := LastTime(steps);
    StepsExplainedIff(steps, now);
    var o := ObserveAll(KeptOf(steps), "poller");
    SameStatusRetagged(StatusLogged(steps), o.statusLog, "poller", "backfill");
    SameEthRetagged(EthLogged(steps), o.ethLog, "poller", "backfill");
  }

  /** A time no sample is later than. */
  lemma {:induction false} LastTime(steps: seq<Seen>) returns (now: int)
    requires StrictTimes(Samples(steps))
    ensures forall i :: 0 <= i < |steps| ==> steps[i].x.time <= now
  {
    now := if steps == [] then 0 else steps[|steps| - 1].x.time;
    forall i | 0 <= i < |steps| ensures steps[i].x.time <= now {
      assert Samples(steps)[i] == steps[i].x;
      assert i < |steps| - 1 ==> Samples(steps)[i].time < Samples(steps)[|steps| - 1].time;
    }
  }

  /** A first poll that fails before the ONU's row is written, after its sample was stored, and a second one that sees
      the same status: the second logs the change again, the replay has it once. */
  lemma {:induction false} UnwrittenRowLogsTwice(s: Sample, t: Sample)
    requires !Blank(s.serial) && t == s.(time := t.time) && s.time < t.time
    ensures !StatusExplained(Steps([([s], AtOnuRow(0)), ([t], Never)], s.device, s.serial))
  {
    hide Padded, Blank, StatusEventsFrom, EthEventsOf, PortsAfter, PollStopped, Keeps, LogsStatus, LogsEth, ObserveAll,
      StatusFits, Mine;
    var run := [([s], AtOnuRow(0)), ([t], Never)];
    var first := run[..1];
    assert first == [([s], AtOnuRow(0))] && first[..0] == [];
    RowUnwritten(s);
    OnlySample(s);
    OnlySample(t);
    assert PollRun(first) == PollStopped(EMPTY_DB, [s], AtOnuRow(0)).0;
    var step := StepOf(PollRun(first), [t], Never, t);
    var one := [StepOf(EMPTY_DB, [s], AtOnuRow(0), s)];
    assert Steps(first, s.device, s.serial) == Steps([], s.device, s.serial) + one == one;
    assert Steps(run, s.device, s.serial) == one + [step];
    assert (one + [step])[..1] == one && one[..0] == [];
    assert KeptOf(one) == KeptOf([]) + [s] == [s];
    NeverFails(PollRun(first), [t]);
    SeenAgain(s, t, step);
  }

  lemma {:induction false} RowUnwritten(s: Sample)
    requires !Blank(s.serial)
    ensures PollStopped(EMPTY_DB, [s], AtOnuRow(0)).0.onus == map[] && Keeps(EMPTY_DB, [s], AtOnuRow(0))
  {
    hide Padded, StatusBatch, EthBatch, UpsertEthState, PortWrites, PutAll, Blank;
    PaddedIdempotent(s);
    assert [s][..0] == [];
    assert PadAll([s]) == [Padded(s)];
    assert [Padded(s)][..0] == [];
    assert Readable([Padded(s)]) == [Padded(s)];
  }

  lemma {:induction false} NeverFails(db: Db, batch: seq<Sample>)
    ensures LogsStatus(db, batch, Never) && Keeps(db, batch, Never)
  {
    hide PollBatch, StatusBatch, EthBatch, RecordBatch;
  }

  lemma {:induction false} OnlySample(s: Sample)
    ensures Mine([s], s.device, s.serial) == [s]
  {
    assert [s][..0] == [];
    assert Mine([s], s.device, s.serial) == Mine([s][..0], s.device, s.serial) + [s];
  }

  lemma {:induction false} SeenAgain(s: Sample, t: Sample, step: Seen)
    requires !Blank(s.serial) && t == s.(time := t.time) && step.x == t && step.row == NO_ONU && step.statusLogged
    ensures !StatusFits(step, ObserveAll([s], "poller").state)
  {
    hide Blank, Padded;
    assert [s][..0] == [];
    PaddedIdempotent(s);
    PaddedIdempotent(t);
    NamedSerial(s.serial);
    SameFold(s.status);
    assert ObserveAll([s], "poller").state == OnuAfter(NO_ONU, Padded(s));
  }
}
