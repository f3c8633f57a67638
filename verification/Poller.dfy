/** The poller: one OLT after the other, one run in the store for each pass over an OLT. */
module Poller {
  import opened Text
  import opened Events
  import opened Transitions
  import opened Runs
  import opened Ordering
  import opened Pacing
  import opened Polling
  import opened MemoryStore
  import Discovery
  import Unauth

  /** Everything a pass depends on besides the store. Answers are looked up by the clock at the call; the
      clock never shows the same time twice, so nothing is said about two calls answering alike. */
  datatype World = World(
    /** The inventory of a (device, board, PON) at a time, None when the collection fails. */
    collect: (string, int, int, int) -> Option<seq<InventoryRow>>,
    /** How the three writes of a PON's samples end; each is done as a whole or not at all. */
    write: int -> Write,
    runRowFails: int -> bool,
    deviceRowFails: int -> bool,
    /** The discovery of a device at a time, None when it returns an error. */
    discover: (string, int) -> Option<Discovery.Found>,
    /** Whether listing the known states, storing the unconfigured list, or the final write of a run row fails. */
    statesFail: int -> bool,
    unauthFails: int -> bool,
    closeFails: int -> bool,
    targets: int -> seq<Target>,
    /** By how much more than one tick the clock has moved on at its next reading. */
    lag: int -> nat,
    /** When the context is cancelled. */
    cancelledAt: int)

  /** The store as it was when a pass began. */
  datatype Before = Before(view: Mem, runs: seq<Run>, samples: seq<Sample>, nextRun: int,
                           unauth: map<string, Unauth.UnauthList>)

  /** A visit as the world made it happen. */
  ghost predicate Happened(world: World, device: string, v: Visit) {
    match world.collect(device, v.board, v.pon, v.at)
    case None => v.outcome == CollectFailed && v.samples == []
    case Some(rows) =>
      && v.samples == SamplesOf(v.at, device, rows) && AllTaken(v.samples, rows, v.at, device)
      && v.outcome == Collected(world.write(v.at))
  }

  /** The counters of a run say what its visits were. */
  predicate Counts(run: Run, visits: seq<Visit>) {
    && run.ponsOK == Successes(visits)
    && run.ponsOK + run.ponsError == |visits|
    && run.onusSampled == Sampled(visits)
  }

  /** Each visit leaves one unit fewer to do. */
  predicate CountedDown(visits: seq<Visit>, total: int) {
    forall i :: 0 <= i < |visits| ==> visits[i].left == total - (i + 1)
  }

  /** A pass over one target: the visits are the first units in order, each with the units still to do
      counted down behind it, and all of them when the pass is complete. */
  ghost predicate Passed(target: Target, visits: seq<Visit>, complete: bool) {
    exists slots :: Sorted(target.boards, slots)
      && UnitsOf(visits) <= Units(slots, target.pons)
      && (complete ==> UnitsOf(visits) == Units(slots, target.pons))
      && (NonNegativeCounts(target.pons) ==>
            CountedDown(visits, |Units(slots, target.pons)| + if target.discovers then 1 else 0))
  }

  ghost predicate AllHappened(world: World, device: string, visits: seq<Visit>) {
    forall i :: 0 <= i < |visits| ==> Happened(world, device, visits[i])
  }

  function Entry(device: string, found: Discovery.Found, onu: Discovery.FoundOnu): Unauth.UnauthOnu {
    Unauth.UnauthOnu(device, onu.serial, onu.board, onu.pon, onu.onuType, found.status, found.observedAt,
                     found.observedAt, None)
  }

  /** The found ONUs whose serial no stored state has, in the order found. */
  function Unknown(device: string, found: Discovery.Found, onus: seq<Discovery.FoundOnu>,
                   known: set<string>): seq<Unauth.UnauthOnu> {
    if onus == [] then []
    else
      var rest, onu := Unknown(device, found, onus[..|onus| - 1], known), onus[|onus| - 1];
      if onu.serial in known then rest else rest + [Entry(device, found, onu)]
  }

  /** What a pass stores as unconfigured: nothing found when the discovery returns an error, and otherwise
      the found ONUs that are not known. */
  function Unconfigured(device: string, answer: Option<Discovery.Found>, known: set<string>,
                        now: int): Unauth.UnauthList {
    match answer
    case None => Unauth.UnauthList("unavailable", "", "discovery failed", now, 0, [])
    case Some(found) =>
      var onus := Unknown(device, found, found.onus, known);
      Unauth.UnauthList(found.status, found.oid, found.message, found.observedAt, |onus|, onus)
  }

  /** The shape every discovery has (Discovery.DiscoverUnconfiguredONUs). */
  predicate Discovered(found: Discovery.Found) {
    && (found.status == "ok" || found.status == "unsupported" || found.status == "unavailable")
    && (found.status != "ok" ==> found.onus == [])
    && (forall i, j :: 0 <= i < j < |found.onus| ==> found.onus[i].serial != found.onus[j].serial)
  }

  /** Device ids are free of the key separator (config/olts.go:71), and discoveries have their shape. */
  ghost predicate Sane(world: World) {
    && (forall t, i :: 0 <= i < |world.targets(t)| ==> ValidDevice(world.targets(t)[i].id))
    && (forall device, t :: world.discover(device, t).Some? ==> Discovered(world.discover(device, t).value))
  }

  ghost function KnownSerials(states: map<string, OnuState>, device: string): set<string> {
    set k | k in states && (device == "" || states[k].device == device) && states[k].serial != "" :: states[k].serial
  }

  /** What a discovery at one time leaves as the stored lists: nothing is known when the states cannot be listed, and
      nothing changes when the list cannot be stored. */
  ghost function Discovering(world: World, device: string, states: map<string, OnuState>,
                             was: map<string, Unauth.UnauthList>, at: int,
                             observed: int): map<string, Unauth.UnauthList>
  {
    if world.unauthFails(at) then was
    else
      var known := if world.statesFail(at) then {} else KnownSerials(states, device);
      Unauth.MemReplace(was, device, Unconfigured(device, world.discover(device, at), known, observed))
  }

  /** The stored lists are what a discovery made in this stretch of time leaves. */
  ghost predicate Updated(world: World, device: string, states: map<string, OnuState>,
                          was: map<string, Unauth.UnauthList>, now: map<string, Unauth.UnauthList>, since: int,
                          until: int)
  {
    exists at, observed :: since < at <= observed <= until
      && now == Discovering(world, device, states, was, at, observed)
  }

  /** One pass: its target, its visits, and what it left in the store, None when the run row was refused. */
  datatype Pass = Pass(target: Target, visits: seq<Visit>, record: Option<Record>)

  ghost predicate GoodPass(world: World, p: Pass) {
    match p.record
    case None => p.visits == []
    case Some(r) =>
      && r.run.device == p.target.id && Counts(r.run, p.visits) && r.inserted == Kept(p.visits)
      && r.run.finishedAt.Some? && r.closed == !world.closeFails(r.run.finishedAt.value)
      && Passed(p.target, p.visits, r.run.status != "error") && AllHappened(world, p.target.id, p.visits)
      && (r.run.status != "error" ==> r.run.status == if r.run.ponsError > 0 then "partial" else "ok")
      && (r.run.status == "error" ==> world.deviceRowFails(r.run.id) || world.cancelledAt <= r.run.finishedAt.value)
  }

  function PassRecords(p: Pass): seq<Record> {
    if p.record.None? then [] else [p.record.value]
  }

  function Records(passes: seq<Pass>): seq<Record> {
    if passes == [] then [] else Records(passes[..|passes| - 1]) + PassRecords(passes[|passes| - 1])
  }

  function AllVisits(passes: seq<Pass>): seq<Visit> {
    if passes == [] then [] else AllVisits(passes[..|passes| - 1]) + passes[|passes| - 1].visits
  }

  /** Good passes over the first targets, in order. */
  ghost predicate PassesOf(world: World, targets: seq<Target>, passes: seq<Pass>) {
    |passes| <= |targets| && forall i :: 0 <= i < |passes| ==>
      passes[i].target == targets[i] && GoodPass(world, passes[i])
  }

  /** One cycle: when it started, when it was over, and its passes. */
  datatype Cycle = Cycle(started: int, ended: int, passes: seq<Pass>)

  /** The passes are over the targets registered at the start, all of them unless the context was cancelled. */
  ghost predicate WholeCycle(world: World, c: Cycle) {
    && PassesOf(world, world.targets(c.started), c.passes)
    && (c.ended < world.cancelledAt ==> |c.passes| == |world.targets(c.started)|)
  }

  ghost predicate GoodCycles(world: World, cycles: seq<Cycle>, interval: int, since: int) {
    && Apart(cycles, interval)
    && (cycles != [] ==> cycles[0].started >= since)
    && forall i :: 0 <= i < |cycles| ==> WholeCycle(world, cycles[i])
  }

  /** The last cycle is over and its interval has passed. */
  predicate Waited(cycles: seq<Cycle>, interval: int, now: int) {
    cycles == [] || (now >= cycles[|cycles| - 1].ended && now >= cycles[|cycles| - 1].started + interval)
  }

  lemma {:induction false} NoCycles(world: World, interval: int, since: int, history: seq<Record>)
    ensures GoodCycles(world, [], interval, since) && history + CycleRecords([]) == history
  {
  }

  lemma {:induction false} NothingToWaitFor(interval: int, now: int)
    ensures Waited([], interval, now)
  {
  }

  lemma {:induction false} OneMoreGoodCycle(world: World, cycles: seq<Cycle>, c: Cycle, interval: int, since: int,
                                            now: int)
    requires GoodCycles(world, cycles, interval, since) && Waited(cycles, interval, now) && since <= now < c.started
             && WholeCycle(world, c)
    ensures GoodCycles(world, cycles + [c], interval, since)
  {
    hide WholeCycle;
  }

  lemma {:induction false} NowWaited(cycles: seq<Cycle>, c: Cycle, interval: int, now: int)
    requires c.ended <= now && now >= c.started + interval
    ensures Waited(cycles + [c], interval, now)
  {
  }

  function CycleRecords(cycles: seq<Cycle>): seq<Record> {
    if cycles == [] then [] else CycleRecords(cycles[..|cycles| - 1]) + Records(cycles[|cycles| - 1].passes)
  }

  lemma {:induction false} NoPasses(history: seq<Record>, past: seq<Visit>)
    ensures history + Records([]) == history && past + AllVisits([]) == past
  {
  }

  lemma {:induction false} OneMorePass(history: seq<Record>, past: seq<Visit>, passes: seq<Pass>, p: Pass)
    ensures history + Records(passes + [p]) == history + Records(passes) + PassRecords(p)
    ensures past + AllVisits(passes + [p]) == past + AllVisits(passes) + p.visits
  {
    assert (passes + [p])[..|passes|] == passes;
  }

  lemma {:induction false} OneMoreCycle(history: seq<Record>, cycles: seq<Cycle>, c: Cycle)
    ensures history + CycleRecords(cycles + [c]) == history + CycleRecords(cycles) + Records(c.passes)
  {
    assert (cycles + [c])[..|cycles|] == cycles;
  }

  /** Cycles never overlap and start at least one interval apart. */
  ghost predicate Apart(cycles: seq<Cycle>, interval: int) {
    forall i :: 0 <= i < |cycles| - 1 ==>
      cycles[i + 1].started > cycles[i].ended && cycles[i + 1].started >= cycles[i].started + interval
  }

  class Poller {
    const store: Memory
    const world: World
    const settings: Settings
    const delay: int
    var clock: int
    ghost var history: seq<Record>
    ghost var past: seq<Visit>
    ghost var cycles: seq<Cycle>

    constructor (store: Memory, world: World, settings: Settings, delay: int)
      requires store.Valid() && store.View() == EMPTY && store.runs == [] && store.samples == [] && store.nextRun == 0
               && Sane(world)
      ensures Valid() && this.store == store && history == [] && past == [] && cycles == []
    {
      this.store, this.world, this.settings, this.delay := store, world, settings, delay;
      clock := 0;
      history, past, cycles := [], [], [];
    }

    /** The store holds finished runs only, made one after the other and all over by now, and what its logs and
        samples tell is what the visits of all passes so far came to. */
    ghost predicate Valid()
      reads this, store
    {
      && store.Valid() && Sane(world)
      && Recorded(history, store.runs, store.samples, store.nextRun, clock)
      && Told(past, store.View(), store.samples, clock)
    }

    predicate Cancelled()
      reads this`clock
    {
      clock >= world.cancelledAt
    }

    // ----- time -----

    method Now() returns (t: int)
      modifies this`clock
      ensures t == clock == old(clock) + 1 + world.lag(old(clock))
    {
      clock := clock + 1 + world.lag(clock);
      t := clock;
    }

    /** False when the context was cancelled first. A timer may fire late. */
    method SleepCtx(d: int) returns (ok: bool)
      modifies this`clock
      ensures clock >= old(clock)
      ensures d <= 0 ==> clock == old(clock)
      ensures ok <==> old(clock) + Max(d, 0) < world.cancelledAt
      ensures ok ==> clock == old(clock) + Max(d, 0) + if d > 0 then world.lag(old(clock)) else 0
      ensures !ok ==> Cancelled()
    {
      if d <= 0 {
        return clock < world.cancelledAt;
      }
      if clock + d < world.cancelledAt {
        clock := clock + d + world.lag(clock);
        return true;
      }
      clock := Max(clock, world.cancelledAt);
      return false;
    }

    /** The clock has moved on by exactly the pause computed for a reading of it, and what the timer was late. */
    ghost predicate Paused(read: int, started: int, left: int)
      reads this`clock
    {
      var wait := Wait(settings, read - started, left);
      clock == read + wait + if wait > 0 then world.lag(read) else 0
    }

    /** The clock as it is read for the computation of a pause. */
    ghost predicate ReadAt(read: int, before: int, left: int) {
      read == if settings.spread && left > 0 && settings.interval > 0 then before + 1 + world.lag(before) else before
    }

    /** The pause is the one the schedule of Pacing uses, for the time at which the clock was read. */
    method Pace(started: int, left: int) returns (ok: bool)
      modifies this`clock
      ensures clock >= old(clock)
      ensures ok ==> exists read :: ReadAt(read, old(clock), left) && Paused(read, started, left)
      ensures !ok ==> Cancelled()
    {
      var wait := settings.gap;
      if wait < 0 {
        wait := 0;
      }
      ghost var read := clock;
      if settings.spread && left > 0 && settings.interval > 0 {
        var now := Now();
        read := now;
        var remaining := settings.interval - (now - started);
        if remaining > 0 {
          var slot := remaining / left;
          if slot > wait {
            wait := slot;
          }
        }
      }
      assert wait == Wait(settings, read - started, left);
      ok := SleepCtx(wait);
      WaitNotNegative(settings, read - started, left);
      assert ReadAt(read, old(clock), left);
      assert ok ==> Paused(read, started, left);
    }

    // ----- one PON -----

    method PollPON(target: Target, board: int, pon: int, ghost left: int)
      returns (sampled: int, ok: bool, ghost visit: Visit)
      requires store.Valid() && ValidDevice(target.id)
      modifies this`clock, store
      ensures store.Valid() && store.runs == old(store.runs) && store.nextRun == old(store.nextRun)
              && store.unauth == old(store.unauth)
      ensures visit.board == board && visit.pon == pon && visit.left == left && Happened(world, target.id, visit)
      ensures old(clock) < visit.at <= clock && ValidDevices(visit.samples)
      ensures ok == visit.outcome.Stored() && sampled == if ok then |visit.samples| else 0
      ensures store.samples == old(store.samples) + if visit.outcome.Kept() then visit.samples else []
      ensures store.View() == RecordAll(old(store.View()), if visit.outcome.Logged() then visit.samples else [])
    {
      hide RecordAll, Keyed, SampleOf, TakenFrom, RowFollows, PortFollows, StatusFrom, EthFrom;
      NothingRecorded(store.View());
      var observedAt := Now();
      match world.collect(target.id, board, pon, observedAt)
      case None =>
        visit := Visit(board, pon, observedAt, [], CollectFailed, left);
        return 0, false, visit;
      case Some(rows) =>
        var samples: seq<Sample> := [];
        for i := 0 to |rows|
          invariant unchanged(store) && clock == observedAt
          invariant samples == SamplesOf(observedAt, target.id, rows)[..i]
          invariant forall k :: 0 <= k < i ==> TakenFrom(samples[k], rows[k], observedAt, target.id)
        {
          var sample := SampleFromInventory(observedAt, target.id, rows[i]);
          samples := samples + [sample];
        }
        SamplesOwned(observedAt, target.id, rows);
        visit := Visit(board, pon, observedAt, samples, Collected(world.write(observedAt)), left);
        if world.write(observedAt).TransitionsRefused? {
          return 0, false, visit;
        }
        store.RecordSampleTransitions(samples);
        if world.write(observedAt).InsertRefused? {
          return 0, false, visit;
        }
        store.InsertSamples(samples);
        if world.write(observedAt).UpsertRefused? {
          return 0, false, visit;
        }
        return |samples|, true, visit;
    }

    // ----- one pass over a target -----

    /** A pass under way: its row in the store is still the initial one, the counters are those of the visits
        so far, and the store holds what these added. */
    ghost predicate InRun(before: Before, run: Run, visits: seq<Visit>)
      reads this, store
    {
      && store.Valid() && Sane(world)
      && Keyed(before.view.ports) && ValidDevices(Logged(visits))
      && store.View() == RecordAll(before.view, Logged(visits))
      && store.samples == before.samples + Kept(visits)
      && run.id == before.nextRun + 1 == store.nextRun
      && store.runs == before.runs + [Opened(run)]
      && Counts(run, visits)
      && Inside(run, Kept(visits), clock)
      && Timely(visits, run.startedAt, clock)
    }

    /** One PON and its counters. */
    method VisitPON(target: Target, ghost before: Before, was: Run, ghost visits: seq<Visit>, board: int, pon: int,
                    left: int)
      returns (run: Run, ghost visit: Visit)
      requires InRun(before, was, visits) && ValidDevice(target.id) && was.device == target.id
      modifies this`clock, store
      ensures InRun(before, run, visits + [visit])
              && run == was.(ponsOK := run.ponsOK, ponsError := run.ponsError, onusSampled := run.onusSampled)
      ensures visit.board == board && visit.pon == pon && visit.left == left - 1 && Happened(world, target.id, visit)
      ensures old(clock) < visit.at <= clock && store.unauth == old(store.unauth)
    {
      hide RecordAll, Happened, Counts, Inside, Timely, ValidDevices, Keyed, Sane, Logged, Kept;
      var sampled, ok;
      run := was;
      sampled, ok, visit := PollPON(target, board, pon, left - 1);
      if !ok {
        run := run.(ponsError := run.ponsError + 1);
      } else {
        run := run.(ponsOK := run.ponsOK + 1, onusSampled := run.onusSampled + sampled);
      }
      OneMoreVisit(visits, visit);
      RecordAllConcat(before.view, Logged(visits), if visit.outcome.Logged() then visit.samples else []);
      VisitSamples(world, target.id, visit);
      OneMoreCounted(was, run, visits, visit);
      OneMoreInside(was, run, Kept(visits), if visit.outcome.Kept() then visit.samples else [], old(clock), clock);
      OneMoreTimely(visits, visit, was.startedAt, old(clock), clock);
    }

    /** Ends the run, whatever stopped it. */
    method Finish(was: Run, started: int, error: Option<string>) returns (run: Run)
      modifies this`clock, store`runs
      ensures clock > old(clock)
      ensures run == was.(finishedAt := Some(clock), durationMS := Some((clock - started) / 1_000_000),
                          status := if error.Some? then "error" else if was.ponsError > 0 then "partial" else "ok",
                          error := if error.Some? then error.value else if was.ponsError > 0 then was.error else "")
      ensures store.runs == if world.closeFails(clock) then old(store.runs) else FinishRun(old(store.runs), run)
    {
      var finished := Now();
      run := was.(finishedAt := Some(finished), durationMS := Some((finished - started) / 1_000_000));
      if error.Some? {
        run := run.(status := "error", error := error.value);
      } else if run.ponsError > 0 {
        run := run.(status := "partial");
      } else {
        run := run.(status := "ok", error := "");
      }
      if !world.closeFails(finished) {
        store.FinishCollectionRun(run);
      }
    }

    /** The finished run joins the history. */
    method Close(ghost before: Before, was: Run, ghost visits: seq<Visit>, ghost since: int, error: Option<string>)
      returns (ghost r: Record)
      requires InRun(before, was, visits)
      requires Recorded(history, before.runs, before.samples, before.nextRun, since) && 0 <= since < was.startedAt
      requires Told(past, before.view, before.samples, since)
      modifies this`clock, this`history, this`past, store`runs
      ensures Valid() && clock > old(clock) && past == old(past) + visits
      ensures history == old(history) + [r] && r.inserted == Kept(visits)
      ensures r.run.finishedAt == Some(clock) && r.closed == !world.closeFails(clock)
      ensures Counts(r.run, visits) && r.run.id == was.id && r.run.device == was.device
              && r.run.status == if error.Some? then "error" else if r.run.ponsError > 0 then "partial" else "ok"
    {
      hide RecordAll, Counts, Recorded, Finished, Told, Timely;
      assert Counts(was, visits);
      var run := Finish(was, was.startedAt, error);
      SameCounts(was, run, visits);
      IdsBelow(history, before.runs, before.samples, before.nextRun, since, run.id);
      FinishLast(before.runs, Opened(was), run);
      r := Record(run, !world.closeFails(clock), Kept(visits));
      FinishedInside(r);
      RecordedExtends(history, before.runs, before.samples, before.nextRun, since, r, clock);
      TellMore(past, before.view, before.samples, since, visits, was.startedAt, old(clock), store.View(), store.samples,
               clock);
      history, past := history + [r], past + visits;
    }

    // ----- unconfigured ONUs -----

    /** The serials of the device's stored states, ranging over the map in no particular order. */
    method ListKnown(device: string) returns (known: set<string>)
      ensures known == KnownSerials(store.onuState, device)
    {
      known := {};
      var states := store.onuState;
      var todo := states.Keys;
      while todo != {}
        invariant todo <= states.Keys
        invariant known == KnownSerials(Visited(states, todo), device)
        decreases todo
      {
        var k :| k in todo;
        var state := states[k];
        KnownOneMore(states, todo, k, device);
        if (device == "" || state.device == device) && state.serial != "" {
          known := known + {state.serial};
        }
        todo := todo - {k};
      }
      assert Visited(states, {}) == states;
    }

    /** An error of the discovery is stored as an unavailable one. */
    method DiscoverUnconfigured(target: Target) returns (ghost at: int, ghost observed: int)
      requires Sane(world)
      modifies this`clock, store`unauth
      ensures clock >= old(clock)
      ensures !target.discovers ==> store.unauth == old(store.unauth)
      ensures target.discovers ==>
                && old(clock) < at <= observed <= clock
                && store.unauth == Discovering(world, target.id, store.onuState, old(store.unauth), at, observed)
      ensures target.discovers && !world.unauthFails(at) && world.discover(target.id, at).Some?
              && world.discover(target.id, at).value.status == "ok" ==>
                && target.id in store.unauth
                && ListsFound(store.unauth[target.id], target.id, world.discover(target.id, at).value,
                              if world.statesFail(at) then {} else KnownSerials(store.onuState, target.id))
    {
      hide Unauth.MemReplace, KnownSerials, ListsFound;
      at, observed := clock, clock;
      if !target.discovers {
        return;
      }
      var asked := Now();
      at, observed := asked, asked;
      match world.discover(target.id, asked)
      case None =>
        var now := Now();
        observed := now;
        if !world.unauthFails(asked) {
          store.ReplaceUnauth(target.id, Unauth.UnauthList("unavailable", "", "discovery failed", now, 0, []));
        }
      case Some(found) =>
        var known: set<string> := {};
        if !world.statesFail(asked) {
          known := ListKnown(target.id);
        }
        var onus := ListUnknown(target.id, found, known);
        if !world.unauthFails(asked) {
          store.ReplaceUnauth(target.id,
                              Unauth.UnauthList(found.status, found.oid, found.message, found.observedAt, |onus|,
                                                onus));
          if found.status == "ok" {
            DiscoveredIsListed(world, target.id, store.onuState, old(store.unauth), asked, asked);
          }
        }
    }

    // ----- a whole pass, a cycle, and the loop -----

    /** The PONs of one board, pausing after each; not done when the context was cancelled. */
    method SweepBoard(target: Target, ghost before: Before, was: Run, ghost sofar: seq<Visit>, slots: seq<int>, i: nat,
                      countdown: int, ghost total: int)
      returns (run: Run, left: int, done: bool, ghost visits: seq<Visit>)
      requires InRun(before, was, sofar) && ValidDevice(target.id) && was.device == target.id && i < |slots|
      requires UnitsOf(sofar) == Units(slots[..i], target.pons) && AllHappened(world, target.id, sofar)
      requires countdown == total - |sofar| && CountedDown(sofar, total)
      requires Spaced(sofar, settings.gap) && Rested(sofar, settings.gap, clock)
      modifies this`clock, store
      ensures InRun(before, run, visits)
              && run == was.(ponsOK := run.ponsOK, ponsError := run.ponsError, onusSampled := run.onusSampled)
      ensures UnitsOf(visits) <= Units(slots, target.pons) && AllHappened(world, target.id, visits)
      ensures left == total - |visits| && CountedDown(visits, total)
      ensures Spaced(visits, settings.gap) && (done ==> Rested(visits, settings.gap, clock))
      ensures if done then UnitsOf(visits) == Units(slots[..i + 1], target.pons) else Cancelled()
      ensures clock >= old(clock) && store.unauth == old(store.unauth)
    {
      hide InRun, Happened, UnitsOf, Units, PonCount, ValidDevice, BoardUnits, Spaced, Rested, Wait;
      run, left, visits := was, countdown, sofar;
      var board, pons := slots[i], PonCount(target.pons, slots[i]);
      var pon := 1;
      BoardStart(sofar, slots, target.pons, i);
      while pon <= pons
        invariant 1 <= pon
        invariant InRun(before, run, visits)
                  && run == was.(ponsOK := run.ponsOK, ponsError := run.ponsError, onusSampled := run.onusSampled)
        invariant Reached(visits, slots, target.pons, i, if pon <= pons then pon - 1 else Max(pons, 0))
        invariant AllHappened(world, target.id, visits) && left == total - |visits| && CountedDown(visits, total)
        invariant Spaced(visits, settings.gap) && Rested(visits, settings.gap, clock)
        invariant clock >= old(clock) && store.unauth == old(store.unauth)
      {
        ReachedPrefix(visits, slots, target.pons, i, pon - 1);
        if Cancelled() {
          return run, left, false, visits;
        }
        ghost var rested := clock;
        ghost var visit;
        run, visit := VisitPON(target, before, run, visits, board, pon, left);
        OneMoreReached(visits, slots, target.pons, i, pon, visit);
        OneMoreSpaced(visits, visit, settings.gap, rested);
        visits := visits + [visit];
        left := left - 1;
        ReachedPrefix(visits, slots, target.pons, i, pon);
        ghost var visited := clock;
        if left > 0 {
          var ok := PaceRun(run.startedAt, left, before, run, visits);
          if !ok {
            return run, left, false, visits;
          }
        }
        NowRested(visits, settings.gap, visited, clock);
        pon := pon + 1;
      }
      ReachedPrefix(visits, slots, target.pons, i, Max(pons, 0));
      BoardEnd(visits, slots, target.pons, i);
      done := true;
    }

    /** All boards in ascending order. */
    method Sweep(target: Target, ghost before: Before, was: Run)
      returns (run: Run, done: bool, ghost visits: seq<Visit>)
      requires InRun(before, was, []) && ValidDevice(target.id) && was.device == target.id
      modifies this`clock, store
      ensures InRun(before, run, visits)
              && run == was.(ponsOK := run.ponsOK, ponsError := run.ponsError, onusSampled := run.onusSampled)
      ensures Passed(target, visits, done) && AllHappened(world, target.id, visits) && Spaced(visits, settings.gap)
      ensures !done ==> Cancelled()
      ensures clock >= old(clock) && store.unauth == old(store.unauth)
    {
      hide InRun, Happened, UnitsOf, Units, PonCount, ValidDevice, StrictWeakOrder, CountPons;
      IntOrder();
      var slots := SortSlice(IntLess, target.boards);
      var left := CountPONs(target);
      if target.discovers {
        left := left + 1;
      }
      ghost var total := left;
      run, done, visits := was, true, [];
      NoUnits(slots, target.pons);
      for i := 0 to |slots|
        invariant InRun(before, run, visits)
                  && run == was.(ponsOK := run.ponsOK, ponsError := run.ponsError, onusSampled := run.onusSampled)
        invariant UnitsOf(visits) == Units(slots[..i], target.pons)
        invariant AllHappened(world, target.id, visits) && left == total - |visits| && CountedDown(visits, total)
        invariant Spaced(visits, settings.gap) && Rested(visits, settings.gap, clock)
        invariant clock >= old(clock) && store.unauth == old(store.unauth)
      {
        run, left, done, visits := SweepBoard(target, before, run, visits, slots, i, left, total);
        if !done {
          PassedBy(target, slots, visits, total, false);
          return;
        }
      }
      assert slots[..|slots|] == slots;
      done := true;
      PassedBy(target, slots, visits, total, true);
    }

    /** Main result: a pass stores nothing, when its run row is refused, or else exactly one finished run whose
        window holds exactly the samples its visits stored. The run's counters are those of its visits; unless
        it was interrupted the visits are all units in order; the transitions recorded are those of the visits;
        and only a complete pass discovers unconfigured ONUs. */
    method PollDevice(target: Target) returns (ghost pass: Pass)
      requires Valid() && ValidDevice(target.id)
      modifies this`clock, this`history, this`past, store
      ensures Valid() && clock > old(clock)
      ensures pass.target == target && GoodPass(world, pass) && Spaced(pass.visits, settings.gap)
      ensures past == old(past) + pass.visits && history == old(history) + PassRecords(pass)
      ensures pass.record.None? ==> unchanged(store) && exists t :: old(clock) < t <= clock && world.runRowFails(t)
      ensures pass.record.Some? ==>
                && (pass.record.value.run.status == "error" ==>
                    Cancelled() || world.deviceRowFails(pass.record.value.run.id))
                && ValidDevices(Logged(pass.visits))
                  && store.View() == RecordAll(old(store.View()), Logged(pass.visits))
                && if pass.record.value.run.status != "error" && target.discovers then
                     Updated(world, target.id, store.onuState, old(store.unauth), store.unauth, old(clock), clock)
                   else store.unauth == old(store.unauth)
    {
      hide Recorded, Told, Timely, RecordAll, Counts, Happened, Kept, Logged, Inside, Updated, Discovering, Sane,
        Passed, ValidDevices, Keyed, FinishRun, KnownSerials;
      ghost var before := Before(store.View(), store.runs, store.samples, store.nextRun, store.unauth);
      ghost var since := clock;
      ClockNotNegative(history, store.runs, store.samples, store.nextRun, clock);
      assert Told(past, before.view, before.samples, since);
      var started := Now();
      var run := Run(0, target.id, started, None, "running", 0, 0, 0, None, "");
      if world.runRowFails(started) {
        LaterValid(history, past, store, since, clock);
        pass := Pass(target, [], None);
        return;
      }
      var id := store.InsertCollectionRun(run);
      run := run.(id := id);
      RunOpened(before.view, run, clock);
      assert InRun(before, run, []);
      if world.deviceRowFails(id) {
        NothingPassed(target);
        ghost var closed := Close(before, run, [], since, Some("device row refused"));
        pass := Pass(target, [], Some(closed));
        return;
      }
      var done;
      ghost var visits;
      run, done, visits := Sweep(target, before, run);
      if !done {
        ghost var closed := Close(before, run, visits, since, Some("context canceled"));
        pass := Pass(target, visits, Some(closed));
        return;
      }
      ghost var swept := clock;
      ghost var at, observed := DiscoverUnconfigured(target);
      InsideLater(run, Kept(visits), swept, clock);
      TimelyLater(visits, run.startedAt, swept, clock);
      if target.discovers {
        UpdatedBy(world, target.id, store.onuState, old(store.unauth), store.unauth, old(clock), clock, at, observed);
      }
      ghost var discovered := clock;
      ghost var closed := Close(before, run, visits, since, None);
      UpdatedLater(world, target.id, store.onuState, old(store.unauth), store.unauth, old(clock), discovered, clock);
      pass := Pass(target, visits, Some(closed));
    }

    /** One pass over each target in turn, stopping short only when the context was cancelled. */
    method PollCycle() returns (ghost passes: seq<Pass>)
      requires Valid()
      modifies this`clock, this`history, this`past, store
      ensures Valid() && clock >= old(clock)
      ensures PassesOf(world, world.targets(old(clock)), passes)
      ensures !Cancelled() ==> |passes| == |world.targets(old(clock))|
      ensures history == old(history) + Records(passes) && past == old(past) + AllVisits(passes)
    {
      hide Recorded, Told, GoodPass, PassRecords;
      var targets := world.targets(clock);
      assert forall i :: 0 <= i < |targets| ==> ValidDevice(targets[i].id);
      passes := [];
      NoPasses(history, past);
      for i := 0 to |targets|
        invariant Valid() && clock >= old(clock)
        invariant |passes| == i && PassesOf(world, targets, passes)
        invariant history == old(history) + Records(passes) && past == old(past) + AllVisits(passes)
      {
        if Cancelled() {
          return;
        }
        ghost var pass := PollDevice(targets[i]);
        OneMorePass(old(history), old(past), passes, pass);
        passes := passes + [pass];
      }
    }

    /** One cycle and the wait for the next. */
    method Turn() returns (ok: bool)
      requires Valid()
      modifies this`clock, this`history, this`past, this`cycles, store
      ensures Valid() && clock > old(clock)
      ensures |cycles| == |old(cycles)| + 1
      ensures var last := cycles[|cycles| - 1];
              && cycles == old(cycles) + [last] && old(clock) < last.started && last.ended <= clock
              && WholeCycle(world, last) && history == old(history) + Records(last.passes)
              && (ok ==> clock >= last.started + settings.interval)
      ensures !ok ==> Cancelled()
    {
      hide Recorded, Told, PassesOf, Records, AllVisits;
      ghost var before := clock;
      var started := Now();
      LaterValid(history, past, store, before, clock);
      ghost var passes := PollCycle();
      cycles := cycles + [Cycle(started, clock, passes)];
      before := clock;
      var now := Now();
      ok := SleepCtx(settings.interval - (now - started));
      LaterValid(history, past, store, before, clock);
    }

    /** Main result: until the context is cancelled, cycle follows cycle; none starts before the last one is over
        or less than an interval after it started; each polls all targets unless cancelled on the way; and the
        store always holds finished, sequential runs, one for each pass whose run row was stored. */
    method Loop()
      requires Valid() && cycles == []
      modifies this`clock, this`history, this`past, this`cycles, store
      ensures Valid() && Cancelled()
      ensures GoodCycles(world, cycles, settings.interval, old(clock) + delay)
      ensures history == old(history) + CycleRecords(cycles)
    {
      hide Recorded, Told, WholeCycle, Records, Apart, GoodCycles, Waited, Sane, CycleRecords;
      NoCycles(world, settings.interval, old(clock) + delay, history);
      var ok := SleepCtx(delay);
      LaterValid(history, past, store, old(clock), clock);
      if !ok {
        return;
      }
      ok := SleepCtx(0);
      NothingToWaitFor(settings.interval, clock);
      while ok
        invariant Valid()
        invariant ok <==> !Cancelled()
        invariant clock >= old(clock) + delay
        invariant GoodCycles(world, cycles, settings.interval, old(clock) + delay)
        invariant history == old(history) + CycleRecords(cycles)
        invariant ok ==> Waited(cycles, settings.interval, clock)
        decreases world.cancelledAt - clock
      {
        ghost var sofar, before := cycles, clock;
        ok := Turn();
        ghost var last := cycles[|cycles| - 1];
        OneMoreCycle(old(history), sofar, last);
        OneMoreGoodCycle(world, sofar, last, settings.interval, old(clock) + delay, before);
        if !ok {
          return;
        }
        NowWaited(sofar, last, settings.interval, clock);
        ok := SleepCtx(0);
      }
    }

    /** A pause changes nothing but the time. */
    method PaceRun(started: int, left: int, ghost before: Before, ghost run: Run, ghost visits: seq<Visit>)
      returns (ok: bool)
      requires InRun(before, run, visits) && left > 0
      modifies this`clock
      ensures InRun(before, run, visits) && clock >= old(clock)
      ensures ok ==> exists read :: ReadAt(read, old(clock), left) && Paused(read, started, left)
      ensures ok ==> clock >= old(clock) + Gap(settings.gap)
      ensures !ok ==> Cancelled()
    {
      hide RecordAll, Counts, Timely, Wait, Gap;
      ok := Pace(started, left);
      if ok {
        ghost var read :| ReadAt(read, old(clock), left) && Paused(read, started, left);
        PauseBounds(settings, read - started, left);
      }
      TimelyLater(visits, run.startedAt, old(clock), clock);
    }
  }

  lemma {:induction false} UpdatedBy(world: World, device: string, states: map<string, OnuState>,
                                     was: map<string, Unauth.UnauthList>, now: map<string, Unauth.UnauthList>,
                                     since: int, until: int, at: int, observed: int)
    requires since < at <= observed <= until && now == Discovering(world, device, states, was, at, observed)
    ensures Updated(world, device, states, was, now, since, until)
  {
  }

  lemma {:induction false} UpdatedLater(world: World, device: string, states: map<string, OnuState>,
                                        was: map<string, Unauth.UnauthList>, now: map<string, Unauth.UnauthList>,
                                        since: int, until: int, later: int)
    requires until <= later
    ensures Updated(world, device, states, was, now, since, until) ==>
            Updated(world, device, states, was, now, since, later)
  {
    hide Discovering;
  }

  method ListUnknown(device: string, found: Discovery.Found, known: set<string>) returns (onus: seq<Unauth.UnauthOnu>)
    ensures onus == Unknown(device, found, found.onus, known)
  {
    onus := [];
    for i := 0 to |found.onus|
      invariant onus == Unknown(device, found, found.onus[..i], known)
    {
      assert found.onus[..i + 1][..i] == found.onus[..i];
      if found.onus[i].serial in known {
        continue;
      }
      onus := onus + [Entry(device, found, found.onus[i])];
    }
    assert found.onus[..|found.onus|] == found.onus;
  }

  lemma {:induction false} WaitNotNegative(p: Settings, elapsed: int, left: int)
    ensures Wait(p, elapsed, left) >= 0
  {
  }

  lemma {:induction false} NoUnits(slots: seq<int>, pons: map<int, int>)
    ensures UnitsOf([]) == Units(slots[..0], pons) == []
  {
  }

  lemma {:induction false} ClockNotNegative(history: seq<Record>, runs: seq<Run>, samples: seq<Sample>, nextRun: int,
                                            now: int)
    requires Recorded(history, runs, samples, nextRun, now)
    ensures now >= 0
  {
  }

  /** Time passing leaves a valid store valid. */
  lemma {:induction false} LaterValid(history: seq<Record>, past: seq<Visit>, store: Memory, was: int, now: int)
    requires store.Valid() && Recorded(history, store.runs, store.samples, store.nextRun, was) && was <= now
    requires Told(past, store.View(), store.samples, was)
    ensures Recorded(history, store.runs, store.samples, store.nextRun, now)
    ensures Told(past, store.View(), store.samples, now)
  {
    hide Told;
    LaterStillRecorded(history, store.runs, store.samples, store.nextRun, was, now);
    LaterStillTold(past, store.View(), store.samples, was, now);
  }

  lemma {:induction false} LaterStillRecorded(history: seq<Record>, runs: seq<Run>, samples: seq<Sample>, nextRun: int,
                                              was: int, now: int)
    requires Recorded(history, runs, samples, nextRun, was) && was <= now
    ensures Recorded(history, runs, samples, nextRun, now)
  {
  }

  lemma {:induction false} RunOpened(view: Mem, run: Run, now: int)
    requires Keyed(view.ports) && run == Opened(run) && 0 < run.startedAt <= now
    ensures Logged([]) == [] && ValidDevices(Logged([])) && RecordAll(view, Logged([])) == view
    ensures Kept([]) == [] && Counts(run, []) && Inside(run, Kept([]), now) && Timely([], run.startedAt, now)
  {
  }

  lemma {:induction false} PassedBy(target: Target, slots: seq<int>, visits: seq<Visit>, total: int, complete: bool)
    requires Ordered(IntLess, slots) && multiset(slots) == multiset(target.boards)
    requires UnitsOf(visits) <= Units(slots, target.pons) && (complete ==> UnitsOf(visits) == Units(slots, target.pons))
    requires total == CountPons(target.boards, target.pons) + (if target.discovers then 1 else 0)
             && CountedDown(visits, total)
    ensures Passed(target, visits, complete)
  {
    hide CountPons, UnitsOf, Units, CountedDown;
    if NonNegativeCounts(target.pons) {
      UnitsCount(slots, target.pons);
      CountPermuted(slots, target.boards, target.pons);
    }
    assert Sorted(target.boards, slots);
  }

  /** Before the first visit nothing is left out of order. */
  lemma {:induction false} NothingPassed(target: Target)
    ensures Passed(target, [], false)
  {
    var slots := SomeSorted(target.boards);
    NoUnits(slots, target.pons);
    assert Sorted(target.boards, slots);
  }

  lemma {:induction false} SomeSorted(boards: seq<int>) returns (slots: seq<int>)
    ensures Ordered(IntLess, slots) && multiset(slots) == multiset(boards)
  {
    if boards == [] {
      slots := [];
    } else {
      hide Ordered;
      var front, last := boards[..|boards| - 1], boards[|boards| - 1];
      var rest := SomeSorted(front);
      slots := InsertSorted(rest, last);
      assert boards == front + [last];
    }
  }

  lemma {:induction false} InsertSorted(rest: seq<int>, x: int) returns (slots: seq<int>)
    requires Ordered(IntLess, rest)
    ensures Ordered(IntLess, slots) && multiset(slots) == multiset(rest) + multiset{x}
  {
    hide Ordered;
    IntOrder();
    var k := Place(rest, x);
    InsertOrdered(IntLess, rest, k, x);
    slots := rest[..k] + [x] + rest[k..];
    assert rest == rest[..k] + rest[k..];
  }

  lemma {:induction false} Place(slots: seq<int>, x: int) returns (k: nat)
    ensures k <= |slots|
    ensures forall i :: 0 <= i < k ==> !IntLess(x, slots[i])
    ensures k < |slots| ==> IntLess(x, slots[k])
  {
    if slots == [] || IntLess(x, slots[0]) {
      k := 0;
    } else {
      k := Place(slots[1..], x);
      k := k + 1;
    }
  }

  /** The visits are the units of the slots before i and the first n of slot i. */
  ghost predicate Reached(visits: seq<Visit>, slots: seq<int>, pons: map<int, int>, i: nat, n: int)
    requires i < |slots|
  {
    0 <= n <= Max(PonCount(pons, slots[i]), 0) && UnitsOf(visits) == Units(slots[..i], pons) + BoardUnits(slots[i], n)
  }

  lemma {:induction false} BoardStart(visits: seq<Visit>, slots: seq<int>, pons: map<int, int>, i: nat)
    requires i < |slots| && UnitsOf(visits) == Units(slots[..i], pons)
    ensures Reached(visits, slots, pons, i, 0)
  {
  }

  lemma {:induction false} ReachedPrefix(visits: seq<Visit>, slots: seq<int>, pons: map<int, int>, i: nat, n: int)
    requires i < |slots| && Reached(visits, slots, pons, i, n)
    ensures UnitsOf(visits) <= Units(slots, pons)
  {
    if n == 0 {
      UnitsBefore(slots, pons, i);
      assert UnitsOf(visits) == Units(slots[..i], pons);
    } else {
      UnitsPrefix(slots, pons, i, n);
    }
  }

  lemma {:induction false} UnitsBefore(slots: seq<int>, pons: map<int, int>, i: nat)
    requires i <= |slots|
    ensures Units(slots[..i], pons) <= Units(slots, pons)
  {
    if i == |slots| {
      assert slots[..i] == slots;
    } else {
      UnitsBefore(slots[..|slots| - 1], pons, i);
      assert slots[..|slots| - 1][..i] == slots[..i];
    }
  }

  /** While units are left to do, the next walk starts no sooner than one gap after the last. */
  predicate Spaced(visits: seq<Visit>, gap: int) {
    forall i :: 0 <= i < |visits| - 1 && visits[i].left > 0 ==> visits[i + 1].at >= visits[i].at + Gap(gap)
  }

  /** The gap after the last visit is over, unless nothing is left to do. */
  predicate Rested(visits: seq<Visit>, gap: int, now: int) {
    visits == [] || visits[|visits| - 1].left <= 0 || now >= visits[|visits| - 1].at + Gap(gap)
  }

  lemma {:induction false} OneMoreSpaced(visits: seq<Visit>, v: Visit, gap: int, now: int)
    requires Spaced(visits, gap) && Rested(visits, gap, now) && now < v.at
    ensures Spaced(visits + [v], gap)
  {
  }

  lemma {:induction false} NowRested(visits: seq<Visit>, gap: int, visited: int, now: int)
    requires visits != [] && visits[|visits| - 1].at <= visited
    requires visits[|visits| - 1].left > 0 ==> now >= visited + Gap(gap)
    ensures Rested(visits, gap, now)
  {
  }

  /** Main result on pacing: with non-negative counts any two consecutive walks of a pass start at least one gap
      apart, whatever the walks take and however the interval is spread. */
  lemma {:induction false} WalksApart(target: Target, visits: seq<Visit>, complete: bool, gap: int, i: nat)
    requires Passed(target, visits, complete) && NonNegativeCounts(target.pons) && Spaced(visits, gap)
             && i + 1 < |visits|
    ensures visits[i + 1].at >= visits[i].at + Gap(gap)
  {
    var slots :| Sorted(target.boards, slots)
      && UnitsOf(visits) <= Units(slots, target.pons)
      && (complete ==> UnitsOf(visits) == Units(slots, target.pons))
      && (NonNegativeCounts(target.pons) ==>
          CountedDown(visits, |Units(slots, target.pons)| + if target.discovers then 1 else 0));
    UnitsLength(visits);
  }

  /** Main result: a run that was not interrupted counts every configured PON, once for each time its board is
      listed. */
  lemma {:induction false} CompletePassCounts(world: World, p: Pass)
    requires GoodPass(world, p) && p.record.Some? && p.record.value.run.status != "error"
             && NonNegativeCounts(p.target.pons)
    ensures p.record.value.run.ponsOK + p.record.value.run.ponsError == CountPons(p.target.boards, p.target.pons)
  {
    hide UnitsOf, Units, CountPons, AllHappened, CountedDown;
    var slots :| Sorted(p.target.boards, slots) && UnitsOf(p.visits) == Units(slots, p.target.pons);
    UnitsLength(p.visits);
    UnitsCount(slots, p.target.pons);
    CountPermuted(slots, p.target.boards, p.target.pons);
  }

  /** The final write of a run is handed the poller's context. */
  ghost predicate HonoursContext(world: World) {
    forall t :: world.cancelledAt <= t ==> world.closeFails(t)
  }

  /** Main result: a store that refuses a cancelled context leaves the row of every interrupted run marked running, and
      so that of every run finished after the cancellation. */
  lemma {:induction false} InterruptedStaysOpen(world: World, p: Pass)
    requires HonoursContext(world) && GoodPass(world, p) && p.record.Some?
    ensures var r := p.record.value;
            && (r.closed ==> r.run.finishedAt.Some? && r.run.finishedAt.value < world.cancelledAt)
            && (r.run.status == "error" && !world.deviceRowFails(r.run.id) ==> !r.closed && Row(r).status == "running")
  {
  }

  lemma {:induction false} UnitsLength(visits: seq<Visit>)
    ensures |UnitsOf(visits)| == |visits|
  {
    if visits != [] {
      UnitsLength(visits[..|visits| - 1]);
    }
  }

  lemma {:induction false} OneMoreReached(visits: seq<Visit>, slots: seq<int>, pons: map<int, int>, i: nat, pon: int,
                                          v: Visit)
    requires i < |slots| && 1 <= pon <= PonCount(pons, slots[i]) && Reached(visits, slots, pons, i, pon - 1)
    requires v.board == slots[i] && v.pon == pon
    ensures Reached(visits + [v], slots, pons, i, pon)
  {
    OneMoreVisit(visits, v);
  }

  lemma {:induction false} BoardEnd(visits: seq<Visit>, slots: seq<int>, pons: map<int, int>, i: nat)
    requires i < |slots| && Reached(visits, slots, pons, i, Max(PonCount(pons, slots[i]), 0))
    ensures UnitsOf(visits) == Units(slots[..i + 1], pons)
  {
    assert slots[..i + 1][..i] == slots[..i];
  }

  lemma {:induction false} KnownOneMore(states: map<string, OnuState>, todo: set<string>, k: string, device: string)
    requires k in todo && k in states
    ensures KnownSerials(Visited(states, todo - {k}), device) ==
            KnownSerials(Visited(states, todo), device)
            + if (device == "" || states[k].device == device) && states[k].serial != "" then {states[k].serial} else {}
  {
    var was, now := Visited(states, todo), Visited(states, todo - {k});
    assert now == was[k := states[k]];
    forall s | s in KnownSerials(was, device) ensures s in KnownSerials(now, device) {
      var key :| key in was && (device == "" || was[key].device == device) && was[key].serial != ""
        && was[key].serial == s;
      assert now[key] == was[key];
    }
    if (device == "" || states[k].device == device) && states[k].serial != "" {
      assert now[k].serial in KnownSerials(now, device);
    }
  }

  ghost function EntrySerials(onus: seq<Unauth.UnauthOnu>): set<string> {
    set k | 0 <= k < |onus| :: onus[k].serial
  }

  lemma {:induction false} OneMoreEntry(onus: seq<Unauth.UnauthOnu>, onu: Unauth.UnauthOnu)
    ensures EntrySerials(onus + [onu]) == EntrySerials(onus) + {onu.serial}
    ensures onu.serial !in EntrySerials(onus) ==> forall k :: 0 <= k < |onus| ==> onus[k].serial != onu.serial
  {
    var all := onus + [onu];
    assert all[|onus|].serial == onu.serial;
    forall s | s in EntrySerials(onus) ensures s in EntrySerials(all) {
      var k :| 0 <= k < |onus| && onus[k].serial == s;
      assert all[k].serial == s;
    }
  }

  /** Each serial found and not known is listed once, and no other. */
  lemma {:induction false} UnknownSerials(device: string, found: Discovery.Found, onus: seq<Discovery.FoundOnu>,
                                          known: set<string>)
    requires forall i, j :: 0 <= i < j < |onus| ==> onus[i].serial != onus[j].serial
    ensures var rest := Unknown(device, found, onus, known);
            && EntrySerials(rest) == Discovery.Serials(onus) - known
            && (forall k, l :: 0 <= k < l < |rest| ==> rest[k].serial != rest[l].serial)
  {
    hide EntrySerials;
    if onus == [] {
      NoEntries();
    } else {
      var front, last := onus[..|onus| - 1], onus[|onus| - 1];
      UnknownSerials(device, found, front, known);
      assert onus == front + [last];
      Discovery.OneMoreSerial(front, last);
      OneMoreEntry(Unknown(device, found, front, known), Entry(device, found, last));
      assert last.serial !in Discovery.Serials(front);
    }
  }

  lemma {:induction false} NoEntries()
    ensures EntrySerials([]) == {}
  {
  }

  /** Each listed ONU has the place and type found for it, and the discovery's status and time. */
  lemma {:induction false} UnknownEntries(device: string, found: Discovery.Found, onus: seq<Discovery.FoundOnu>,
                                          known: set<string>)
    ensures forall o :: o in Unknown(device, found, onus, known) ==>
              exists f :: f in onus && f.serial !in known && EntryShows(o, f, device, found)
    ensures forall f :: f in onus && f.serial !in known ==>
              exists o :: o in Unknown(device, found, onus, known) && EntryShows(o, f, device, found)
  {
    if onus != [] {
      var front, last := onus[..|onus| - 1], onus[|onus| - 1];
      UnknownEntries(device, found, front, known);
      assert onus == front + [last];
      assert EntryShows(Entry(device, found, last), last, device, found);
    }
  }

  /** A stored entry has the serial, place and type of the ONU found, and the discovery's status and time. */
  predicate EntryShows(o: Unauth.UnauthOnu, f: Discovery.FoundOnu, device: string, found: Discovery.Found) {
    && o.device == device && o.serial == f.serial && o.board == f.board && o.pon == f.pon && o.onuType == f.onuType
    && o.discoveryStatus == found.status && o.firstSeen == found.observedAt && o.lastSeen == found.observedAt
    && o.goneAt == None
  }

  /** The stored list of a successful discovery: its head, and one entry for each ONU found with an unknown serial. */
  ghost predicate ListsFound(list: Unauth.UnauthList, device: string, found: Discovery.Found, known: set<string>) {
    && list.status == found.status && list.oid == found.oid && list.message == found.message
    && list.observedAt == found.observedAt && list.count == |list.onus|
    && (forall o :: o in list.onus ==>
        exists f :: f in found.onus && f.serial !in known && EntryShows(o, f, device, found))
    && (forall f :: f in found.onus && f.serial !in known ==>
          exists o :: o in list.onus && EntryShows(o, f, device, found))
  }

  lemma {:induction false} DiscoveredIsListed(world: World, device: string, states: map<string, OnuState>,
                                              was: map<string, Unauth.UnauthList>, at: int, observed: int)
    requires !world.unauthFails(at) && world.discover(device, at).Some?
             && world.discover(device, at).value.status == "ok"
    ensures var now := Discovering(world, device, states, was, at, observed);
            && device in now
            && ListsFound(now[device], device, world.discover(device, at).value,
                          if world.statesFail(at) then {} else KnownSerials(states, device))
  {
    hide EntryShows, KnownSerials;
    var found := world.discover(device, at).value;
    UnknownEntries(device, found, found.onus, if world.statesFail(at) then {} else KnownSerials(states, device));
  }

  /** What a pass stores is of the shape over which the unauthorized table refines the list. */
  lemma {:induction false} UnconfiguredCollected(world: World, device: string, at: int, known: set<string>, now: int)
    requires Sane(world)
    ensures Unauth.Collected(device, Unconfigured(device, world.discover(device, at), known, now))
  {
    match world.discover(device, at)
    case None =>
    case Some(found) =>
      assert Discovered(found);
      UnknownSerials(device, found, found.onus, known);
      UnknownEntries(device, found, found.onus, known);
      var rest := Unknown(device, found, found.onus, known);
      assert forall i :: 0 <= i < |rest| ==> rest[i] in rest;
  }

  /** Samples of the run's device, taken after its start and not in the future. */
  predicate Inside(run: Run, kept: seq<Sample>, now: int) {
    && 0 < run.startedAt <= now
    && forall i :: 0 <= i < |kept| ==> kept[i].device == run.device && run.startedAt < kept[i].time <= now
  }

  lemma {:induction false} InsideLater(run: Run, kept: seq<Sample>, was: int, now: int)
    requires Inside(run, kept, was) && was <= now
    ensures Inside(run, kept, now)
  {
  }

  lemma {:induction false} OneMoreInside(was: Run, run: Run, kept: seq<Sample>, more: seq<Sample>, since: int, now: int)
    requires Inside(was, kept, since) && since < now && run.device == was.device && run.startedAt == was.startedAt
    requires forall i :: 0 <= i < |more| ==> more[i].device == run.device && since < more[i].time <= now
    ensures Inside(run, kept + more, now) && run.startedAt <= since
  {
  }

  lemma {:induction false} OneMoreCounted(was: Run, run: Run, visits: seq<Visit>, v: Visit)
    requires Counts(was, visits)
    requires run.ponsOK == was.ponsOK + if v.outcome.Stored() then 1 else 0
    requires run.ponsError == was.ponsError + if v.outcome.Stored() then 0 else 1
    requires run.onusSampled == was.onusSampled + if v.outcome.Stored() then |v.samples| else 0
    ensures Counts(run, visits + [v])
  {
    OneMoreVisit(visits, v);
  }

  /** The log is the fold over everything recorded so far, and the samples are everything stored. */
  ghost predicate Told(past: seq<Visit>, view: Mem, samples: seq<Sample>, now: int) {
    && ValidDevices(Logged(past)) && view == RecordAll(EMPTY, Logged(past))
    && samples == Kept(past) && Timely(past, 0, now)
  }

  lemma {:induction false} TellMore(past: seq<Visit>, view: Mem, samples: seq<Sample>, since: int, visits: seq<Visit>,
                                    started: int, last: int, after: Mem, stored: seq<Sample>, now: int)
    requires Told(past, view, samples, since) && 0 <= since < started <= last <= now
    requires Keyed(view.ports) && ValidDevices(Logged(visits)) && after == RecordAll(view, Logged(visits))
    requires stored == samples + Kept(visits) && Timely(visits, started, last)
    ensures Told(past + visits, after, stored, now)
  {
    hide RecordAll, Timely, Logged, Kept;
    LoggedConcat(past, visits);
    KeptConcat(past, visits);
    RecordAllConcat(EMPTY, Logged(past), Logged(visits));
    TimelyLater(visits, started, last, now);
    TimelyConcat(past, visits, 0, since, started, now);
  }

  lemma {:induction false} TimelyLater(visits: seq<Visit>, since: int, was: int, now: int)
    requires Timely(visits, since, was) && was <= now
    ensures Timely(visits, since, now)
  {
    hide SampledAt;
  }

  lemma {:induction false} LaterStillTold(past: seq<Visit>, view: Mem, samples: seq<Sample>, was: int, now: int)
    requires Told(past, view, samples, was) && was <= now
    ensures Told(past, view, samples, now)
  {
    hide Timely;
    TimelyLater(past, 0, was, now);
  }

  lemma {:induction false} OneMoreTimely(visits: seq<Visit>, v: Visit, since: int, was: int, now: int)
    requires Timely(visits, since, was) && since <= was < v.at <= now && SampledAt(v)
    ensures Timely(visits + [v], since, now)
  {
    hide SampledAt;
  }

  lemma {:induction false} SameCounts(was: Run, run: Run, visits: seq<Visit>)
    requires Counts(was, visits) && run.ponsOK == was.ponsOK && run.ponsError == was.ponsError
             && run.onusSampled == was.onusSampled
    ensures Counts(run, visits)
  {
  }

  lemma {:induction false} FinishedInside(r: Record)
    requires r.run.finishedAt.Some? && 0 < r.run.startedAt < r.run.finishedAt.value
    requires forall i :: 0 <= i < |r.inserted| ==>
               r.inserted[i].device == r.run.device && r.run.startedAt < r.inserted[i].time < r.run.finishedAt.value
    ensures Finished(r)
  {
  }

  lemma {:induction false} IdsBelow(history: seq<Record>, runs: seq<Run>, samples: seq<Sample>, nextRun: int, now: int,
                                    id: int)
    requires Recorded(history, runs, samples, nextRun, now) && id == nextRun + 1
    ensures forall i :: 0 <= i < |runs| ==> runs[i].id != id
  {
  }

  lemma {:induction false} FinishLast(runs: seq<Run>, first: Run, run: Run)
    requires first.id == run.id && forall i :: 0 <= i < |runs| ==> runs[i].id != run.id
    ensures FinishRun(runs + [first], run) == runs + [run]
  {
    var all := runs + [first];
    if runs != [] {
      assert all[1..] == runs[1..] + [first];
      assert all[0].id != run.id;
      FinishLast(runs[1..], first, run);
      assert runs == [runs[0]] + runs[1..];
    }
  }

  lemma {:induction false} VisitSamples(world: World, device: string, v: Visit)
    requires Happened(world, device, v)
    ensures SampledAt(v) && forall i :: 0 <= i < |v.samples| ==>
            v.samples[i].device == device && v.samples[i].time == v.at
  {
  }

  lemma {:induction false} SamplesOwned(at: int, device: string, rows: seq<InventoryRow>)
    ensures forall i :: 0 <= i < |rows| ==>
            SamplesOf(at, device, rows)[i].device == device && SamplesOf(at, device, rows)[i].time == at
  {
  }

  lemma {:induction false} NothingRecorded(m: Mem)
    requires Keyed(m.ports)
    ensures ValidDevices([]) && RecordAll(m, []) == m
  {
  }

  method SampleFromInventory(observedAt: int, device: string, row: InventoryRow) returns (sample: Sample)
    ensures TakenFrom(sample, row, observedAt, device)
    ensures sample == SampleOf(observedAt, device, row)
  {
    SampleTaken(observedAt, device, row);
    var ports, summary := ApplyEthernet(row);
    sample := Sample(observedAt, device, row.serial, row.board, row.pon, row.id, row.name, row.onuType, row.status,
                     ports, 0, summary.link);
  }
}
