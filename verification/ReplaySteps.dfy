/** One ONU's samples as polls brought them, some logged and not stored, some stored against an outdated row: when the
    replay of the stored ones gives back what was logged. */
module ReplaySteps {
  import opened Events
  import opened EventLogs
  import opened StoreAgreement
  import opened Backfill

  /** One sample: what the store held of the ONU when it came, which events were logged, whether it was stored. */
  datatype Seen = Seen(x: Sample, row: OnuState, ports: map<int, PortState>,
                       statusLogged: bool, ethLogged: bool, kept: bool)

  function Samples(steps: seq<Seen>): (r: seq<Sample>)
    ensures |r| == |steps| && forall i :: 0 <= i < |r| ==> r[i] == steps[i].x
  {
    if steps == [] then [] else Samples(steps[..|steps| - 1]) + [steps[|steps| - 1].x]
  }

  function KeptOf(steps: seq<Seen>): seq<Sample> {
    if steps == [] then []
    else KeptOf(steps[..|steps| - 1]) + if steps[|steps| - 1].kept then [steps[|steps| - 1].x] else []
  }

  function StatusAdded(step: Seen): seq<StatusEvent> {
    if step.statusLogged then StatusEventsFrom(step.row, Padded(step.x), "poller") else []
  }

  function EthAdded(step: Seen): seq<EthEvent> {
    if step.ethLogged then EthEventsOf(step.ports, Padded(step.x), Padded(step.x).ethPorts, "poller") else []
  }

  function StatusLogged(steps: seq<Seen>): seq<StatusEvent> {
    if steps == [] then [] else StatusLogged(steps[..|steps| - 1]) + StatusAdded(steps[|steps| - 1])
  }

  function EthLogged(steps: seq<Seen>): seq<EthEvent> {
    if steps == [] then [] else EthLogged(steps[..|steps| - 1]) + EthAdded(steps[|steps| - 1])
  }

  // ----- what one step must meet -----

  /** A sample that is logged and not stored is no change; one that is stored is a logged change against the store's row
      exactly when it is one against the last stored sample, and then from the same status. */
  predicate StatusFits(step: Seen, last: OnuState) {
    var s := Padded(step.x);
    && (step.statusLogged && StatusChanged(step.row, s) <==> step.kept && StatusChanged(last, s))
    && (step.statusLogged && step.kept && StatusChanged(step.row, s) ==> step.row.status == last.status)
  }

  /** The same for each of its ports. */
  predicate EthFits(step: Seen, last: map<int, PortState>) {
    forall p :: p in Padded(step.x).ethPorts ==>
      var was, now := Prev(step.ports, p.port), Prev(last, p.port);
      && (step.ethLogged && PortChanged(was, p) <==> step.kept && PortChanged(now, p))
      && (step.ethLogged && step.kept && PortChanged(was, p) ==> was.link == now.link && was.admin == now.admin)
  }

  predicate StatusExplained(steps: seq<Seen>) {
    steps == []
    || (&& StatusExplained(steps[..|steps| - 1])
        && StatusFits(steps[|steps| - 1], ObserveAll(KeptOf(steps[..|steps| - 1]), "poller").state))
  }

  predicate EthExplained(steps: seq<Seen>) {
    steps == []
    || (&& EthExplained(steps[..|steps| - 1])
        && EthFits(steps[|steps| - 1], ObserveAll(KeptOf(steps[..|steps| - 1]), "poller").ports))
  }

  lemma {:induction false} StatusFitsIff(step: Seen, last: OnuState)
    ensures StatusFits(step, last) <==>
            StatusAdded(step) == if step.kept then StatusEventsFrom(last, Padded(step.x), "poller") else []
  {
    hide Padded, StatusChanged;
  }

  lemma {:induction false} NoEthEvents(prev: map<int, PortState>, s: Sample, ports: seq<EthPort>, source: string)
    ensures EthEventsOf(prev, s, ports, source) == [] <==>
            forall p :: p in ports ==> !PortChanged(Prev(prev, p.port), p)
  {
    hide PortChanged, Prev;
    if ports != [] {
      var front, last := ports[..|ports| - 1], ports[|ports| - 1];
      NoEthEvents(prev, s, front, source);
      assert forall p :: p in ports <==> p in front || p == last;
    }
  }

  lemma {:induction false} EthFitsIff(step: Seen, last: map<int, PortState>)
    ensures EthFits(step, last) <==>
            EthAdded(step) ==
            if step.kept then EthEventsOf(last, Padded(step.x), Padded(step.x).ethPorts, "poller") else []
  {
    hide Padded, PortChanged, Prev, EthEventsOf;
    var s := Padded(step.x);
    EthEventsAgreeIff(step.ports, last, s, s.ethPorts, "poller");
    NoEthEvents(step.ports, s, s.ethPorts, "poller");
    NoEthEvents(last, s, s.ethPorts, "poller");
  }

  // ----- logs are told apart by time -----

  lemma {:induction false} LongerFront<T>(a: seq<T>, x: seq<T>, b: seq<T>, y: seq<T>)
    requires a + x == b + y
    ensures |a| < |b| ==> exists e :: e in x && e in b
  {
    if |a| < |b| {
      assert (a + x)[|a|] == x[0] && (b + y)[|a|] == b[|a|];
      assert x[0] in x && x[0] in b;
    }
  }

  lemma {:induction false} SplitByTime<T(!new)>(time: T -> int, a: seq<T>, x: seq<T>, b: seq<T>, y: seq<T>, now: int)
    requires forall e :: e in a || e in b ==> time(e) < now
    requires forall e :: e in x || e in y ==> time(e) == now
    ensures a + x == b + y <==> a == b && x == y
  {
    if a + x == b + y {
      LongerFront(a, x, b, y);
      LongerFront(b, y, a, x);
      assert a == (a + x)[..|a|] && b == (b + y)[..|b|];
      assert x == (a + x)[|a|..] && y == (b + y)[|b|..];
    }
  }

  function StatusTime(e: StatusEvent): int {
    e.time
  }

  function EthTime(e: EthEvent): int {
    e.time
  }

  lemma {:induction false} EthEventTimes(prev: map<int, PortState>, s: Sample, ports: seq<EthPort>, source: string)
    ensures forall e :: e in EthEventsOf(prev, s, ports, source) ==> e.time == s.time && e.source == source
  {
    hide PortChanged;
    if ports != [] {
      EthEventTimes(prev, s, ports[..|ports| - 1], source);
    }
  }

  lemma {:induction false} StatusEventTimes(prev: OnuState, s: Sample, source: string)
    ensures forall e :: e in StatusEventsFrom(prev, s, source) ==> e.time == s.time && e.source == source
  {
    hide StatusChanged;
  }

  /** Every logged and every replayed event carries a time up to the last sample's. */
  ghost predicate UpTo(steps: seq<Seen>, now: int) {
    && (forall e :: e in StatusLogged(steps) ==> e.time <= now && e.source == "poller")
    && (forall e :: e in EthLogged(steps) ==> e.time <= now && e.source == "poller")
    && (forall e :: e in ObserveAll(KeptOf(steps), "poller").statusLog ==> e.time <= now && e.source == "poller")
    && (forall e :: e in ObserveAll(KeptOf(steps), "poller").ethLog ==> e.time <= now && e.source == "poller")
  }

  /** What one more sample adds on either side. */
  lemma {:induction false} OneMoreStep(steps: seq<Seen>)
    requires steps != []
    ensures var front, step := steps[..|steps| - 1], steps[|steps| - 1];
            var s, o := Padded(step.x), ObserveAll(KeptOf(front), "poller");
            && ObserveAll(KeptOf(steps), "poller").statusLog ==
               o.statusLog + (if step.kept then StatusEventsFrom(o.state, s, "poller") else [])
            && ObserveAll(KeptOf(steps), "poller").ethLog ==
               o.ethLog + if step.kept then EthEventsOf(o.ports, s, s.ethPorts, "poller") else []
  {
    hide Padded, StatusEventsFrom, EthEventsOf;
    var front, step := steps[..|steps| - 1], steps[|steps| - 1];
    var before := KeptOf(front);
    if step.kept {
      assert (before + [step.x])[..|before|] == before;
    } else {
      var o := ObserveAll(before, "poller");
      assert before + [] == before && o.statusLog + [] == o.statusLog && o.ethLog + [] == o.ethLog;
    }
  }

  lemma {:induction false} StepTimes(step: Seen, last: Onu)
    ensures forall e :: e in StatusAdded(step) ==> e.time == step.x.time && e.source == "poller"
    ensures forall e :: e in EthAdded(step) ==> e.time == step.x.time && e.source == "poller"
    ensures forall e :: e in StatusEventsFrom(last.state, Padded(step.x), "poller") ==>
              e.time == step.x.time && e.source == "poller"
    ensures forall e :: e in EthEventsOf(last.ports, Padded(step.x), Padded(step.x).ethPorts, "poller") ==>
              e.time == step.x.time && e.source == "poller"
  {
    hide Padded, StatusEventsFrom, EthEventsOf;
    var s := Padded(step.x);
    PaddedIdempotent(step.x);
    StatusEventTimes(step.row, s, "poller");
    StatusEventTimes(last.state, s, "poller");
    EthEventTimes(step.ports, s, s.ethPorts, "poller");
    EthEventTimes(last.ports, s, s.ethPorts, "poller");
  }

  /** Main result: with increasing times, what was logged of an ONU is what its stored samples amount to exactly when
      every step fits. */
  lemma {:induction false} StepsExplainedIff(steps: seq<Seen>, now: int)
    requires StrictTimes(Samples(steps)) && forall i :: 0 <= i < |steps| ==> steps[i].x.time <= now
    ensures UpTo(steps, now)
    ensures StatusLogged(steps) == ObserveAll(KeptOf(steps), "poller").statusLog <==> StatusExplained(steps)
    ensures EthLogged(steps) == ObserveAll(KeptOf(steps), "poller").ethLog <==> EthExplained(steps)
  {
    hide StatusAdded, EthAdded, StatusEventsFrom, EthEventsOf, ObserveAll, StatusFits, EthFits, Padded;
    if steps == [] {
      NothingObserved();
    } else {
      var front, step := steps[..|steps| - 1], steps[|steps| - 1];
      StepsEarlier(steps);
      StepsExplainedIff(front, step.x.time - 1);
      OneMoreStep(steps);
      var o, s := ObserveAll(KeptOf(front), "poller"), Padded(step.x);
      StepTimes(step, o);
      StatusFitsIff(step, o.state);
      EthFitsIff(step, o.ports);
      SplitByTime(StatusTime, StatusLogged(front), StatusAdded(step), o.statusLog,
                  if step.kept then StatusEventsFrom(o.state, s, "poller") else [], step.x.time);
      SplitByTime(EthTime, EthLogged(front), EthAdded(step), o.ethLog,
                  if step.kept then EthEventsOf(o.ports, s, s.ethPorts, "poller") else [], step.x.time);
    }
  }

  lemma {:induction false} NothingObserved()
    ensures ObserveAll([], "poller").statusLog == [] && ObserveAll([], "poller").ethLog == []
  {
  }

  lemma {:induction false} StepsEarlier(steps: seq<Seen>)
    requires steps != [] && StrictTimes(Samples(steps))
    ensures var front, step := steps[..|steps| - 1], steps[|steps| - 1];
            StrictTimes(Samples(front)) && forall i :: 0 <= i < |front| ==> front[i].x.time <= step.x.time - 1
  {
    var all, n := Samples(steps), |steps| - 1;
    var front := Samples(steps[..n]);
    forall i, j | 0 <= i < j < n ensures front[i].time < front[j].time {
      assert all[i].time < all[j].time;
    }
    forall i | 0 <= i < n ensures steps[i].x.time <= steps[n].x.time - 1 {
      assert all[i].time < all[n].time;
    }
  }

  // ----- the source tag -----

  lemma {:induction false} RetagEthKeeps(log: seq<EthEvent>, source: string)
    ensures var r := RetagEth(log, source);
            |r| == |log| && forall i :: 0 <= i < |log| ==> r[i] == log[i].(source := source)
  {
    if log != [] {
      RetagEthKeeps(log[..|log| - 1], source);
    }
  }

  lemma {:induction false} SameStatusRetagged(a: seq<StatusEvent>, b: seq<StatusEvent>, was: string, source: string)
    requires (forall e :: e in a ==> e.source == was) && (forall e :: e in b ==> e.source == was)
    ensures RetagStatus(a, source) == RetagStatus(b, source) <==> a == b
  {
    hide RetagStatus;
    RetagKeeps(a, source);
    RetagKeeps(b, source);
    if RetagStatus(a, source) == RetagStatus(b, source) {
      forall i | 0 <= i < |a| ensures a[i] == b[i] {
        assert a[i] in a && b[i] in b;
        assert a[i].(source := source) == b[i].(source := source);
      }
    }
  }

  lemma {:induction false} SameEthRetagged(a: seq<EthEvent>, b: seq<EthEvent>, was: string, source: string)
    requires (forall e :: e in a ==> e.source == was) && (forall e :: e in b ==> e.source == was)
    ensures RetagEth(a, source) == RetagEth(b, source) <==> a == b
  {
    hide RetagEth;
    RetagEthKeeps(a, source);
    RetagEthKeeps(b, source);
    if RetagEth(a, source) == RetagEth(b, source) {
      forall i | 0 <= i < |a| ensures a[i] == b[i] {
        assert a[i] in a && b[i] in b;
        assert a[i].(source := source) == b[i].(source := source);
      }
    }
  }
}
