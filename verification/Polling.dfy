/** What one pass of the poller consists of: the PONs in visiting order, the samples each yields, and what
    the visits add up to. */
module Polling {
  import opened Text
  import opened Events
  import opened Ordering
  import Ethernet

  datatype Target = Target(id: string, boards: seq<int>, pons: map<int, int>, discovers: bool)

  /** One row of a PON's inventory. */
  datatype InventoryRow = InventoryRow(board: int, pon: int, id: int, name: string, onuType: string, serial: string,
                                       status: string,
                                       ethStatus: string, ethPorts: seq<Ethernet.UniPort>)

  /** Which of the three writes of a PON's samples the store refuses. */
  datatype Write = AllDone | TransitionsRefused | InsertRefused | UpsertRefused

  /** How the visit of one PON ended. */
  datatype Outcome = CollectFailed | Collected(write: Write) {
    predicate Logged() {
      Collected? && !write.TransitionsRefused?
    }

    predicate Kept() {
      Collected? && (write.AllDone? || write.UpsertRefused?)
    }

    predicate Stored() {
      Collected? && write.AllDone?
    }
  }

  // ----- units of work -----

  function PonCount(pons: map<int, int>, board: int): int {
    if board in pons then pons[board] else 0
  }

  function CountPons(boards: seq<int>, pons: map<int, int>): int {
    if boards == [] then 0 else CountPons(boards[..|boards| - 1], pons) + PonCount(pons, boards[|boards| - 1])
  }

  function BoardUnits(board: int, n: int): seq<(int, int)> {
    if n <= 0 then [] else BoardUnits(board, n - 1) + [(board, n)]
  }

  function Units(slots: seq<int>, pons: map<int, int>): seq<(int, int)> {
    if slots == [] then []
    else Units(slots[..|slots| - 1], pons) + BoardUnits(slots[|slots| - 1], PonCount(pons, slots[|slots| - 1]))
  }

  predicate UnitLess(a: (int, int), b: (int, int)) {
    a.0 < b.0 || (a.0 == b.0 && a.1 < b.1)
  }

  ghost predicate Sorted(boards: seq<int>, slots: seq<int>) {
    Ordered(IntLess, slots) && multiset(slots) == multiset(boards)
  }

  predicate NonNegativeCounts(pons: map<int, int>) {
    forall board :: board in pons ==> pons[board] >= 0
  }

  method CountPONs(target: Target) returns (n: int)
    ensures n == CountPons(target.boards, target.pons)
  {
    n := 0;
    for i := 0 to |target.boards|
      invariant n == CountPons(target.boards[..i], target.pons)
    {
      assert target.boards[..i + 1][..i] == target.boards[..i];
      n := n + PonCount(target.pons, target.boards[i]);
    }
    assert target.boards[..|target.boards|] == target.boards;
  }

  lemma {:induction false} CountWithout(boards: seq<int>, pons: map<int, int>, i: nat)
    requires i < |boards|
    ensures CountPons(boards, pons) == CountPons(boards[..i] + boards[i + 1..], pons) + PonCount(pons, boards[i])
  {
    var rest := boards[..i] + boards[i + 1..];
    if i < |boards| - 1 {
      var front := boards[..|boards| - 1];
      CountWithout(front, pons, i);
      assert rest[..|rest| - 1] == front[..i] + front[i + 1..];
      assert rest[|rest| - 1] == boards[|boards| - 1];
    } else {
      assert rest == boards[..|boards| - 1];
    }
  }

  /** Sorting the slots does not change how many PONs there are. */
  lemma {:induction false} CountPermuted(a: seq<int>, b: seq<int>, pons: map<int, int>)
    requires multiset(a) == multiset(b)
    ensures CountPons(a, pons) == CountPons(b, pons)
  {
    assert |a| == |multiset(a)| == |multiset(b)| == |b|;
    hide PonCount;
    if a != [] {
      var front, last := a[..|a| - 1], a[|a| - 1];
      MultisetWithout(a, |a| - 1);
      assert a[..|a| - 1] + a[|a|..] == front;
      assert last in multiset(b);
      var i :| 0 <= i < |b| && b[i] == last;
      var rest := b[..i] + b[i + 1..];
      MultisetWithout(b, i);
      CountPermuted(front, rest, pons);
      CountWithout(b, pons, i);
    }
  }

  lemma {:induction false} BoardUnitsAt(board: int, n: int)
    ensures |BoardUnits(board, n)| == if n > 0 then n else 0
    ensures forall k :: 0 <= k < |BoardUnits(board, n)| ==> BoardUnits(board, n)[k] == (board, k + 1)
  {
    if n > 0 {
      BoardUnitsAt(board, n - 1);
    }
  }

  lemma {:induction false} UnitsCount(slots: seq<int>, pons: map<int, int>)
    requires NonNegativeCounts(pons)
    ensures |Units(slots, pons)| == CountPons(slots, pons)
  {
    if slots != [] {
      UnitsCount(slots[..|slots| - 1], pons);
      BoardUnitsAt(slots[|slots| - 1], PonCount(pons, slots[|slots| - 1]));
    }
  }

  lemma {:induction false} UnitsPrefix(slots: seq<int>, pons: map<int, int>, i: nat, n: nat)
    requires i < |slots| && n <= PonCount(pons, slots[i])
    ensures Units(slots[..i], pons) + BoardUnits(slots[i], n) <= Units(slots, pons)
  {
    var front, last := slots[..|slots| - 1], slots[|slots| - 1];
    BoardUnitsAt(slots[i], n);
    BoardUnitsAt(slots[i], PonCount(pons, slots[i]));
    if i == |slots| - 1 {
      assert slots[..i] == front;
    } else {
      UnitsPrefix(front, pons, i, n);
      assert front[..i] == slots[..i];
    }
  }

  lemma {:induction false} UnitMembers(slots: seq<int>, pons: map<int, int>, unit: (int, int))
    ensures unit in Units(slots, pons) <==> unit.0 in slots && 1 <= unit.1 <= PonCount(pons, unit.0)
  {
    if slots != [] {
      var front, last := slots[..|slots| - 1], slots[|slots| - 1];
      UnitMembers(front, pons, unit);
      assert slots == front + [last];
      var n := PonCount(pons, last);
      BoardUnitsAt(last, n);
      if unit.0 == last && 1 <= unit.1 <= n {
        assert BoardUnits(last, n)[unit.1 - 1] == unit;
      }
    }
  }

  /** The units of distinct slots come in ascending slot and PON order, each (slot, PON) exactly once. */
  lemma {:induction false} UnitsAscend(slots: seq<int>, pons: map<int, int>)
    requires Increasing(IntLess, slots)
    ensures Increasing(UnitLess, Units(slots, pons))
  {
    if slots != [] {
      var front, last := slots[..|slots| - 1], slots[|slots| - 1];
      UnitsAscend(front, pons);
      var a, b := Units(front, pons), BoardUnits(last, PonCount(pons, last));
      BoardUnitsAt(last, PonCount(pons, last));
      forall i, j | 0 <= i < |a| && 0 <= j < |b| ensures UnitLess(a[i], b[j]) {
        UnitMembers(front, pons, a[i]);
        var k :| 0 <= k < |front| && front[k] == a[i].0;
        assert IntLess(slots[k], slots[|slots| - 1]);
      }
    }
  }

  /** Main result: for a target with distinct slots, the visiting order holds every (slot, PON) of the
      configuration once, ascending, and there are as many as the countdown starts from. */
  lemma {:induction false} VisitingOrder(target: Target, slots: seq<int>)
    requires Sorted(target.boards, slots) && NoDuplicates(target.boards) && NonNegativeCounts(target.pons)
    ensures Increasing(UnitLess, Units(slots, target.pons))
    ensures forall unit :: unit in Units(slots, target.pons) <==>
              unit.0 in target.boards && 1 <= unit.1 <= PonCount(target.pons, unit.0)
    ensures |Units(slots, target.pons)| == CountPons(target.boards, target.pons)
  {
    NoDuplicatesPermuted(target.boards, slots);
    OrderedSeparated(IntLess, slots);
    UnitsAscend(slots, target.pons);
    forall unit: (int, int)
      ensures unit in Units(slots, target.pons) <==>
              unit.0 in target.boards && 1 <= unit.1 <= PonCount(target.pons, unit.0)
    {
      UnitMembers(slots, target.pons, unit);
      assert unit.0 in slots <==> unit.0 in multiset(slots);
      assert unit.0 in target.boards <==> unit.0 in multiset(target.boards);
    }
    UnitsCount(slots, target.pons);
    CountPermuted(slots, target.boards, target.pons);
  }

  // ----- what a sample shows of its row -----

  predicate HasPorts(row: InventoryRow) {
    row.ethStatus == "ok" || row.ethStatus == "partial"
  }

  /** The Ethernet ports of a sample are the row's, the unknown duplex emptied, when its status has any. */
  predicate PortsTaken(ports: seq<EthPort>, row: InventoryRow) {
    if HasPorts(row) then
      && |ports| == |row.ethPorts|
      && forall k :: 0 <= k < |ports| ==>
           && ports[k].port == row.ethPorts[k].index
           && ports[k].admin == row.ethPorts[k].adminState && ports[k].link == row.ethPorts[k].linkState
           && ports[k].speed == row.ethPorts[k].speedMbps
           && (row.ethPorts[k].duplex == "unknown" ==> ports[k].duplex == "")
           && (row.ethPorts[k].duplex != "unknown" ==> ports[k].duplex == row.ethPorts[k].duplex)
    else ports == []
  }

  /** The link column is up when some port is, else down when some port is, else empty. */
  predicate LinkTaken(link: string, row: InventoryRow) {
    && (link == "up" || link == "down" || link == "")
    && (link == "up" <==> HasPorts(row) && exists k :: 0 <= k < |row.ethPorts| && row.ethPorts[k].linkState == "up")
    && (link == "" <==>
          !HasPorts(row)
          || forall k :: 0 <= k < |row.ethPorts| ==>
               row.ethPorts[k].linkState != "up" && row.ethPorts[k].linkState != "down")
  }

  predicate TakenFrom(s: Sample, row: InventoryRow, at: int, device: string) {
    && s.time == at && s.device == device && s.serial == row.serial
    && s.board == row.board && s.pon == row.pon && s.onu == row.id
    && s.name == row.name && s.onuType == row.onuType && s.status == row.status
    && PortsTaken(s.ethPorts, row) && LinkTaken(s.ethLink, row)
  }

  /** One sample for each row, in order. */
  predicate AllTaken(samples: seq<Sample>, rows: seq<InventoryRow>, at: int, device: string) {
    |samples| == |rows| && forall i :: 0 <= i < |rows| ==> TakenFrom(samples[i], rows[i], at, device)
  }

  /** The administrative column likewise; the speed column is that of the first port that is up and has one. */
  predicate AdminTaken(admin: string, row: InventoryRow) {
    && (admin == "enabled" || admin == "disabled" || admin == "")
    && (admin == "enabled" <==>
          HasPorts(row) && exists k :: 0 <= k < |row.ethPorts| && row.ethPorts[k].adminState == "enabled")
    && (admin == "" <==>
          !HasPorts(row)
          || forall k :: 0 <= k < |row.ethPorts| ==>
               row.ethPorts[k].adminState != "enabled" && row.ethPorts[k].adminState != "disabled")
  }

  predicate Rated(p: Ethernet.UniPort) {
    p.linkState == "up" && p.speedMbps != None
  }

  predicate SpeedTaken(speed: Option<int>, row: InventoryRow) {
    if HasPorts(row) && exists k :: 0 <= k < |row.ethPorts| && Rated(row.ethPorts[k]) then
      exists k :: 0 <= k < |row.ethPorts| && Rated(row.ethPorts[k]) && speed == row.ethPorts[k].speedMbps
                  && forall j :: 0 <= j < k ==> !Rated(row.ethPorts[j])
    else speed == None
  }

  // ----- samples -----

  /** Ports are taken over only from a status that has them; an unknown duplex becomes empty. */
  function EthPorts(row: InventoryRow): (ports: seq<EthPort>)
    ensures row.ethStatus != "ok" && row.ethStatus != "partial" ==> ports == []
    ensures row.ethStatus == "ok" || row.ethStatus == "partial" ==> |ports| == |row.ethPorts|
  {
    if row.ethStatus != "ok" && row.ethStatus != "partial" then []
    else
      seq(|row.ethPorts|, i requires 0 <= i < |row.ethPorts| =>
        var p := row.ethPorts[i];
        EthPort(p.index, p.adminState, p.linkState, p.speedMbps, if p.duplex == "unknown" then "" else p.duplex))
  }

  function SampleOf(at: int, device: string, row: InventoryRow): Sample {
    Sample(at, device, row.serial, row.board, row.pon, row.id, row.name, row.onuType, row.status, EthPorts(row), 0,
           SummaryOf(row).link)
  }

  function SamplesOf(at: int, device: string, rows: seq<InventoryRow>): (r: seq<Sample>)
    ensures |r| == |rows| && forall i :: 0 <= i < |r| ==> r[i] == SampleOf(at, device, rows[i])
  {
    if rows == [] then [] else SamplesOf(at, device, rows[..|rows| - 1]) + [SampleOf(at, device, rows[|rows| - 1])]
  }

  /** The summary columns of one sample. */
  datatype Summary = Summary(link: string, admin: string, speed: Option<int>)

  predicate HasLink(list: seq<Ethernet.UniPort>, state: string) {
    exists i :: 0 <= i < |list| && list[i].linkState == state
  }

  predicate HasAdmin(list: seq<Ethernet.UniPort>, state: string) {
    exists i :: 0 <= i < |list| && list[i].adminState == state
  }

  predicate UpWithSpeed(p: Ethernet.UniPort) {
    p.linkState == "up" && p.speedMbps.Some?
  }

  function FirstSpeed(list: seq<Ethernet.UniPort>): (r: Option<int>)
    ensures r == None ==> forall i :: 0 <= i < |list| ==> !UpWithSpeed(list[i])
    ensures r.Some? ==> exists i :: 0 <= i < |list| && UpWithSpeed(list[i]) && list[i].speedMbps == r
                                    && forall k :: 0 <= k < i ==> !UpWithSpeed(list[k])
  {
    if list == [] then None
    else if UpWithSpeed(list[0]) then list[0].speedMbps
    else FirstSpeed(list[1..])
  }

  /** One port up makes the ONU up, else one port down makes it down; the administrative state likewise; the
      speed is that of the first port that is up and reports one. */
  function Summarize(list: seq<Ethernet.UniPort>): Summary {
    Summary(if HasLink(list, "up") then "up" else if HasLink(list, "down") then "down" else "",
            if HasAdmin(list, "enabled") then "enabled" else if HasAdmin(list, "disabled") then "disabled" else "",
            FirstSpeed(list))
  }

  function SummaryOf(row: InventoryRow): Summary {
    if row.ethStatus == "ok" || row.ethStatus == "partial" then Summarize(row.ethPorts) else Summary("", "", None)
  }

  lemma {:induction false} HasOneMore(list: seq<Ethernet.UniPort>, p: Ethernet.UniPort, state: string)
    ensures HasLink(list + [p], state) <==> HasLink(list, state) || p.linkState == state
    ensures HasAdmin(list + [p], state) <==> HasAdmin(list, state) || p.adminState == state
  {
    var all := list + [p];
    assert all[|list|] == p;
    assert forall i :: 0 <= i < |list| ==> all[i] == list[i];
  }

  lemma {:induction false} SpeedOneMore(list: seq<Ethernet.UniPort>, p: Ethernet.UniPort)
    ensures FirstSpeed(list + [p]) ==
            if FirstSpeed(list).Some? then FirstSpeed(list) else if UpWithSpeed(p) then p.speedMbps else None
  {
    if list != [] {
      assert (list + [p])[1..] == list[1..] + [p];
      SpeedOneMore(list[1..], p);
    }
  }

  lemma {:induction false} SummarizeOneMore(list: seq<Ethernet.UniPort>, p: Ethernet.UniPort)
    ensures var was, now := Summarize(list), Summarize(list + [p]);
            && now.link == (if p.linkState == "up" then "up" else if p.linkState == "down" && was.link == "" then "down"
                            else was.link)
            && now.admin == (if p.adminState == "enabled" then "enabled"
                             else if p.adminState == "disabled" && was.admin == "" then "disabled" else was.admin)
            && now.speed == if was.speed.Some? then was.speed else if UpWithSpeed(p) then p.speedMbps else None
  {
    hide HasLink, HasAdmin, FirstSpeed, UpWithSpeed;
    HasOneMore(list, p, "up");
    HasOneMore(list, p, "down");
    HasOneMore(list, p, "enabled");
    HasOneMore(list, p, "disabled");
    SpeedOneMore(list, p);
  }

  predicate SummaryTaken(summary: Summary, row: InventoryRow) {
    LinkTaken(summary.link, row) && AdminTaken(summary.admin, row) && SpeedTaken(summary.speed, row)
  }

  lemma {:induction false} SummaryIsTaken(row: InventoryRow)
    ensures PortsTaken(EthPorts(row), row) && SummaryTaken(SummaryOf(row), row)
  {
    hide PortsTaken, LinkTaken, AdminTaken, SpeedTaken, SummaryOf, EthPorts;
    PortsAreTaken(row);
    LinkIsTaken(row);
    AdminIsTaken(row);
    SpeedIsTaken(row);
  }

  lemma {:induction false} PortsAreTaken(row: InventoryRow)
    ensures PortsTaken(EthPorts(row), row)
  {
  }

  lemma {:induction false} LinkIsTaken(row: InventoryRow)
    ensures LinkTaken(SummaryOf(row).link, row)
  {
    hide HasAdmin, FirstSpeed;
  }

  lemma {:induction false} AdminIsTaken(row: InventoryRow)
    ensures AdminTaken(SummaryOf(row).admin, row)
  {
    hide HasLink, FirstSpeed;
  }

  lemma {:induction false} SpeedIsTaken(row: InventoryRow)
    ensures SpeedTaken(SummaryOf(row).speed, row)
  {
    hide HasAdmin, HasLink, FirstSpeed;
    SpeedFirst(row.ethPorts);
  }

  lemma {:induction false} SpeedFirst(list: seq<Ethernet.UniPort>)
    ensures if exists k :: 0 <= k < |list| && Rated(list[k]) then
              exists k :: 0 <= k < |list| && Rated(list[k]) && FirstSpeed(list) == list[k].speedMbps
                          && forall j :: 0 <= j < k ==> !Rated(list[j])
            else FirstSpeed(list) == None
  {
    if k :| 0 <= k < |list| && Rated(list[k]) {
      assert UpWithSpeed(list[k]);
    }
    assert forall k :: 0 <= k < |list| ==> (UpWithSpeed(list[k]) <==> Rated(list[k]));
  }

  lemma {:induction false} SampleTaken(at: int, device: string, row: InventoryRow)
    ensures TakenFrom(SampleOf(at, device, row), row, at, device)
  {
    SummaryIsTaken(row);
    hide PortsTaken, LinkTaken, SummaryOf, EthPorts;
  }

  method ApplyEthernet(row: InventoryRow) returns (ports: seq<EthPort>, summary: Summary)
    ensures PortsTaken(ports, row) && SummaryTaken(summary, row)
    ensures ports == EthPorts(row)
    ensures summary == SummaryOf(row)
  {
    hide Summarize, PortsTaken, SummaryTaken;
    SummaryIsTaken(row);
    ports, summary := [], Summary("", "", None);
    if row.ethStatus != "ok" && row.ethStatus != "partial" {
      assert EthPorts(row) == [];
      return;
    }
    var list := row.ethPorts;
    NothingToSummarize();
    for i := 0 to |list|
      invariant ports == EthPorts(row)[..i]
      invariant summary == Summarize(list[..i])
    {
      var port := list[i];
      assert list[..i + 1] == list[..i] + [port];
      SummarizeOneMore(list[..i], port);
      ports := ports + [EthPort(port.index, port.adminState, port.linkState, port.speedMbps,
                                if port.duplex == "unknown" then "" else port.duplex)];
      if port.linkState == "up" {
        summary := summary.(link := "up");
        if summary.speed == None && port.speedMbps.Some? {
          summary := summary.(speed := port.speedMbps);
        }
      } else if port.linkState == "down" {
        if summary.link == "" {
          summary := summary.(link := "down");
        }
      }
      if port.adminState == "enabled" {
        summary := summary.(admin := "enabled");
      } else if port.adminState == "disabled" {
        if summary.admin == "" {
          summary := summary.(admin := "disabled");
        }
      }
    }
    assert list[..|list|] == list && EthPorts(row)[..|list|] == EthPorts(row);
  }

  lemma {:induction false} NothingToSummarize()
    ensures Summarize([]) == Summary("", "", None)
  {
  }

  // ----- visits and what they add up to -----

  /** One visited PON: when, what it reported, how it ended, and how many units were left after it. */
  datatype Visit = Visit(board: int, pon: int, at: int, samples: seq<Sample>, outcome: Outcome, left: int)

  function UnitsOf(visits: seq<Visit>): seq<(int, int)> {
    if visits == [] then []
    else UnitsOf(visits[..|visits| - 1]) + [(visits[|visits| - 1].board, visits[|visits| - 1].pon)]
  }

  /** Samples whose transitions were recorded. */
  function Logged(visits: seq<Visit>): seq<Sample> {
    if visits == [] then []
    else
      var v := visits[|visits| - 1];
      Logged(visits[..|visits| - 1]) + if v.outcome.Logged() then v.samples else []
  }

  /** Samples stored. */
  function Kept(visits: seq<Visit>): seq<Sample> {
    if visits == [] then []
    else
      var v := visits[|visits| - 1];
      Kept(visits[..|visits| - 1]) + if v.outcome.Kept() then v.samples else []
  }

  function Sampled(visits: seq<Visit>): int {
    if visits == [] then 0
    else
      var v := visits[|visits| - 1];
      Sampled(visits[..|visits| - 1]) + if v.outcome.Stored() then |v.samples| else 0
  }

  function Successes(visits: seq<Visit>): int {
    if visits == [] then 0
    else Successes(visits[..|visits| - 1]) + if visits[|visits| - 1].outcome.Stored() then 1 else 0
  }

  /** A run's total never exceeds the samples it stored, and equals them exactly when no visit that found
      ONUs failed in its last write. */
  lemma {:induction false} TotalIsStoredIff(visits: seq<Visit>)
    ensures Sampled(visits) <= |Kept(visits)|
    ensures Sampled(visits) == |Kept(visits)| <==> forall v :: v in visits && v.outcome == Collected(UpsertRefused) ==>
            v.samples == []
  {
    if visits != [] {
      var front, last := visits[..|visits| - 1], visits[|visits| - 1];
      TotalIsStoredIff(front);
      assert visits == front + [last];
      assert last in visits;
    }
  }

  /** One visit whose ONU rows were refused after its sample was stored. */
  lemma {:induction false} StoredNotCounted(v: Visit)
    requires v.outcome == Collected(UpsertRefused) && v.samples != []
    ensures Sampled([v]) == 0 < |Kept([v])|
  {
    assert [v][..0] == [];
    assert v in [v];
    TotalIsStoredIff([v]);
    assert Sampled([v][..0]) == 0;
  }

  /** Unless an insert is refused, the samples recorded as transitions are the samples stored. */
  lemma {:induction false} LoggedIsStored(visits: seq<Visit>)
    requires forall v :: v in visits ==> v.outcome != Collected(InsertRefused)
    ensures Logged(visits) == Kept(visits)
  {
    if visits != [] {
      assert visits[|visits| - 1] in visits;
      LoggedIsStored(visits[..|visits| - 1]);
    }
  }

  lemma {:induction false} OneMoreVisit(visits: seq<Visit>, v: Visit)
    ensures var all := visits + [v];
            && UnitsOf(all) == UnitsOf(visits) + [(v.board, v.pon)]
            && Logged(all) == Logged(visits) + (if v.outcome.Logged() then v.samples else [])
            && Kept(all) == Kept(visits) + (if v.outcome.Kept() then v.samples else [])
            && Sampled(all) == Sampled(visits) + (if v.outcome.Stored() then |v.samples| else 0)
            && Successes(all) == Successes(visits) + if v.outcome.Stored() then 1 else 0
  {
    assert (visits + [v])[..|visits|] == visits;
  }

  /** Visits one after the other in a stretch of time, each sample carrying the time of its visit. */
  predicate Timely(visits: seq<Visit>, since: int, now: int) {
    && (forall i :: 0 <= i < |visits| ==> since < visits[i].at <= now && SampledAt(visits[i]))
    && (forall i, j :: 0 <= i < j < |visits| ==> visits[i].at < visits[j].at)
  }

  predicate SampledAt(v: Visit) {
    forall k :: 0 <= k < |v.samples| ==> v.samples[k].time == v.at
  }

  lemma {:induction false} TimelyConcat(a: seq<Visit>, b: seq<Visit>, since: int, mid: int, start: int, now: int)
    requires Timely(a, since, mid) && Timely(b, start, now) && since <= mid <= start <= now
    ensures Timely(a + b, since, now)
  {
    hide SampledAt;
  }

  lemma {:induction false} LoggedConcat(a: seq<Visit>, b: seq<Visit>)
    ensures Logged(a + b) == Logged(a) + Logged(b)
  {
    if b == [] {
      assert a + b == a;
    } else {
      var front, v := b[..|b| - 1], b[|b| - 1];
      LoggedConcat(a, front);
      assert (a + b)[..|a + b| - 1] == a + front;
      Associate(Logged(a), Logged(front), if v.outcome.Logged() then v.samples else []);
    }
  }

  lemma {:induction false} KeptConcat(a: seq<Visit>, b: seq<Visit>)
    ensures Kept(a + b) == Kept(a) + Kept(b)
  {
    if b == [] {
      assert a + b == a;
    } else {
      var front, v := b[..|b| - 1], b[|b| - 1];
      KeptConcat(a, front);
      assert (a + b)[..|a + b| - 1] == a + front;
      Associate(Kept(a), Kept(front), if v.outcome.Kept() then v.samples else []);
    }
  }
}
