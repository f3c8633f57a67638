/** The durable store computes the duplicate report from a grouped query that keeps, in scope current, only
    the samples of the latest run, and drops serials with a single position before assembling. */
module DuplicateQuery {
  import opened Events
  import opened Runs
  import opened Duplicates

  /** No finished run at all, or one whose id and times are set. */
  predicate ValidLatest(latest: Run) {
    latest == NO_RUN || (latest.id != 0 && latest.startedAt != 0 && latest.finishedAt.Some?
                         && latest.finishedAt.value != 0)
  }

  /** $2 IS NOT NULL AND time >= $2 AND time <= $3, where a zero time is passed as NULL. */
  predicate InWindow(t: int, latest: Run) {
    latest.finishedAt.Some? && latest.startedAt != 0 && latest.finishedAt.value != 0
    && latest.startedAt <= t <= latest.finishedAt.value
  }

  /** WHERE device_id = $1 AND serial <> '' AND (scope is history OR in window), grouped by position. */
  predicate Selects(s: Sample, device: string, latest: Run, scope: string, k: Key) {
    && s.device == device && s.serial != "" && (scope == "history" || InWindow(s.time, latest))
    && k == Key(s.serial, s.board, s.pon, s.onu)
  }

  function Group(samples: seq<Sample>, device: string, latest: Run, scope: string, k: Key): seq<Sample> {
    if samples == [] then []
    else
      var s := samples[|samples| - 1];
      var before := Group(samples[..|samples| - 1], device, latest, scope, k);
      if Selects(s, device, latest, scope, k) then before + [s] else before
  }

  /** The aggregates of one group. Status and name each come from some newest sample. */
  ghost predicate Aggregates(p: Position, of: seq<Sample>, latest: Run) {
    && p.samples == |of|
    && (p.inLatest <==> exists i :: 0 <= i < |of| && InWindow(of[i].time, latest))
    && (forall i :: 0 <= i < |of| ==> of[i].time <= p.lastSeen)
    && (exists i :: 0 <= i < |of| && of[i].time == p.lastSeen && of[i].status == p.status)
    && (exists i :: 0 <= i < |of| && of[i].time == p.lastSeen && of[i].name == p.name)
  }

  /** The common table expression `pos`. */
  ghost predicate PosTable(samples: seq<Sample>, device: string, latest: Run, scope: string, pos: map<Key, Position>) {
    && Duplicates.Keyed(pos)
    && (forall k :: k in pos <==> Group(samples, device, latest, scope, k) != [])
    && (forall k :: k in pos ==> Aggregates(pos[k], Group(samples, device, latest, scope, k), latest))
  }

  predicate Having(pos: map<Key, Position>, serial: string) {
    |KeysOf(pos, serial)| > 1 || |CurrentKeys(pos, serial)| > 1
  }

  /** WHERE serial IN (SELECT serial FROM pos GROUP BY serial HAVING ...). */
  function Picked(pos: map<Key, Position>): map<Key, Position> {
    map k | k in pos && Having(pos, k.serial) :: pos[k]
  }

  ghost predicate QueryReport(samples: seq<Sample>, device: string, latest: Run, scope: string, r: DuplicateList) {
    if EffectiveScope(scope) == "current" && latest.id == 0 then r == DuplicateList("current", 0, 0, 0, 0, [])
    else
      exists pos ::
        && PosTable(samples, device, latest, EffectiveScope(scope), pos)
        && Assembled(Picked(pos), device, latest, scope, r)
  }

  lemma {:induction false} NothingDisplayed()
    ensures Displayed(DuplicateList("current", 0, 0, 0, 0, []))
  {
  }

  /** The Go side of the query: early return, then scan the rows and assemble. */
  method ListDuplicateSerials(samples: seq<Sample>, deviceID: string, latest: Run, scope: string, rows: seq<PosRow>,
                              ghost pos: map<Key, Position>)
    returns (out: DuplicateList)
    requires PosTable(samples, deviceID, latest, EffectiveScope(scope), pos)
             && Lists(Picked(pos), Picked(pos).Keys, rows)
    ensures QueryReport(samples, deviceID, latest, scope, out) && Displayed(out)
  {
    hide Displayed;
    NothingDisplayed();
    var eff := NormalizeScope(scope);
    if eff == "" {
      eff := "current";
    }
    if eff == "current" && latest.id == 0 {
      return DuplicateList(eff, 0, 0, 0, 0, []);
    }
    var acc: seq<PosRow> := [];
    for n := 0 to |rows|
      invariant acc == rows[..n]
    {
      acc := acc + [rows[n]];
    }
    assert acc == rows;
    out := AssembleDuplicateSerials(deviceID, latest, scope, acc, Picked(pos));
  }
}
