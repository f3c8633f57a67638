/** The duplicate-serial report in terms of the stored samples. */
module DuplicateReport {
  import opened Text
  import opened Events
  import opened Runs
  import opened Ordering
  import opened Duplicates

  /** The sample puts a serial, blanks around it aside, at a position of the device, or of any when none is named. */
  predicate At(s: Sample, device: string, serial: string, board: int, pon: int, onu: int) {
    && TrimSpace(s.serial) == serial && (device != "" ==> s.device == device)
    && s.board == board && s.pon == pon && s.onu == onu
  }

  predicate During(t: int, latest: Run) {
    && latest.id != 0 && latest.startedAt != 0 && latest.startedAt <= t
    && (latest.finishedAt.Some? ==> t <= latest.finishedAt.value)
  }

  ghost function Sightings(samples: seq<Sample>, device: string, serial: string, board: int, pon: int,
                           onu: int): set<int> {
    set i | 0 <= i < |samples| && At(samples[i], device, serial, board, pon, onu)
  }

  /** The first sighting with the greatest time. */
  ghost predicate LastSighting(samples: seq<Sample>, device: string, serial: string, p: Position, i: int) {
    && i in Sightings(samples, device, serial, p.board, p.pon, p.onu) && samples[i].time == p.lastSeen
    && forall j :: j in Sightings(samples, device, serial, p.board, p.pon, p.onu) ==>
         samples[j].time <= p.lastSeen && (j < i ==> samples[j].time < p.lastSeen)
  }

  /** A position has the number of its sightings, the time, name and status of the last one, and is current when one of
      them lies in the latest run. */
  ghost predicate PositionShows(samples: seq<Sample>, device: string, latest: Run, serial: string, p: Position) {
    var seen := Sightings(samples, device, serial, p.board, p.pon, p.onu);
    && p.samples == |seen| > 0
    && (p.inLatest <==> exists i :: i in seen && During(samples[i].time, latest))
    && (p.lastSeen > 0 ==>
          exists i :: LastSighting(samples, device, serial, p, i)
                      && samples[i].name == p.name && samples[i].status == p.status)
  }

  /** Two of the samples put the serial at different positions, in the latest run for the current scope. */
  ghost predicate SeenTwice(samples: seq<Sample>, device: string, latest: Run, scope: string, serial: string) {
    exists i, j :: 0 <= i < |samples| && 0 <= j < |samples|
                   && Counts(samples[i], device, latest, scope, serial)
                   && Counts(samples[j], device, latest, scope, serial)
                   && Place(samples[i]) != Place(samples[j])
  }

  predicate Counts(s: Sample, device: string, latest: Run, scope: string, serial: string) {
    && TrimSpace(s.serial) == serial && (device != "" ==> s.device == device)
    && (scope == "current" ==> During(s.time, latest))
  }

  function Place(s: Sample): (int, int, int) {
    (s.board, s.pon, s.onu)
  }

  /** The report lists exactly the non-blank serials seen twice, each with exactly the positions it was seen at. */
  ghost predicate Reports(samples: seq<Sample>, device: string, latest: Run, r: DuplicateList) {
    && (forall serial :: serial != "" ==>
          (SeenTwice(samples, device, latest, r.scope, serial) <==> exists d :: d in r.serials && d.serial == serial))
    && (forall d :: d in r.serials ==>
          && d.serial != "" && d.device == device
          && (forall p :: p in d.positions ==> PositionShows(samples, device, latest, d.serial, p))
          && (forall i :: 0 <= i < |samples| && TrimSpace(samples[i].serial) == d.serial
                          && (device != "" ==> samples[i].device == device) ==>
                exists p :: p in d.positions && Place(samples[i]) == (p.board, p.pon, p.onu)))
  }

  // ----- rows -----

  lemma {:induction false} AtIsOf(s: Sample, device: string, k: Key)
    requires k.serial != ""
    ensures At(s, device, k.serial, k.board, k.pon, k.onu) <==> Counted(s, device) && KeyOf(s) == k
  {
    hide TrimSpace;
  }

  lemma {:induction false} SightingsCount(samples: seq<Sample>, device: string, k: Key)
    requires k.serial != ""
    ensures |Sightings(samples, device, k.serial, k.board, k.pon, k.onu)| == |Of(samples, device, k)|
  {
    hide At, Counted, KeyOf;
    if samples == [] {
      assert Sightings(samples, device, k.serial, k.board, k.pon, k.onu) == {};
    } else {
      var front, n := samples[..|samples| - 1], |samples| - 1;
      SightingsCount(front, device, k);
      AtIsOf(samples[n], device, k);
      var was := Sightings(front, device, k.serial, k.board, k.pon, k.onu);
      var now := Sightings(samples, device, k.serial, k.board, k.pon, k.onu);
      assert n !in was;
      assert now == if At(samples[n], device, k.serial, k.board, k.pon, k.onu) then was + {n} else was;
    }
  }

  /** Every element of the filtered samples is a sighting, in order, and every sighting is there. */
  lemma {:induction false} OfPlaces(samples: seq<Sample>, device: string, k: Key, m: nat)
    requires k.serial != "" && m < |Of(samples, device, k)|
    ensures exists i :: i in Sightings(samples, device, k.serial, k.board, k.pon, k.onu)
                        && samples[i] == Of(samples, device, k)[m] && Before(samples, device, k, i) == m
  {
    hide At, Counted, KeyOf;
    var front, n := samples[..|samples| - 1], |samples| - 1;
    AtIsOf(samples[n], device, k);
    if m < |Of(front, device, k)| {
      OfPlaces(front, device, k, m);
      var i :| i in Sightings(front, device, k.serial, k.board, k.pon, k.onu)
               && front[i] == Of(front, device, k)[m] && Before(front, device, k, i) == m;
      assert samples[i] == front[i] && samples[..i] == front[..i];
    } else {
      assert samples[..n] == front;
    }
  }

  /** How many of the filtered samples come before a place. */
  ghost function Before(samples: seq<Sample>, device: string, k: Key, i: int): nat
    requires 0 <= i <= |samples|
  {
    |Of(samples[..i], device, k)|
  }

  lemma {:induction false} SightingIn(samples: seq<Sample>, device: string, k: Key, i: int)
    requires k.serial != "" && i in Sightings(samples, device, k.serial, k.board, k.pon, k.onu)
    ensures Before(samples, device, k, i) < |Of(samples, device, k)|
    ensures Of(samples, device, k)[Before(samples, device, k, i)] == samples[i]
  {
    hide At, Counted, KeyOf;
    var front, n := samples[..|samples| - 1], |samples| - 1;
    AtIsOf(samples[n], device, k);
    if i < n {
      assert samples[..i] == front[..i] && front[i] == samples[i];
      SightingIn(front, device, k, i);
    } else {
      assert samples[..n] == front;
    }
  }

  lemma {:induction false} BeforeLess(samples: seq<Sample>, device: string, k: Key, i: int, j: int)
    requires k.serial != "" && 0 <= i < j <= |samples| && At(samples[i], device, k.serial, k.board, k.pon, k.onu)
    ensures Before(samples, device, k, i) < Before(samples, device, k, j)
    decreases j
  {
    hide At, Counted, KeyOf;
    AtIsOf(samples[j - 1], device, k);
    assert samples[..j][..j - 1] == samples[..j - 1];
    if i < j - 1 {
      BeforeLess(samples, device, k, i, j - 1);
    }
  }

  lemma {:induction false} RowShown(samples: seq<Sample>, device: string, latest: Run, k: Key)
    requires k in Acc(samples, device, latest)
    ensures PositionShows(samples, device, latest, k.serial, Acc(samples, device, latest)[k])
  {
    hide Acc, At, Of;
    var of, p := Of(samples, device, k), Acc(samples, device, latest)[k];
    var seen := Sightings(samples, device, k.serial, k.board, k.pon, k.onu);
    RowsAreExact(samples, device, latest, k);
    SightingsCount(samples, device, k);
    if exists m :: 0 <= m < |of| && InLatestRun(of[m].time, latest) {
      var m :| 0 <= m < |of| && InLatestRun(of[m].time, latest);
      OfPlaces(samples, device, k, m);
      var i :| i in seen && samples[i] == of[m];
      assert During(samples[i].time, latest);
    }
    if i :| i in seen && During(samples[i].time, latest) {
      SightingIn(samples, device, k, i);
      assert InLatestRun(of[Before(samples, device, k, i)].time, latest);
    }
    if p.lastSeen > 0 {
      var m :| 0 <= m < |of| && FirstMax(p, of, m);
      OfPlaces(samples, device, k, m);
      var i :| i in seen && samples[i] == of[m] && Before(samples, device, k, i) == m;
      forall j | j in seen
        ensures samples[j].time <= p.lastSeen && (j < i ==> samples[j].time < p.lastSeen)
      {
        SightingIn(samples, device, k, j);
        if j < i {
          BeforeLess(samples, device, k, j, i);
        }
      }
      assert LastSighting(samples, device, k.serial, p, i);
    }
  }

  // ----- the report -----

  lemma {:induction false} SampleRow(samples: seq<Sample>, device: string, latest: Run, i: int)
    requires 0 <= i < |samples| && TrimSpace(samples[i].serial) != "" && (device != "" ==> samples[i].device == device)
    ensures KeyOf(samples[i]) in Acc(samples, device, latest)
    ensures During(samples[i].time, latest) ==> Acc(samples, device, latest)[KeyOf(samples[i])].inLatest
  {
    hide TrimSpace, Acc, Of;
    var k := KeyOf(samples[i]);
    RowsAreExact(samples, device, latest, k);
    assert i in Sightings(samples, device, k.serial, k.board, k.pon, k.onu);
    SightingIn(samples, device, k, i);
    assert InLatestRun(samples[i].time, latest) <==> During(samples[i].time, latest);
  }

  lemma {:induction false} RowSample(samples: seq<Sample>, device: string, latest: Run, k: Key)
    requires k in Acc(samples, device, latest)
    ensures exists i :: 0 <= i < |samples| && Counts(samples[i], device, latest, "history", k.serial)
                        && Place(samples[i]) == (k.board, k.pon, k.onu)
    ensures Acc(samples, device, latest)[k].inLatest ==>
              exists i :: 0 <= i < |samples| && Counts(samples[i], device, latest, "current", k.serial)
                          && Place(samples[i]) == (k.board, k.pon, k.onu)
  {
    hide TrimSpace, Acc, During;
    RowShown(samples, device, latest, k);
    var p := Acc(samples, device, latest)[k];
    var seen := Sightings(samples, device, k.serial, k.board, k.pon, k.onu);
    assert seen != {};
    var i :| i in seen;
    assert Counts(samples[i], device, latest, "history", k.serial);
    if p.inLatest {
      var j :| j in seen && During(samples[j].time, latest);
      assert Counts(samples[j], device, latest, "current", k.serial);
    }
  }

  lemma {:induction false} TwoKeys(keys: set<Key>, a: Key, b: Key)
    requires a in keys && b in keys && a != b
    ensures |keys| > 1
  {
    assert {a, b} <= keys;
    SubsetSize({a, b}, keys);
  }

  lemma {:induction false} SubsetSize<T>(small: set<T>, large: set<T>)
    requires small <= large
    ensures |small| <= |large|
  {
    assert large == small + (large - small);
  }

  lemma {:induction false} TwoOf(keys: set<Key>) returns (a: Key, b: Key)
    requires |keys| > 1
    ensures a in keys && b in keys && a != b
  {
    a :| a in keys;
    assert |keys - {a}| == |keys| - 1;
    b :| b in keys - {a};
  }

  lemma {:induction false} KeptIffSeenTwice(samples: seq<Sample>, device: string, latest: Run, scope: string,
                                            serial: string)
    requires serial != "" && (scope == "current" || scope == "history")
    ensures Kept(Acc(samples, device, latest), scope, serial) <==> SeenTwice(samples, device, latest, scope, serial)
  {
    hide TrimSpace, Acc, During;
    var acc := Acc(samples, device, latest);
    var keys := if scope == "current" then CurrentKeys(acc, serial) else KeysOf(acc, serial);
    if SeenTwice(samples, device, latest, scope, serial) {
      var i, j :| 0 <= i < |samples| && 0 <= j < |samples|
                  && Counts(samples[i], device, latest, scope, serial)
                  && Counts(samples[j], device, latest, scope, serial) && Place(samples[i]) != Place(samples[j]);
      SampleRow(samples, device, latest, i);
      SampleRow(samples, device, latest, j);
      assert KeyOf(samples[i]) in keys && KeyOf(samples[j]) in keys;
      TwoKeys(keys, KeyOf(samples[i]), KeyOf(samples[j]));
    }
    if |keys| > 1 {
      var a, b := TwoOf(keys);
      RowSample(samples, device, latest, a);
      RowSample(samples, device, latest, b);
      var i :| 0 <= i < |samples| && Counts(samples[i], device, latest, scope, serial)
               && Place(samples[i]) == (a.board, a.pon, a.onu);
      var j :| 0 <= j < |samples| && Counts(samples[j], device, latest, scope, serial)
               && Place(samples[j]) == (b.board, b.pon, b.onu);
      assert SeenTwice(samples, device, latest, scope, serial);
    }
  }

  lemma {:induction false} EntryShown(samples: seq<Sample>, device: string, latest: Run, d: DuplicateSerial)
    requires ItemOf(Acc(samples, device, latest), device, d)
    ensures d.serial != "" && d.device == device
    ensures forall p :: p in d.positions ==> PositionShows(samples, device, latest, d.serial, p)
    ensures forall i :: 0 <= i < |samples| && TrimSpace(samples[i].serial) == d.serial
                        && (device != "" ==> samples[i].device == device) ==>
              exists p :: p in d.positions && Place(samples[i]) == (p.board, p.pon, p.onu)
  {
    hide TrimSpace, Acc, PositionShows, During, PosBefore;
    var acc := Acc(samples, device, latest);
    assert d.positions[0] in d.positions;
    forall p | p in d.positions ensures d.serial != "" && PositionShows(samples, device, latest, d.serial, p) {
      var k :| k in KeysOf(acc, d.serial) && acc[k] == p;
      RowShown(samples, device, latest, k);
    }
    forall i | 0 <= i < |samples| && TrimSpace(samples[i].serial) == d.serial
               && (device != "" ==> samples[i].device == device)
      ensures exists p :: p in d.positions && Place(samples[i]) == (p.board, p.pon, p.onu)
    {
      SampleRow(samples, device, latest, i);
      assert KeyOf(samples[i]) in KeysOf(acc, d.serial);
      assert acc[KeyOf(samples[i])] in d.positions;
    }
  }

  /** Main result: whatever was assembled from the rows of the samples reports the samples. */
  lemma {:induction false} AssembledReports(samples: seq<Sample>, device: string, latest: Run, scope: string,
                                            r: DuplicateList)
    requires Assembled(Acc(samples, device, latest), device, latest, scope, r)
    ensures Reports(samples, device, latest, r)
  {
    hide TrimSpace, Acc, PositionShows, ItemOf, Kept, SeenTwice, SerialBefore, Place, During;
    assert r.scope == "current" || r.scope == "history";
    forall d | d in r.serials
      ensures d.serial != "" && d.device == device
      ensures forall p :: p in d.positions ==> PositionShows(samples, device, latest, d.serial, p)
      ensures forall i :: 0 <= i < |samples| && TrimSpace(samples[i].serial) == d.serial
                          && (device != "" ==> samples[i].device == device) ==>
                exists p :: p in d.positions && Place(samples[i]) == (p.board, p.pon, p.onu)
    {
      EntryShown(samples, device, latest, d);
    }
    forall serial | serial != ""
      ensures SeenTwice(samples, device, latest, r.scope, serial) <==>
              exists d :: d in r.serials && d.serial == serial
    {
      KeptIffSeenTwice(samples, device, latest, r.scope, serial);
    }
  }
}
