/** Unconfigured ONUs: one list per device in memory, soft-deleted rows in the durable table. */
module Unauth {
  import opened Text

  datatype UnauthOnu = UnauthOnu(device: string, serial: string, board: int, pon: int, onuType: string,
                                 discoveryStatus: string, firstSeen: int, lastSeen: int, goneAt: Option<int>)

  datatype UnauthList = UnauthList(status: string, oid: string, message: string, observedAt: int, count: int,
                                   onus: seq<UnauthOnu>)

  datatype Discovery = Discovery(status: string, oid: string, message: string, observedAt: int, count: int)

  // ----- in memory -----

  function MemReplace(lists: map<string, UnauthList>, device: string, list: UnauthList): map<string, UnauthList> {
    if (list.status == "unsupported" || list.status == "unavailable") && list.onus == [] && device in lists then
      lists[device := list.(onus := lists[device].onus, count := |lists[device].onus|)]
    else
      lists[device := list]
  }

  function MemOnus(lists: map<string, UnauthList>, device: string): seq<UnauthOnu> {
    if device in lists then lists[device].onus else []
  }

  // ----- the table -----

  datatype UnauthDb = UnauthDb(discovery: map<string, Discovery>, rows: map<(string, string), UnauthOnu>)

  const NO_ROWS := UnauthDb(map[], map[])

  /** UPDATE ... SET gone_at WHERE device_id = device AND gone_at IS NULL. */
  function MarkGone(rows: map<(string, string), UnauthOnu>, device: string, at: int): map<(string, string), UnauthOnu> {
    map k | k in rows :: if k.0 == device && rows[k].goneAt.None? then rows[k].(goneAt := Some(at)) else rows[k]
  }

  /** INSERT ... ON CONFLICT (device_id, serial) DO UPDATE: first_seen_at is kept. */
  function UpsertUnauth(rows: map<(string, string), UnauthOnu>, device: string, o: UnauthOnu,
                        list: UnauthList): map<(string, string), UnauthOnu> {
    var key := (device, o.serial);
    var first := if key in rows then rows[key].firstSeen else list.observedAt;
    rows[key := UnauthOnu(device, o.serial, o.board, o.pon, o.onuType, list.status, first, list.observedAt, None)]
  }

  function UpsertAll(rows: map<(string, string), UnauthOnu>, device: string, onus: seq<UnauthOnu>,
                     list: UnauthList): map<(string, string), UnauthOnu> {
    if onus == [] then rows
    else UpsertUnauth(UpsertAll(rows, device, onus[..|onus| - 1], list), device, onus[|onus| - 1], list)
  }

  function Confirms(status: string): bool {
    status == "ok" || status == "empty"
  }

  function DbReplace(db: UnauthDb, device: string, list: UnauthList): UnauthDb {
    var rows := if Confirms(list.status) then MarkGone(db.rows, device, list.observedAt) else db.rows;
    UnauthDb(db.discovery[device := Discovery(list.status, list.oid, list.message, list.observedAt, list.count)],
             UpsertAll(rows, device, list.onus, list))
  }

  // ----- a replacement, row by row -----

  predicate LastEntry(onus: seq<UnauthOnu>, serial: string, i: int) {
    0 <= i < |onus| && onus[i].serial == serial && forall j :: i < j < |onus| ==> onus[j].serial != serial
  }

  /** The row of a serial: of the device's listed ONUs the place, type and status of the discovery, first seen when it
      was and last seen now; of the device's others gone since a confirmed discovery, unless gone before; of another
      device's as it was. */
  ghost predicate RowReplaced(was: map<(string, string), UnauthOnu>, device: string, list: UnauthList,
                              now: map<(string, string), UnauthOnu>, k: (string, string))
  {
    if k.0 == device && exists i :: LastEntry(list.onus, k.1, i) then
      exists i :: LastEntry(list.onus, k.1, i) && k in now
                  && now[k].device == device && now[k].serial == k.1
                  && now[k].board == list.onus[i].board && now[k].pon == list.onus[i].pon
                  && now[k].onuType == list.onus[i].onuType && now[k].discoveryStatus == list.status
                  && now[k].firstSeen == (if k in was then was[k].firstSeen else list.observedAt)
                  && now[k].lastSeen == list.observedAt && now[k].goneAt == None
    else
      && (k in now <==> k in was)
      && (k in was ==> now[k] == was[k].(goneAt := now[k].goneAt))
      && (k in was && k.0 == device && (list.status == "ok" || list.status == "empty") && was[k].goneAt == None ==>
            now[k].goneAt == Some(list.observedAt))
      && (k in was && (k.0 != device || (list.status != "ok" && list.status != "empty") || was[k].goneAt != None) ==>
            now[k].goneAt == was[k].goneAt)
  }

  /** The head of the discovery is stored for the device, and every row is as it should be. */
  ghost predicate Replaced(was: UnauthDb, device: string, list: UnauthList, now: UnauthDb) {
    && device in now.discovery
    && now.discovery[device].status == list.status && now.discovery[device].oid == list.oid
    && now.discovery[device].message == list.message && now.discovery[device].observedAt == list.observedAt
    && now.discovery[device].count == list.count
    && (forall d :: d != device ==>
          (d in now.discovery <==> d in was.discovery)
          && (d in was.discovery ==> now.discovery[d] == was.discovery[d]))
    && (forall k :: RowReplaced(was.rows, device, list, now.rows, k))
  }

  lemma {:induction false} UpsertedRow(rows: map<(string, string), UnauthOnu>, device: string, onus: seq<UnauthOnu>,
                                       list: UnauthList, k: (string, string))
    ensures var now := UpsertAll(rows, device, onus, list);
            if k.0 == device && exists i :: LastEntry(onus, k.1, i) then
              exists i :: LastEntry(onus, k.1, i) && k in now
                          && now[k] == UnauthOnu(device, k.1, onus[i].board, onus[i].pon, onus[i].onuType, list.status,
                                                 if k in rows then rows[k].firstSeen else list.observedAt,
                                                 list.observedAt, None)
            else (k in now <==> k in rows) && (k in rows ==> now[k] == rows[k])
  {
    if onus != [] {
      var front, last := onus[..|onus| - 1], onus[|onus| - 1];
      UpsertedRow(rows, device, front, list, k);
      if k == (device, last.serial) {
        assert LastEntry(onus, k.1, |onus| - 1);
      } else if k.0 == device {
        SameEntries(onus, k.1);
        if i :| LastEntry(front, k.1, i) {
          assert LastEntry(onus, k.1, i) && onus[i] == front[i];
        }
        if i :| LastEntry(onus, k.1, i) {
          assert LastEntry(front, k.1, i);
        }
      }
    }
  }

  lemma {:induction false} SameEntries(onus: seq<UnauthOnu>, serial: string)
    requires onus != [] && onus[|onus| - 1].serial != serial
    ensures forall i :: LastEntry(onus, serial, i) <==> LastEntry(onus[..|onus| - 1], serial, i)
  {
  }

  lemma {:induction false} ReplaceMeans(db: UnauthDb, device: string, list: UnauthList)
    ensures Replaced(db, device, list, DbReplace(db, device, list))
  {
    hide LastEntry, UpsertAll;
    var marked := if Confirms(list.status) then MarkGone(db.rows, device, list.observedAt) else db.rows;
    forall k: (string, string) ensures RowReplaced(db.rows, device, list, DbReplace(db, device, list).rows, k) {
      UpsertedRow(marked, device, list.onus, list, k);
    }
  }

  // ----- runs of discoveries -----

  /** A list the collector builds: a confirmed status with any remaining ONUs, each serial once and every
      field copied from the discovery, or a failure with none. */
  predicate Collected(device: string, list: UnauthList) {
    && (list.status == "ok" || list.status == "empty" || list.status == "unsupported" || list.status == "unavailable")
    && (!Confirms(list.status) ==> list.onus == [])
    && (forall i :: 0 <= i < |list.onus| ==>
          var o := list.onus[i];
          o == UnauthOnu(device, o.serial, o.board, o.pon, o.onuType, list.status, list.observedAt, list.observedAt,
                         None))
    && (forall i, j :: 0 <= i < j < |list.onus| ==> list.onus[i].serial != list.onus[j].serial)
  }

  function MemAll(run: seq<(string, UnauthList)>): map<string, UnauthList> {
    if run == [] then map[] else MemReplace(MemAll(run[..|run| - 1]), run[|run| - 1].0, run[|run| - 1].1)
  }

  function DbAll(run: seq<(string, UnauthList)>): UnauthDb {
    if run == [] then NO_ROWS else DbReplace(DbAll(run[..|run| - 1]), run[|run| - 1].0, run[|run| - 1].1)
  }

  /** The ONUs of the last confirmed discovery of one device. */
  function LastConfirmed(run: seq<(string, UnauthList)>, device: string): seq<UnauthOnu> {
    if run == [] then []
    else
      var (d, list) := run[|run| - 1];
      if d == device && Confirms(list.status) then list.onus else LastConfirmed(run[..|run| - 1], device)
  }

  /** The rows the list query returns: the device's rows not marked gone, by serial. */
  function Present(rows: map<(string, string), UnauthOnu>, device: string): map<string, UnauthOnu> {
    map k | k in rows && k.0 == device && rows[k].goneAt.None? :: k.1 := rows[k]
  }

  /** The visible rows are exactly the listed ONUs, in every column but the first-seen time. */
  ghost predicate Shows(present: map<string, UnauthOnu>, onus: seq<UnauthOnu>) {
    && (forall i :: 0 <= i < |onus| ==>
          onus[i].serial in present
            && present[onus[i].serial] == onus[i].(firstSeen := present[onus[i].serial].firstSeen))
    && (forall serial :: serial in present ==> exists i :: 0 <= i < |onus| && onus[i].serial == serial)
  }

  lemma {:induction false} PresentUpsert(rows: map<(string, string), UnauthOnu>, device: string, o: UnauthOnu,
                                         list: UnauthList)
    ensures var after := UpsertUnauth(rows, device, o, list);
            Present(after, device) == Present(rows, device)[o.serial := after[(device, o.serial)]]
  {
    var after := UpsertUnauth(rows, device, o, list);
    forall s ensures s in Present(after, device) <==> s == o.serial || s in Present(rows, device) {
      assert s in Present(after, device) <==> (device, s) in after && after[(device, s)].goneAt.None?;
      assert s in Present(rows, device) <==> (device, s) in rows && rows[(device, s)].goneAt.None?;
    }
  }

  lemma {:induction false} ShowsOneMore(present: map<string, UnauthOnu>, onus: seq<UnauthOnu>, o: UnauthOnu,
                                        row: UnauthOnu)
    requires Shows(present, onus) && (forall i :: 0 <= i < |onus| ==> onus[i].serial != o.serial)
    requires row == o.(firstSeen := row.firstSeen)
    ensures Shows(present[o.serial := row], onus + [o])
  {
    var after, all := present[o.serial := row], onus + [o];
    forall s | s in after ensures exists i :: 0 <= i < |all| && all[i].serial == s {
      if s == o.serial {
        assert all[|onus|].serial == s;
      } else {
        var i :| 0 <= i < |onus| && onus[i].serial == s;
        assert all[i].serial == s;
      }
    }
  }

  lemma {:induction false} UpsertShows(rows: map<(string, string), UnauthOnu>, device: string, list: UnauthList, n: nat)
    requires Collected(device, list) && n <= |list.onus| && Present(rows, device) == map[]
    ensures Shows(Present(UpsertAll(rows, device, list.onus[..n], list), device), list.onus[..n])
  {
    NothingShown();
    hide Present, UpsertUnauth, Shows, Collected;
    if n > 0 {
      UpsertShows(rows, device, list, n - 1);
      var front, o := list.onus[..n - 1], list.onus[n - 1];
      var before := UpsertAll(rows, device, front, list);
      assert list.onus[..n] == front + [o];
      assert list.onus[..n][..n - 1] == front;
      PresentUpsert(before, device, o, list);
      RowOf(before, device, o, list);
      CollectedAt(device, list, n - 1);
      ShowsOneMore(Present(before, device), front, o, UpsertUnauth(before, device, o, list)[(device, o.serial)]);
    }
  }

  lemma {:induction false} NothingShown()
    ensures Shows(map[], [])
  {
  }

  lemma {:induction false} CollectedAt(device: string, list: UnauthList, i: nat)
    requires Collected(device, list) && i < |list.onus|
    ensures var o := list.onus[i];
            && o == UnauthOnu(device, o.serial, o.board, o.pon, o.onuType, list.status, list.observedAt,
                              list.observedAt, None)
            && forall k :: 0 <= k < |list.onus[..i]| ==> list.onus[..i][k].serial != o.serial
  {
  }

  lemma {:induction false} RowOf(rows: map<(string, string), UnauthOnu>, device: string, o: UnauthOnu, list: UnauthList)
    ensures (device, o.serial) in UpsertUnauth(rows, device, o, list)
    ensures var row := UpsertUnauth(rows, device, o, list)[(device, o.serial)];
            row == UnauthOnu(device, o.serial, o.board, o.pon, o.onuType, list.status, row.firstSeen, list.observedAt,
                             None)
  {
  }

  lemma {:induction false} MarkGonePresent(rows: map<(string, string), UnauthOnu>, d: string, at: int, device: string)
    ensures Present(MarkGone(rows, d, at), device) == if d == device then map[] else Present(rows, device)
  {
  }

  lemma {:induction false} PresentElsewhere(rows: map<(string, string), UnauthOnu>, device: string, o: UnauthOnu,
                                            list: UnauthList, other: string)
    requires other != device
    ensures Present(UpsertUnauth(rows, device, o, list), other) == Present(rows, other)
  {
  }

  lemma {:induction false} UpsertElsewhere(rows: map<(string, string), UnauthOnu>, device: string, onus: seq<UnauthOnu>,
                                           list: UnauthList, other: string)
    requires other != device
    ensures Present(UpsertAll(rows, device, onus, list), other) == Present(rows, other)
  {
    hide Present, UpsertUnauth;
    if onus != [] {
      PresentElsewhere(UpsertAll(rows, device, onus[..|onus| - 1], list), device, onus[|onus| - 1], list, other);
      UpsertElsewhere(rows, device, onus[..|onus| - 1], list, other);
    }
  }

  /** One replacement, seen from one device. */
  lemma {:induction false} ReplaceShows(db: UnauthDb, d: string, list: UnauthList, device: string, onus: seq<UnauthOnu>)
    requires Collected(d, list) && Shows(Present(db.rows, device), onus)
    ensures Shows(Present(DbReplace(db, d, list).rows, device), if d == device && Confirms(list.status) then list.onus
                  else onus)
  {
    hide Present, MarkGone, Shows, Collected;
    var rows := if Confirms(list.status) then MarkGone(db.rows, d, list.observedAt) else db.rows;
    MarkGonePresent(db.rows, d, list.observedAt, device);
    FailedIsEmpty(d, list);
    if d != device {
      UpsertElsewhere(rows, d, list.onus, list, device);
    } else if Confirms(list.status) {
      UpsertShows(rows, device, list, |list.onus|);
      assert list.onus[..|list.onus|] == list.onus;
    }
  }

  lemma {:induction false} FailedIsEmpty(d: string, list: UnauthList)
    requires Collected(d, list)
    ensures !Confirms(list.status) ==> list.onus == [] && (list.status == "unsupported" || list.status == "unavailable")
  {
  }

  /** Main result: over every run of discoveries, for every device the rows not marked gone are the ONUs of
      its last confirmed discovery, and the in-memory store holds that same list. A failed discovery
      changes neither. */
  lemma {:induction false} TableRefinesList(run: seq<(string, UnauthList)>, device: string)
    requires forall i :: 0 <= i < |run| ==> Collected(run[i].0, run[i].1)
    ensures MemOnus(MemAll(run), device) == LastConfirmed(run, device)
    ensures Shows(Present(DbAll(run).rows, device), LastConfirmed(run, device))
  {
    hide DbReplace, Collected, UpsertAll, MarkGone;
    if run == [] {
      assert Present(NO_ROWS.rows, device) == map[];
    } else {
      var before, last := run[..|run| - 1], run[|run| - 1];
      TableRefinesList(before, device);
      FailedIsEmpty(last.0, last.1);
      ReplaceShows(DbAll(before), last.0, last.1, device, LastConfirmed(before, device));
    }
  }

  lemma {:induction false} UpsertKeepsFirstSeen(rows: map<(string, string), UnauthOnu>, device: string,
                                                onus: seq<UnauthOnu>, list: UnauthList, k: (string, string))
    requires k in rows
    ensures k in UpsertAll(rows, device, onus, list)
            && UpsertAll(rows, device, onus, list)[k].firstSeen == rows[k].firstSeen
  {
    if onus != [] {
      UpsertKeepsFirstSeen(rows, device, onus[..|onus| - 1], list, k);
    }
  }

  /** Rows are never deleted and keep their first-seen time for good, over any continuation of any run. */
  lemma {:induction false} FirstSeenNeverChanges(run: seq<(string, UnauthList)>, more: seq<(string, UnauthList)>,
                                                 k: (string, string))
    requires k in DbAll(run).rows
    ensures k in DbAll(run + more).rows && DbAll(run + more).rows[k].firstSeen == DbAll(run).rows[k].firstSeen
  {
    if more == [] {
      assert run + more == run;
    } else {
      var last := more[|more| - 1];
      FirstSeenNeverChanges(run, more[..|more| - 1], k);
      assert (run + more)[..|run + more| - 1] == run + more[..|more| - 1];
      var db := DbAll(run + more[..|more| - 1]);
      var rows := if Confirms(last.1.status) then MarkGone(db.rows, last.0, last.1.observedAt) else db.rows;
      UpsertKeepsFirstSeen(rows, last.0, last.1.onus, last.1, k);
    }
  }

  /** First-seen times after an upsert: a known row keeps its own, a listed new one gets the list's time. */
  lemma {:induction false} UpsertFirstSeen(rows: map<(string, string), UnauthOnu>, device: string,
                                           onus: seq<UnauthOnu>, list: UnauthList, serial: string)
    ensures var k, after := (device, serial), UpsertAll(rows, device, onus, list);
            && (k in after <==> k in rows || exists i :: 0 <= i < |onus| && onus[i].serial == serial)
            && (k in after ==> after[k].firstSeen == if k in rows then rows[k].firstSeen else list.observedAt)
  {
    if onus != [] {
      var front, last := onus[..|onus| - 1], onus[|onus| - 1];
      UpsertFirstSeen(rows, device, front, list, serial);
      assert onus == front + [last];
      if i :| 0 <= i < |front| && front[i].serial == serial {
        assert onus[i].serial == serial;
      }
    }
  }

  /** The two stores show an ONU of the last discovery alike exactly when the table had no row for it before that
      discovery, gone or not, or one first seen at the same time: the table keeps the first time ever, the
      in-memory store forgets it. */
  lemma {:induction false} MemoryForgetsFirstSeen(run: seq<(string, UnauthList)>, device: string, i: nat)
    requires forall k :: 0 <= k < |run| ==> Collected(run[k].0, run[k].1)
    requires run != [] && run[|run| - 1].0 == device && Confirms(run[|run| - 1].1.status) && i < |run[|run| - 1].1.onus|
    ensures var list, before := run[|run| - 1].1, DbAll(run[..|run| - 1]).rows;
            var key := (device, list.onus[i].serial);
            && MemOnus(MemAll(run), device) == list.onus
            && key.1 in Present(DbAll(run).rows, device)
            && (Present(DbAll(run).rows, device)[key.1] == list.onus[i] <==>
                key !in before || before[key].firstSeen == list.observedAt)
  {
    TableRefinesList(run, device);
    var list, before := run[|run| - 1].1, DbAll(run[..|run| - 1]).rows;
    var serial := list.onus[i].serial;
    CollectedAt(device, list, i);
    UpsertFirstSeen(MarkGone(before, device, list.observedAt), device, list.onus, list, serial);
    assert Present(DbAll(run).rows, device)[serial] == DbAll(run).rows[(device, serial)];
  }

  /** A discovery of one ONU at one time. */
  function Sighting(device: string, serial: string, at: int): UnauthList {
    UnauthList("ok", "", "", at, 1, [UnauthOnu(device, serial, 1, 1, "", "ok", at, at, None)])
  }

  /** Two discoveries of one ONU are enough for the difference. */
  lemma {:induction false} SecondSightingDiffers(device: string, serial: string, first: int, second: int)
    requires first != second
    ensures var run := [(device, Sighting(device, serial, first)), (device, Sighting(device, serial, second))];
            && (forall k :: 0 <= k < |run| ==> Collected(run[k].0, run[k].1))
            && serial in Present(DbAll(run).rows, device)
            && MemOnus(MemAll(run), device) == [Sighting(device, serial, second).onus[0]]
            && Present(DbAll(run).rows, device)[serial] != Sighting(device, serial, second).onus[0]
  {
    var a, b := (device, Sighting(device, serial, first)), (device, Sighting(device, serial, second));
    var run: seq<(string, UnauthList)> := [a, b];
    assert run[..1] == [a];
    FirstSighting(device, serial, first);
    MemoryForgetsFirstSeen([a, b], device, 0);
  }

  lemma {:induction false} FirstSighting(device: string, serial: string, at: int)
    ensures var rows := DbAll([(device, Sighting(device, serial, at))]).rows;
            (device, serial) in rows && rows[(device, serial)].firstSeen == at
  {
    var a := (device, Sighting(device, serial, at));
    var run: seq<(string, UnauthList)> := [a];
    assert run[..0] == [];
    assert a.1.onus[0].serial == serial;
    UpsertFirstSeen(MarkGone(map[], device, at), device, a.1.onus, a.1, serial);
  }
}
