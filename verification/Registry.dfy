/** The registry of OLT stacks: a diff engine that owns one SNMP repository per entry. */
module Registry {
  import opened ChangeKeys

  /** A repository, numbered in the order they are opened, with the sizes it was opened with. */
  datatype Repo = Repo(number: int, maxConcurrent: int, useWalk: bool)

  datatype Entry = Entry(olt: Olt, repo: Repo, cachePrefix: string, boardPons: map<int, int>, userID: int)

  predicate Distinct(olts: seq<Olt>) {
    forall i, j :: 0 <= i < j < |olts| ==> olts[i].id != olts[j].id
  }

  predicate CleanHosts(olts: seq<Olt>) {
    forall i :: 0 <= i < |olts| ==> '|' !in olts[i].host
  }

  predicate Listed(olts: seq<Olt>, id: string) {
    exists i :: 0 <= i < |olts| && olts[i].id == id
  }

  // ----- ownership -----

  ghost predicate Live(entries: map<string, Entry>, r: int) {
    exists id :: id in entries && entries[id].repo.number == r
  }

  /** Each entry owns a repository of its own, and every repository ever opened is either owned by an entry and
      never closed, or owned by none and closed exactly once. */
  ghost predicate Owned(entries: map<string, Entry>, count: int, closes: seq<int>) {
    && (forall id :: id in entries ==> 0 <= entries[id].repo.number < count)
    && (forall a, b :: a in entries && b in entries && a != b ==> entries[a].repo.number != entries[b].repo.number)
    && (forall r :: multiset(closes)[r] == if 0 <= r < count && !Live(entries, r) then 1 else 0)
  }

  /** Entries sit at their ids and carry the config they publish. */
  predicate Sound(entries: map<string, Entry>, defaultOLT: string) {
    forall id :: id in entries ==>
      var e := entries[id];
      && e.olt.id == id && '|' !in e.olt.host && e.boardPons == e.olt.boardPons && e.userID == e.olt.userID
      && e.repo.useWalk == e.olt.useWalk && e.cachePrefix == if id == defaultOLT then "" else id
  }

  lemma {:induction false} OwnedAdd(entries: map<string, Entry>, count: int, closes: seq<int>, id: string, e: Entry)
    requires Owned(entries, count, closes) && id !in entries && e.repo.number == count && count >= 0
    ensures Owned(entries[id := e], count + 1, closes)
  {
    var now := entries[id := e];
    forall r ensures Live(now, r) <==> Live(entries, r) || r == count {
      if Live(entries, r) {
        var k :| k in entries && entries[k].repo.number == r;
        assert now[k] == entries[k];
      }
      assert now[id] == e;
    }
    assert !Live(entries, count);
  }

  lemma {:induction false} SoundAdd(entries: map<string, Entry>, defaultOLT: string, o: Olt, e: Entry)
    requires Sound(entries, defaultOLT) && '|' !in o.host
    requires e == Entry(o, e.repo, if o.id == defaultOLT then "" else o.id, o.boardPons, o.userID)
             && e.repo.useWalk == o.useWalk
    ensures Sound(entries[o.id := e], defaultOLT)
  {
  }

  lemma {:induction false} OwnedRemove(entries: map<string, Entry>, count: int, closes: seq<int>, id: string)
    requires Owned(entries, count, closes) && id in entries
    ensures Owned(entries - {id}, count, closes + [entries[id].repo.number])
  {
    var now, n := entries - {id}, entries[id].repo.number;
    forall r ensures Live(now, r) <==> Live(entries, r) && r != n {
      if Live(entries, r) && r != n {
        var k :| k in entries && entries[k].repo.number == r;
        assert k in now;
      }
    }
    assert Live(entries, n);
  }

  lemma {:induction false} OwnedUpdate(entries: map<string, Entry>, count: int, closes: seq<int>, id: string, e: Entry)
    requires Owned(entries, count, closes) && id in entries && e.repo == entries[id].repo
    ensures Owned(entries[id := e], count, closes)
  {
    var now := entries[id := e];
    forall r ensures Live(now, r) <==> Live(entries, r) {
      if Live(entries, r) {
        var k :| k in entries && entries[k].repo.number == r;
        assert now[k].repo == entries[k].repo;
      }
      if Live(now, r) {
        var k :| k in now && now[k].repo.number == r;
        assert entries[k].repo == now[k].repo;
      }
    }
  }

  // ----- what a reconcile does to one OLT -----

  /** Unchanged connection settings keep the repository; anything else needs a new one, whose setup may fail. */
  predicate Keeps(was: map<string, Entry>, o: Olt) {
    o.id in was && SameConnection(was[o.id].olt, o)
  }

  /** Attempt numbers count the connections tried; `connects` says which of them succeed. An OLT that keeps nothing
      is listed afterwards exactly when its own attempt succeeds. */
  predicate Placed(was: map<string, Entry>, now: map<string, Entry>, o: Olt, count: int,
                   connects: (int, Olt) -> bool, attempt: int)
  {
    && (o.id in now <==> Keeps(was, o) || connects(attempt, o))
    && (o.id in now ==> now[o.id].olt == o)
    && (Keeps(was, o) ==> now[o.id].repo == was[o.id].repo)
    && (!Keeps(was, o) && o.id in now ==>
          now[o.id].repo.number >= count && now[o.id].repo.maxConcurrent == o.maxConcurrent)
  }

  /** How many of the first n listed OLTs need a new connection. */
  function Setups(was: map<string, Entry>, olts: seq<Olt>, n: nat): nat
    requires n <= |olts|
  {
    if n == 0 then 0 else Setups(was, olts, n - 1) + if Keeps(was, olts[n - 1]) then 0 else 1
  }

  /** Each of the first n OLTs is placed by its own attempt, the one after those of the OLTs listed before it. */
  ghost predicate AllPlaced(was: map<string, Entry>, now: map<string, Entry>, olts: seq<Olt>, n: nat, count: int,
                            connects: (int, Olt) -> bool, attempts: int)
    requires n <= |olts|
  {
    forall i :: 0 <= i < n ==> Placed(was, now, olts[i], count, connects, attempts + Setups(was, olts, i))
  }

  /** Every entry carries the config of the list. */
  ghost predicate Settled(entries: map<string, Entry>, olts: seq<Olt>) {
    forall id :: id in entries ==> entries[id].olt in olts
  }

  /** The entries of the ids not yet reached are those of before. */
  ghost predicate Untouched(was: map<string, Entry>, now: map<string, Entry>, olts: seq<Olt>, n: nat) {
    forall k :: n <= k < |olts| ==>
      (olts[k].id in now <==> olts[k].id in was) && (olts[k].id in was ==> now[olts[k].id] == was[olts[k].id])
  }

  class OLTRegistry {
    const defaultOLT: string
    const connects: (int, Olt) -> bool
    var entries: map<string, Entry>
    /** Repositories opened, attempts made, and the numbers of closed repositories in order. */
    var count: int
    var attempts: int
    var closes: seq<int>

    constructor (defaultOLT: string, connects: (int, Olt) -> bool)
      ensures Valid() && entries == map[] && closes == [] && count == 0
    {
      this.defaultOLT, this.connects := defaultOLT, connects;
      entries, count, attempts, closes := map[], 0, 0, [];
    }

    ghost predicate Valid()
      reads this
    {
      count >= 0 && attempts >= 0 && Sound(entries, defaultOLT) && Owned(entries, count, closes)
    }

    /** Connects and publishes the entry; on failure nothing changes but the count of attempts. */
    method AddOLTLocked(o: Olt) returns (ok: bool)
      requires Valid() && o.id !in entries && '|' !in o.host
      modifies this
      ensures Valid() && attempts == old(attempts) + 1 && closes == old(closes)
      ensures ok == connects(old(attempts), o)
      ensures !ok ==> entries == old(entries) && count == old(count)
      ensures ok ==> count == old(count) + 1 && o.id in entries && entries == old(entries)[o.id := entries[o.id]]
                     && entries[o.id].olt == o && entries[o.id].repo == Repo(old(count), o.maxConcurrent, o.useWalk)
    {
      hide Owned, Sound;
      ok := connects(attempts, o);
      attempts := attempts + 1;
      if !ok {
        return;
      }
      var cachePrefix := o.id;
      if o.id == defaultOLT {
        cachePrefix := "";
      }
      var entry := Entry(o, Repo(count, o.maxConcurrent, o.useWalk), cachePrefix, o.boardPons, o.userID);
      OwnedAdd(entries, count, closes, o.id, entry);
      SoundAdd(entries, defaultOLT, o, entry);
      count := count + 1;
      entries := entries[o.id := entry];
    }

    method RemoveOLTLocked(id: string)
      requires Valid() && id in entries
      modifies this`entries, this`closes
      ensures Valid() && entries == old(entries) - {id} && closes == old(closes) + [old(entries)[id].repo.number]
    {
      hide Owned;
      OwnedRemove(entries, count, closes, id);
      closes := closes + [entries[id].repo.number];
      entries := entries - {id};
    }

    /** Drops what is no longer listed, ranging over the entries in no particular order. */
    method DropUnlisted(olts: seq<Olt>)
      requires Valid()
      modifies this`entries, this`closes
      ensures Valid() && old(closes) <= closes
      ensures forall id :: id in entries <==> id in old(entries) && Listed(olts, id)
      ensures forall id :: id in entries ==> entries[id] == old(entries)[id]
    {
      hide Owned, Sound;
      var todo := entries.Keys;
      while todo != {}
        invariant Valid() && todo <= entries.Keys && old(closes) <= closes
        invariant forall id :: id in entries <==> id in old(entries) && (id in todo || Listed(olts, id))
        invariant forall id :: id in entries ==> entries[id] == old(entries)[id]
        decreases todo
      {
        var id :| id in todo;
        todo := todo - {id};
        if !Listed(olts, id) {
          RemoveOLTLocked(id);
        }
      }
    }

    /** One listed OLT: added, rebuilt, or republished over its live repository. */
    method PlaceOne(o: Olt)
      requires Valid() && '|' !in o.host
      modifies this
      ensures Valid() && old(closes) <= closes && old(count) <= count
      ensures attempts == old(attempts) + if Keeps(old(entries), o) then 0 else 1
      ensures Placed(old(entries), entries, o, old(count), connects, old(attempts))
      ensures forall id :: id != o.id ==>
              (id in entries <==> id in old(entries)) && (id in old(entries) ==> entries[id] == old(entries)[id])
      ensures count == old(count)
              || (count == old(count) + 1 && o.id in entries && entries[o.id].repo.number == old(count))
    {
      hide Owned, IsKey;
      if o.id !in entries {
        var ok := AddOLTLocked(o);
        return;
      }
      var existing := entries[o.id];
      var oldKey := OltChangeKey(existing.olt);
      var newKey := OltChangeKey(o);
      KeyInjective(existing.olt, oldKey, o, newKey);
      if oldKey != newKey {
        RemoveOLTLocked(o.id);
        var ok := AddOLTLocked(o);
        return;
      }
      var updated := existing.(olt := o, userID := o.userID);
      OwnedUpdate(entries, count, closes, o.id, updated);
      entries := entries[o.id := updated];
    }

    /** Main result: whatever the registry held, afterwards the entries are exactly the listed OLTs whose setup
        did not fail, each with its listed config. An entry keeps its repository exactly when nothing its
        connection depends on changed; ownership stays intact, so each dropped or rebuilt repository is closed
        exactly once and no live one is; and reconciling a list that is already in place closes nothing. */
    method Reconcile(olts: seq<Olt>)
      requires Valid() && Distinct(olts) && CleanHosts(olts)
      modifies this
      ensures Valid() && Settled(entries, olts)
      ensures AllPlaced(old(entries), entries, olts, |olts|, old(count), connects, old(attempts))
      ensures attempts == old(attempts) + Setups(old(entries), olts, |olts|)
      ensures forall r :: old(count) <= r < count ==> Live(entries, r)
      ensures old(closes) <= closes && old(count) <= count
      ensures Settled(old(entries), olts) ==> closes == old(closes)
    {
      hide Owned, Sound, Live, Placed, Settled, Keeps, AllPlaced;
      DropUnlisted(olts);
      StartUntouched(old(entries), entries, olts);
      NonePlaced(old(entries), entries, olts, old(count), connects, old(attempts));
      for i := 0 to |olts|
        invariant Valid() && old(closes) <= closes && old(count) <= count
        invariant attempts == old(attempts) + Setups(old(entries), olts, i)
        invariant forall id :: id in entries ==> Listed(olts, id)
        invariant Untouched(old(entries), entries, olts, i)
        invariant AllPlaced(old(entries), entries, olts, i, old(count), connects, old(attempts))
        invariant forall r :: old(count) <= r < count ==> Live(entries, r)
      {
        ghost var before, wasCount := entries, count;
        PlaceOne(olts[i]);
        StillListed(before, entries, olts, i);
        StillUntouched(old(entries), before, entries, olts, i);
        OneMorePlaced(old(entries), before, entries, olts, i, old(count), wasCount, connects, old(attempts));
        forall r | old(count) <= r < count ensures Live(entries, r) {
          if r < wasCount {
            StillLive(old(entries), old(count), old(closes), before, entries, olts, i, r);
          } else {
            LiveAt(entries, olts[i].id);
          }
        }
      }
      AllSettled(old(entries), entries, olts, old(count), connects, old(attempts));
      if Settled(old(entries), olts) {
        NothingToClose(old(entries), old(count), old(closes), defaultOLT, entries, count, closes, olts, connects,
                       old(attempts));
      }
    }

    /** Closes every repository; on an empty registry this is a no-op. */
    method Close()
      requires Valid()
      modifies this`entries, this`closes
      ensures Valid() && entries == map[] && old(closes) <= closes
      ensures forall r :: 0 <= r < count ==> multiset(closes)[r] == 1
      ensures old(entries) == map[] ==> closes == old(closes)
    {
      while entries != map[]
        invariant Valid() && old(closes) <= closes
        invariant old(entries) == map[] ==> entries == map[] && closes == old(closes)
        decreases entries.Keys
      {
        SomeEntry(entries);
        var id :| id in entries;
        RemoveOLTLocked(id);
      }
    }
  }

  lemma {:induction false} SomeEntry(entries: map<string, Entry>)
    requires entries != map[]
    ensures exists id :: id in entries
  {
    assert entries.Keys == {} ==> entries == map[];
  }

  lemma {:induction false} StartUntouched(was: map<string, Entry>, now: map<string, Entry>, olts: seq<Olt>)
    requires forall id :: id in now <==> id in was && Listed(olts, id)
    requires forall id :: id in now ==> now[id] == was[id]
    ensures Untouched(was, now, olts, 0)
  {
    forall k | 0 <= k < |olts| ensures Listed(olts, olts[k].id) {
    }
  }

  lemma {:induction false} StillListed(before: map<string, Entry>, now: map<string, Entry>, olts: seq<Olt>, i: nat)
    requires i < |olts| && (forall id :: id in before ==> Listed(olts, id))
    requires forall id :: id != olts[i].id ==> (id in now <==> id in before)
    ensures forall id :: id in now ==> Listed(olts, id)
  {
    assert Listed(olts, olts[i].id);
  }

  lemma {:induction false} StillUntouched(was: map<string, Entry>, before: map<string, Entry>, now: map<string, Entry>,
                                          olts: seq<Olt>, i: nat)
    requires i < |olts| && Distinct(olts) && Untouched(was, before, olts, i)
    requires forall id :: id != olts[i].id ==> (id in now <==> id in before) && (id in before ==> now[id] == before[id])
    ensures Untouched(was, now, olts, i + 1)
  {
    forall k | i + 1 <= k < |olts| ensures olts[k].id != olts[i].id {
    }
  }

  lemma {:induction false} NonePlaced(was: map<string, Entry>, now: map<string, Entry>, olts: seq<Olt>, count: int,
                                      connects: (int, Olt) -> bool, attempts: int)
    ensures AllPlaced(was, now, olts, 0, count, connects, attempts)
  {
  }

  /** Whether an OLT keeps its repository depends on its entry alone. */
  lemma {:induction false} SameKeeps(was: map<string, Entry>, before: map<string, Entry>, o: Olt)
    requires (o.id in before <==> o.id in was) && (o.id in was ==> before[o.id] == was[o.id])
    ensures Keeps(was, o) <==> Keeps(before, o)
  {
  }

  lemma {:induction false} OneMorePlaced(was: map<string, Entry>, before: map<string, Entry>, now: map<string, Entry>,
                                         olts: seq<Olt>, i: nat, count: int, wasCount: int,
                                         connects: (int, Olt) -> bool, attempts: int)
    requires i < |olts| && Distinct(olts) && Untouched(was, before, olts, i) && count <= wasCount
    requires AllPlaced(was, before, olts, i, count, connects, attempts)
    requires Placed(before, now, olts[i], wasCount, connects, attempts + Setups(was, olts, i))
    requires forall id :: id != olts[i].id ==> (id in now <==> id in before) && (id in before ==> now[id] == before[id])
    ensures AllPlaced(was, now, olts, i + 1, count, connects, attempts)
    ensures Keeps(was, olts[i]) <==> Keeps(before, olts[i])
  {
    hide SameConnection, Placed, Setups, Keeps;
    SameKeeps(was, before, olts[i]);
    PlacedHere(was, before, now, olts[i], count, wasCount, connects, attempts + Setups(was, olts, i));
    forall k | 0 <= k < i ensures Placed(was, now, olts[k], count, connects, attempts + Setups(was, olts, k)) {
      assert olts[k].id != olts[i].id;
      PlacedElsewhere(was, before, now, olts[k], count, connects, attempts + Setups(was, olts, k));
    }
  }

  lemma {:induction false} PlacedHere(was: map<string, Entry>, before: map<string, Entry>, now: map<string, Entry>,
                                      o: Olt, count: int, wasCount: int, connects: (int, Olt) -> bool, attempt: int)
    requires (o.id in before <==> o.id in was) && (o.id in was ==> before[o.id] == was[o.id]) && count <= wasCount
    requires Placed(before, now, o, wasCount, connects, attempt)
    ensures Placed(was, now, o, count, connects, attempt)
  {
  }

  lemma {:induction false} PlacedElsewhere(was: map<string, Entry>, before: map<string, Entry>, now: map<string, Entry>,
                                           o: Olt, count: int, connects: (int, Olt) -> bool, attempt: int)
    requires (o.id in now <==> o.id in before) && (o.id in before ==> now[o.id] == before[o.id])
    requires Placed(was, before, o, count, connects, attempt)
    ensures Placed(was, now, o, count, connects, attempt)
  {
  }

  lemma {:induction false} LiveAt(entries: map<string, Entry>, id: string)
    requires id in entries
    ensures Live(entries, entries[id].repo.number)
  {
  }

  /** What this reconcile opened is not touched by it again. */
  lemma {:induction false} StillLive(was: map<string, Entry>, count: int, closes: seq<int>, before: map<string, Entry>,
                                     now: map<string, Entry>, olts: seq<Olt>, i: nat, r: int)
    requires Owned(was, count, closes) && i < |olts| && Untouched(was, before, olts, i)
    requires count <= r && Live(before, r)
    requires forall id :: id != olts[i].id ==> (id in now <==> id in before) && (id in before ==> now[id] == before[id])
    ensures Live(now, r)
  {
    var id :| id in before && before[id].repo.number == r;
    assert id != olts[i].id;
    assert now[id].repo.number == r;
  }

  lemma {:induction false} AllSettled(was: map<string, Entry>, now: map<string, Entry>, olts: seq<Olt>, count: int,
                                      connects: (int, Olt) -> bool, attempts: int)
    requires forall id :: id in now ==> Listed(olts, id)
    requires AllPlaced(was, now, olts, |olts|, count, connects, attempts)
    ensures Settled(now, olts)
  {
    hide Keeps, Setups, Placed;
    forall id | id in now ensures now[id].olt in olts {
      var i :| 0 <= i < |olts| && olts[i].id == id;
      PlacedConfig(was, now, olts[i], count, connects, attempts + Setups(was, olts, i));
    }
  }

  lemma {:induction false} PlacedConfig(was: map<string, Entry>, now: map<string, Entry>, o: Olt, count: int,
                                        connects: (int, Olt) -> bool, attempt: int)
    requires Placed(was, now, o, count, connects, attempt)
    ensures o.id in now ==> now[o.id].olt == o
  {
  }

  /** Entries that already carry the list's configs all keep their repositories. */
  lemma {:induction false} AllKept(was: map<string, Entry>, now: map<string, Entry>, defaultOLT: string, olts: seq<Olt>,
                                   count: int, connects: (int, Olt) -> bool, attempts: int, id: string)
    requires Sound(was, defaultOLT) && Distinct(olts) && Settled(was, olts) && id in was
    requires AllPlaced(was, now, olts, |olts|, count, connects, attempts)
    ensures id in now && now[id].repo == was[id].repo
  {
    var i :| 0 <= i < |olts| && olts[i] == was[id].olt;
    assert Placed(was, now, olts[i], count, connects, attempts + Setups(was, olts, i));
  }

  lemma {:induction false} NothingToClose(was: map<string, Entry>, wasCount: int, wasCloses: seq<int>,
                                          defaultOLT: string, now: map<string, Entry>, count: int, closes: seq<int>,
                                          olts: seq<Olt>, connects: (int, Olt) -> bool, attempts: int)
    requires Owned(was, wasCount, wasCloses) && Sound(was, defaultOLT) && Distinct(olts) && Settled(was, olts)
    requires Owned(now, count, closes) && wasCloses <= closes && wasCount <= count
    requires AllPlaced(was, now, olts, |olts|, wasCount, connects, attempts)
    requires forall r :: wasCount <= r < count ==> Live(now, r)
    ensures closes == wasCloses
  {
    hide Sound, Settled, Placed, AllPlaced;
    if |closes| > |wasCloses| {
      var c := closes[|wasCloses|];
      assert closes == wasCloses + closes[|wasCloses|..];
      assert multiset(closes)[c] == multiset(wasCloses)[c] + multiset(closes[|wasCloses|..])[c];
      assert closes[|wasCloses|..][0] == c;
      assert multiset(closes[|wasCloses|..])[c] >= 1;
      assert multiset(closes)[c] == 1 && multiset(wasCloses)[c] == 0;
      assert 0 <= c < wasCount && Live(was, c);
      var id :| id in was && was[id].repo.number == c;
      AllKept(was, now, defaultOLT, olts, wasCount, connects, attempts, id);
      LiveAt(now, id);
    }
  }

  /** A kept repository keeps the concurrency limit it was opened with. So after a reconcile an entry's pool enforces
      the limit the entry publishes exactly when its connection was rebuilt, or its old pool already enforced it. */
  lemma {:induction false} StaleLimitIff(was: map<string, Entry>, now: map<string, Entry>, o: Olt, count: int,
                                         connects: (int, Olt) -> bool, attempt: int)
    requires Placed(was, now, o, count, connects, attempt) && o.id in now
    ensures now[o.id].repo.maxConcurrent == now[o.id].olt.maxConcurrent <==>
            !Keeps(was, o) || was[o.id].repo.maxConcurrent == o.maxConcurrent
  {
  }

  /** A registry holding one OLT as it was first set up. */
  function Single(o: Olt): map<string, Entry> {
    map[o.id := Entry(o, Repo(0, o.maxConcurrent, o.useWalk), "", o.boardPons, o.userID)]
  }

  /** Opened with one limit, then listed twice with another: the pool still enforces the first, and listing the new
      limit again does not help, although the last reconcile changes no setting at all. */
  lemma {:induction false} StaleForGood(o: Olt, limit: int, first: map<string, Entry>, second: map<string, Entry>,
                                        c1: int, c2: int, connects: (int, Olt) -> bool, a1: int, a2: int)
    requires '|' !in o.host && limit != o.maxConcurrent
    requires Placed(Single(o), first, o.(maxConcurrent := limit), c1, connects, a1)
    requires Placed(first, second, o.(maxConcurrent := limit), c2, connects, a2)
    ensures Sound(Single(o), o.id) && Owned(Single(o), 1, [])
    ensures o.id in second && second[o.id].olt.maxConcurrent == limit
            && second[o.id].repo.maxConcurrent == o.maxConcurrent
  {
    assert Live(Single(o), 0) by {
      assert Single(o)[o.id].repo.number == 0;
    }
  }
}
