/** What a poll leaves in the durable tables, column by column. */
module StoredRows {
  import opened Text
  import opened Events
  import opened Transitions
  import opened Tables
  import opened StoreAgreement
  import opened UnreadOnus

  // ----- port rows -----

  lemma {:induction false} UpsertPortsShow(ports: map<(string, string, int), PortState>, s: Sample, list: seq<EthPort>,
                                           index: int, k: int)
    requires LastListed(list, index, k)
    ensures (s.device, s.serial, index) in UpsertPorts(ports, s, list)
    ensures PortShows(UpsertPorts(ports, s, list)[(s.device, s.serial, index)], s, list[k])
  {
    if k < |list| - 1 {
      UpsertPortsShow(ports, s, list[..|list| - 1], index, k);
    }
  }

  lemma {:induction false} UpsertPortsElsewhere(ports: map<(string, string, int), PortState>, s: Sample,
                                                list: seq<EthPort>, key: (string, string, int))
    requires !Is(s, key.0, key.1) || forall k :: 0 <= k < |list| ==> list[k].port != key.2
    ensures PortOption(UpsertPorts(ports, s, list), key) == PortOption(ports, key)
  {
    if list != [] {
      UpsertPortsElsewhere(ports, s, list[..|list| - 1], key);
    }
  }

  lemma {:induction false} UpsertedPort(ports: map<(string, string, int), PortState>, raw: Sample,
                                        key: (string, string, int))
    ensures var s := Padded(raw);
            var now := PortOption(UpsertPorts(ports, s, s.ethPorts), key);
            && (!Is(raw, key.0, key.1) || !Mentions(raw, key.2) ==> now == PortOption(ports, key))
            && (Is(raw, key.0, key.1) ==>
                  forall p :: Says(raw, key.2, p) ==> now.Some? && PortShows(now.value, raw, p))
  {
    hide Padded, UpsertPorts, Says;
    var s := Padded(raw);
    PaddedIdempotent(raw);
    if !Is(raw, key.0, key.1) {
      UpsertPortsElsewhere(ports, s, s.ethPorts, key);
    } else if !Mentions(raw, key.2) {
      NotMentioned(raw, key.2);
      UpsertPortsElsewhere(ports, s, s.ethPorts, key);
    } else {
      forall p | Says(raw, key.2, p)
        ensures key in UpsertPorts(ports, s, s.ethPorts) && PortShows(UpsertPorts(ports, s, s.ethPorts)[key], raw, p)
      {
        ReadingListed(raw, key.2, p);
        var k :| LastListed(s.ethPorts, key.2, k) && s.ethPorts[k] == p;
        UpsertPortsShow(ports, s, s.ethPorts, key.2, k);
      }
    }
  }

  lemma {:induction false} UpsertedPorts(ports: map<(string, string, int), PortState>, list: seq<Sample>,
                                         key: (string, string, int))
    ensures PortFollows(PortOption(ports, key), PortOption(UpsertEthState(ports, PadAll(list)), key), list, key.0,
                        key.1, key.2)
  {
    hide Padded, UpsertPorts, PortFollows, PortShows, PadAll, Says, Mentions, PortOption;
    if list == [] {
      NoSamples();
      NothingFollows(NO_ONU, PortOption(ports, key), key.0, key.1, key.2);
    } else {
      var front, last := list[..|list| - 1], list[|list| - 1];
      PadAllInit(list);
      UpsertedPorts(ports, front, key);
      UpsertedPort(UpsertEthState(ports, PadAll(front)), last, key);
      PortFollowsMore(PortOption(ports, key), PortOption(UpsertEthState(ports, PadAll(front)), key),
                      PortOption(UpsertEthState(ports, PadAll(list)), key), front, last, key.0, key.1, key.2);
      assert list == front + [last];
    }
  }

  lemma {:induction false} NoSamples()
    ensures PadAll([]) == []
  {
  }

  // ----- ONU rows -----

  lemma {:induction false} UpsertRowShows(was: Option<OnuState>, raw: Sample)
    ensures RowShows(UpsertRow(was, Padded(raw)), raw)
  {
    PaddedIdempotent(raw);
    hide Padded, ExpectedEthernetPorts;
  }

  lemma {:induction false} UpsertedRow(onus: map<(string, string), OnuState>, list: seq<Sample>, device: string,
                                       serial: string)
    requires !Blank(serial)
    ensures RowFollows(RowAt(onus, device, serial), RowAt(UpsertOnus(onus, PadAll(list)), device, serial), list, device,
                       serial)
  {
    hide Padded, UpsertRow, RowShows, Blank, PadAll, RowFollows;
    if list == [] {
      NoSamples();
      NothingFollows(RowAt(onus, device, serial), None, device, serial, 0);
    } else {
      var front, raw := list[..|list| - 1], list[|list| - 1];
      var mid := UpsertOnus(onus, PadAll(front));
      PadAllInit(list);
      PaddedIdempotent(raw);
      UpsertedRow(onus, front, device, serial);
      UpsertOnuAt(mid, Padded(raw), device, serial);
      UpsertRowShows(RowOption(mid, device, serial), raw);
      RowFollowsMore(RowAt(onus, device, serial), RowAt(mid, device, serial),
                     RowAt(UpsertOnus(onus, PadAll(list)), device, serial), front, raw, device, serial);
      assert list == front + [raw];
    }
  }

  lemma {:induction false} BlankUntouched(onus: map<(string, string), OnuState>, list: seq<Sample>, device: string,
                                          serial: string)
    requires Blank(serial)
    ensures RowAt(UpsertOnus(onus, list), device, serial) == RowAt(onus, device, serial)
  {
    hide Blank, UpsertRow;
    if list != [] {
      BlankUntouched(onus, list[..|list| - 1], device, serial);
    }
  }

  // ----- events -----

  lemma {:induction false} BatchEvents(onus: map<(string, string), OnuState>,
                                       ports: map<(string, string, int), PortState>, device: string, list: seq<Sample>)
    ensures forall e :: e in StatusBatch(onus, device, list) ==> StatusFrom(e, list, "poller")
    ensures forall e :: e in EthBatch(ports, list) ==> EthFrom(e, list, "poller")
  {
    hide Padded, StatusEventsFrom, EthEventsOf, StatusFrom, EthFrom, RowAt, EthPrev;
    if list != [] {
      var front, last := list[..|list| - 1], list[|list| - 1];
      var s := Padded(last);
      BatchEvents(onus, ports, device, front);
      FromMore(front, last, "poller");
      EventsOfSample(RowAt(onus, device, s.serial), EthPrev(ports, s.device, s.serial), list, |list| - 1, "poller");
      assert list == front + [last];
    }
  }

  // ----- a whole poll -----

  /** The events a batch adds show its samples, and every port row the last reading of its port. */
  ghost predicate Recorded(was: Db, batch: seq<Sample>, now: Db) {
    && was.statusLog <= now.statusLog && was.ethLog <= now.ethLog
    && (forall e :: e in now.statusLog[|was.statusLog|..] ==> StatusFrom(e, batch, "poller"))
    && (forall e :: e in now.ethLog[|was.ethLog|..] ==> EthFrom(e, batch, "poller"))
    && (forall key ::
          PortFollows(PortOption(was.ports, key), PortOption(now.ports, key), batch, key.0, key.1, key.2))
  }

  /** The ONU rows show the last sample of each ONU, blank serials having none, and every sample is stored, padded. */
  ghost predicate Polls(was: Db, batch: seq<Sample>, now: Db) {
    && Recorded(was, batch, now)
    && (forall device, serial ::
          if Blank(serial) then RowAt(now.onus, device, serial) == RowAt(was.onus, device, serial)
          else RowFollows(RowAt(was.onus, device, serial), RowAt(now.onus, device, serial), batch, device, serial))
    && |now.samples| == |was.samples| + |batch| && was.samples <= now.samples
    && (forall i :: 0 <= i < |batch| ==> PaddedFrom(batch[i], now.samples[|was.samples| + i]))
  }

  lemma {:induction false} RecordShows(db: Db, batch: seq<Sample>)
    ensures Recorded(db, batch, RecordBatch(db, batch))
  {
    hide Padded, StatusFrom, EthFrom, PortFollows, StatusBatch, EthBatch, PadAll;
    forall key
      ensures PortFollows(PortOption(db.ports, key), PortOption(RecordBatch(db, batch).ports, key), batch, key.0, key.1,
                          key.2)
    {
      UpsertedPorts(db.ports, batch, key);
      NoSamples();
    }
    if batch != [] {
      BatchEvents(db.onus, db.ports, batch[0].device, batch);
    }
  }

  lemma {:induction false} PollShows(db: Db, batch: seq<Sample>)
    ensures Polls(db, batch, PollBatch(db, batch))
  {
    RecordShows(db, batch);
    hide Padded, StatusFrom, EthFrom, PaddedFrom, PortFollows, RecordBatch, UpsertOnus, RowFollows, Blank;
    var now := PollBatch(db, batch);
    forall device, serial
      ensures if Blank(serial) then RowAt(now.onus, device, serial) == RowAt(db.onus, device, serial)
              else RowFollows(RowAt(db.onus, device, serial), RowAt(now.onus, device, serial), batch, device, serial)
    {
      if Blank(serial) {
        BlankUntouched(db.onus, PadAll(batch), device, serial);
      } else {
        UpsertedRow(db.onus, batch, device, serial);
      }
    }
    forall i | 0 <= i < |batch| ensures PaddedFrom(batch[i], now.samples[|db.samples| + i]) {
      PaddedIdempotent(batch[i]);
      PaddingKeepsPromise(batch[i]);
    }
  }
}
