/**
  * Reading an owned table back: a snapshot is evidence only if it shows exactly
  * the table that was installed, each of the five counters once, and no fault.
  */
module OwnedAttestation {
  import opened Selection
  import opened OwnedRouteRules
  import opened OwnedLedgerRuns

  datatype TableInfo = TableInfo(family: Option<string>, name: Option<string>, comment: Option<string>,
                                 handle: Option<nat>)
  /** `name` is the counter of that name, or None for a missing or unknown name. */
  datatype CounterInfo = CounterInfo(name: Option<Counter>, family: Option<string>, table: Option<string>,
                                     comment: Option<string>, bytes: Option<nat>)

  /** One element of the snapshot's list; `Malformed` is anything but an object with one key. */
  datatype Entry = TableEntry(info: TableInfo) | CounterEntry(reading: CounterInfo) | OtherEntry | Malformed

  datatype Reason =
    | OwnerMismatch | HandleInvalid | GenerationChanged
    | CounterNameInvalid | CounterOwnerMismatch | CounterBytesInvalid | CounterDuplicate | CounterMissing
    | NonIpv4Traffic | WrongEgress | FlowAccountingFailed

  datatype Attestation<T> = Attested(value: T) | Rejected(reason: Reason)

  /** The one refusal reported, most specific cause first. */
  function AccountingFault(c: Counters): (r: Option<Reason>)
    ensures r.None? <==> c.Faults() == 0
  {
    if c.family != 0 then Some(NonIpv4Traffic)
    else if c.egress != 0 then Some(WrongEgress)
    else if c.unregistered != 0 then Some(FlowAccountingFailed)
    else None
  }

  function Tables(entries: seq<Entry>): seq<TableInfo> {
    if entries == [] then []
    else
      var last := entries[|entries| - 1];
      Tables(entries[..|entries| - 1]) + if last.TableEntry? then [last.info] else []
  }

  function Readings(entries: seq<Entry>, counter: Counter): seq<CounterInfo> {
    if entries == [] then []
    else
      var last := entries[|entries| - 1];
      Readings(entries[..|entries| - 1], counter)
      + if last.CounterEntry? && last.reading.name == Some(counter) then [last.reading] else []
  }

  function ExactReading(counter: Counter, table: string, owner: string, bytes: nat): CounterInfo {
    CounterInfo(Some(counter), Some("inet"), Some(table), Some(owner + FLOW_ACCOUNTING_OWNER_SUFFIX), Some(bytes))
  }

  /** The snapshot names one table, and it is the one installed for this owner. */
  predicate ShowsTable(entries: seq<Entry>, table: string, owner: string, handle: nat) {
    && table != "" && owner != "" && handle != 0
    && Malformed !in entries
    && Tables(entries) == [TableInfo(Some("inet"), Some(table), Some(owner), Some(handle))]
  }

  /** Every counter shown is one of the five, and each of the five is shown once, with these bytes. */
  ghost predicate ShowsCounters(entries: seq<Entry>, table: string, owner: string, c: Counters) {
    && (forall i :: 0 <= i < |entries| && entries[i].CounterEntry? ==> entries[i].reading.name.Some?)
    && forall counter :: Readings(entries, counter) == [ExactReading(counter, table, owner, c.Get(counter))]
  }

  /** The snapshot is the table of this handle with exactly these counters, each shown once. */
  ghost predicate Shows(entries: seq<Entry>, table: string, owner: string, handle: nat, c: Counters) {
    ShowsTable(entries, table, owner, handle) && ShowsCounters(entries, table, owner, c)
  }

  lemma {:induction false} TablesPrefix(entries: seq<Entry>, i: nat)
    requires i <= |entries|
    ensures Tables(entries[..i]) <= Tables(entries)
    decreases |entries| - i
  {
    if i < |entries| {
      TablesPrefix(entries, i + 1);
      assert entries[..i + 1][..i] == entries[..i];
    } else {
      assert entries[..i] == entries;
    }
  }

  lemma {:induction false} ReadingsPrefix(entries: seq<Entry>, counter: Counter, i: nat)
    requires i <= |entries|
    ensures Readings(entries[..i], counter) <= Readings(entries, counter)
    decreases |entries| - i
  {
    if i < |entries| {
      ReadingsPrefix(entries, counter, i + 1);
      assert entries[..i + 1][..i] == entries[..i];
    } else {
      assert entries[..i] == entries;
    }
  }

  method AttestTable(entries: seq<Entry>, table: string, owner: string) returns (r: Attestation<nat>)
    ensures forall handle: nat :: r == Attested(handle) <==> ShowsTable(entries, table, owner, handle)
  {
    if table == "" || owner == "" {
      return Rejected(OwnerMismatch);
    }
    var handle: Option<nat> := None;
    var i := 0;
    while i < |entries|
      invariant 0 <= i <= |entries|
      invariant Malformed !in entries[..i]
      invariant handle.None? ==> Tables(entries[..i]) == []
      invariant handle.Some? ==> handle.value != 0
                                 && Tables(entries[..i]) == [TableInfo(Some("inet"), Some(table), Some(owner), handle)]
    {
      assert entries[..i + 1] == entries[..i] + [entries[i]];
      TablesPrefix(entries, i + 1);
      if entries[i].Malformed? {
        assert Malformed in entries;
        return Rejected(OwnerMismatch);
      }
      if entries[i].TableEntry? {
        var info := entries[i].info;
        if handle.Some? || info.family != Some("inet") || info.name != Some(table) || info.comment != Some(owner) {
          var seen := Tables(entries[..i + 1]);
          assert seen == Tables(entries[..i]) + [info] && seen[|seen| - 1] == info && seen <= Tables(entries);
          return Rejected(OwnerMismatch);
        }
        if info.handle.None? || info.handle.value == 0 {
          assert Tables(entries[..i + 1])[0] == info;
          return Rejected(HandleInvalid);
        }
        handle := info.handle;
      }
      i := i + 1;
    }
    assert entries[..i] == entries;
    r := if handle.None? then Rejected(OwnerMismatch) else Attested(handle.value);
  }

  /** The counters' slots of the source's five-element array. */
  function Slot(counter: Counter): nat {
    match counter case Rx => 0 case Tx => 1 case FamilyFault => 2 case UnregisteredFault => 3 case EgressFault => 4
  }

  ghost predicate SlotsFilled(slots: seq<Option<nat>>, entries: seq<Entry>, table: string, owner: string) {
    && |slots| == 5
    && forall counter ::
         Readings(entries, counter) == if slots[Slot(counter)].None? then []
                                       else [ExactReading(counter, table, owner, slots[Slot(counter)].value)]
  }

  /** One counter of the snapshot: refused, or stored in its empty slot. */
  function Admit(slots: seq<Option<nat>>, reading: CounterInfo, table: string,
                 owner: string): (r: Attestation<seq<Option<nat>>>)
    requires |slots| == 5
    ensures r.Attested? <==>
            && reading.name.Some? && reading.bytes.Some?
            && reading == ExactReading(reading.name.value, table, owner, reading.bytes.value)
            && slots[Slot(reading.name.value)].None?
    ensures r.Attested? ==> r.value == slots[Slot(reading.name.value) := reading.bytes]
  {
    if reading.name.None? then Rejected(CounterNameInvalid)
    else if reading.family != Some("inet") || reading.table != Some(table)
            || reading.comment != Some(owner + FLOW_ACCOUNTING_OWNER_SUFFIX) then Rejected(CounterOwnerMismatch)
    else if reading.bytes.None? then Rejected(CounterBytesInvalid)
    else if slots[Slot(reading.name.value)].Some? then Rejected(CounterDuplicate)
    else Attested(slots[Slot(reading.name.value) := reading.bytes])
  }

  lemma RefusedReading(slots: seq<Option<nat>>, entries: seq<Entry>, i: nat, table: string, owner: string, c: Counters)
    requires i < |entries| && entries[i].CounterEntry? && SlotsFilled(slots, entries[..i], table, owner)
    requires Admit(slots, entries[i].reading, table, owner).Rejected?
    ensures !ShowsCounters(entries, table, owner, c)
  {
    var reading := entries[i].reading;
    if reading.name.Some? {
      var counter := reading.name.value;
      ReadingsPrefix(entries, counter, i + 1);
      assert entries[..i + 1][..i] == entries[..i];
      var seen := Readings(entries[..i + 1], counter);
      assert seen == Readings(entries[..i], counter) + [reading];
      assert seen[|seen| - 1] == reading && seen <= Readings(entries, counter);
    }
  }

  lemma AdmittedReading(slots: seq<Option<nat>>, entries: seq<Entry>, i: nat, table: string, owner: string)
    requires i < |entries| && entries[i].CounterEntry? && SlotsFilled(slots, entries[..i], table, owner)
    requires Admit(slots, entries[i].reading, table, owner).Attested?
    ensures SlotsFilled(Admit(slots, entries[i].reading, table, owner).value, entries[..i + 1], table, owner)
  {
    assert entries[..i + 1][..i] == entries[..i];
    var counter, bytes := entries[i].reading.name.value, entries[i].reading.bytes.value;
    forall c: Counter
      ensures Readings(entries[..i + 1], c)
              == Readings(entries[..i], c) + if c == counter then [ExactReading(counter, table, owner, bytes)] else []
    {}
  }

  /** Fill the five slots, refusing unknown, foreign, unreadable and repeated counters. */
  method ReadCounters(entries: seq<Entry>, table: string, owner: string) returns (r: Attestation<Counters>)
    ensures r.Attested? ==> ShowsCounters(entries, table, owner, r.value)
    ensures r.Rejected? ==> forall c: Counters :: !ShowsCounters(entries, table, owner, c)
  {
    var slots: seq<Option<nat>> := [None, None, None, None, None];
    var i := 0;
    while i < |entries|
      invariant 0 <= i <= |entries|
      invariant forall j :: 0 <= j < i && entries[j].CounterEntry? ==> entries[j].reading.name.Some?
      invariant SlotsFilled(slots, entries[..i], table, owner)
    {
      if entries[i].CounterEntry? {
        var next := Admit(slots, entries[i].reading, table, owner);
        if next.Rejected? {
          forall c: Counters ensures !ShowsCounters(entries, table, owner, c) {
            RefusedReading(slots, entries, i, table, owner, c);
          }
          return Rejected(next.reason);
        }
        AdmittedReading(slots, entries, i, table, owner);
        slots := next.value;
      } else {
        assert entries[..i + 1][..i] == entries[..i];
      }
      i := i + 1;
    }
    assert entries[..i] == entries;
    if slots[0].None? || slots[1].None? || slots[2].None? || slots[3].None? || slots[4].None? {
      MissingSlot(slots, entries, table, owner);
      return Rejected(CounterMissing);
    }
    r := Attested(Counters(slots[0].value, slots[1].value, slots[2].value, slots[3].value, slots[4].value));
  }

  lemma MissingSlot(slots: seq<Option<nat>>, entries: seq<Entry>, table: string, owner: string)
    requires SlotsFilled(slots, entries, table, owner)
    requires slots[0].None? || slots[1].None? || slots[2].None? || slots[3].None? || slots[4].None?
    ensures forall c: Counters :: !ShowsCounters(entries, table, owner, c)
  {
    var counter := if slots[0].None? then Rx else if slots[1].None? then Tx else if slots[2].None? then FamilyFault
                   else if slots[3].None? then UnregisteredFault else EgressFault;
    assert Readings(entries, counter) == [];
  }

  lemma OneReading(entries: seq<Entry>, table: string, owner: string, c: Counters, d: Counters)
    requires ShowsCounters(entries, table, owner, c) && ShowsCounters(entries, table, owner, d)
    ensures c == d
  {
    forall counter ensures c.Get(counter) == d.Get(counter) {
      assert Readings(entries, counter)[0] == ExactReading(counter, table, owner, c.Get(counter));
      assert Readings(entries, counter)[0] == ExactReading(counter, table, owner, d.Get(counter));
    }
    assert c.Get(Rx) == d.Get(Rx) && c.Get(Tx) == d.Get(Tx) && c.Get(FamilyFault) == d.Get(FamilyFault);
    assert c.Get(UnregisteredFault) == d.Get(UnregisteredFault) && c.Get(EgressFault) == d.Get(EgressFault);
  }

  /** Permanent owners: the exact generation, complete evidence and no fault, or the reason why not. */
  method AttestOwnedCounters(entries: seq<Entry>, table: string, owner: string, handle: nat)
    returns (r: Attestation<(nat, nat)>)
    ensures r.Attested? ==> Shows(entries, table, owner, handle, Counters(r.value.0, r.value.1, 0, 0, 0))
    ensures forall c: Counters :: Shows(entries, table, owner, handle, c) ==>
              r == match AccountingFault(c) case None => Attested((c.rx, c.tx)) case Some(reason) => Rejected(reason)
  {
    var shown := AttestTable(entries, table, owner);
    if shown.Rejected? {
      return Rejected(shown.reason);
    }
    if shown.value != handle {
      return Rejected(GenerationChanged);
    }
    var counters := ReadCounters(entries, table, owner);
    if counters.Rejected? {
      return Rejected(counters.reason);
    }
    var c := counters.value;
    forall d: Counters | ShowsCounters(entries, table, owner, d) ensures c == d {
      OneReading(entries, table, owner, c, d);
    }
    match AccountingFault(c)
    case Some(reason) => r := Rejected(reason);
    case None => r := Attested((c.rx, c.tx));
  }

  /**
    * End to end: if a snapshot shows the counters of a run and is accepted as
    * (rx, tx), then the run was free of faults and tx is exactly what the owner
    * sent, plus the orphaned packets of its tuples.
    */
  lemma AttestedRun(g: Program, events: seq<Event>, entries: seq<Entry>, table: string, owner: string, handle: nat,
                    rx: nat, tx: nat)
    requires Shows(entries, table, owner, handle, Run(g, FRESH, events).counters)
    requires Shows(entries, table, owner, handle, Counters(rx, tx, 0, 0, 0))
    ensures Run(g, FRESH, events).counters == Counters(rx, tx, 0, 0, 0)
    ensures tx == OwnerBytes(g, events) + LateBytes(g, FRESH, events)
  {
    OneReading(entries, table, owner, Run(g, FRESH, events).counters, Counters(rx, tx, 0, 0, 0));
    BytesAreConserved(g, events);
  }
}
