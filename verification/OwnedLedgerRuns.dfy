/**
  * Whole runs of the rendered program, hook by hook: any packets, in any order,
  * at the output, egress and input hooks of the freshly created table. A packet's
  * passage through two hooks is two events with any others in between.
  */
module OwnedLedgerRuns {
  import opened Selection
  import opened OwnedRouteRules
  import opened OwnedLedger

  datatype Program = Program(owner: SocketOwner, routeMark: Option<(bv32, bv32)>, device: string)

  datatype Event = Sending(packet: Packet) | Leaving(packet: Packet) | Receiving(packet: Packet)

  function React(g: Program, t: Table, e: Event): Outcome {
    match e
    case Sending(p) => RunHook(OutputRules(g.owner, g.routeMark), t, p)
    case Leaving(p) => RunHook(EgressRules(g.owner, g.device), t, p)
    case Receiving(p) => RunHook(InputRules(), t, p)
  }

  function Run(g: Program, t: Table, events: seq<Event>): Table {
    if events == [] then t
    else React(g, Run(g, t, events[..|events| - 1]), events[|events| - 1]).table
  }

  predicate OwnerEvent(g: Program, e: Event) { !e.Receiving? && IsOwner(g.owner, e.packet) }
  predicate ForeignEvent(g: Program, e: Event) { !e.Receiving? && IsForeign(g.owner, e.packet) }

  /** A kernel packet of a claimed tuple whose socket is already gone. */
  predicate LateSend(t: Table, e: Event) { e.Sending? && e.packet.socket.None? && Claimed(t, e.packet) }

  /** The ledger's own account of one event, without rules. */
  lemma ReactIsLedger(g: Program, t: Table, e: Event)
    ensures React(g, t, e) == match e
      case Sending(p) => LedgerOutput(g.owner, g.routeMark, t, p)
      case Leaving(p) => LedgerEgress(g.owner, g.device, t, p)
      case Receiving(p) => LedgerInput(t, p)
  {
    match e
    case Sending(p) => OutputRefines(g.owner, g.routeMark, t, p);
    case Leaving(p) => EgressRefines(g.owner, g.device, t, p);
    case Receiving(p) => InputRefines(t, p);
  }

  /** At the output hook an owner's packet is charged once, or refused and counted by its length. */
  lemma OwnerSendAccounted(g: Program, t: Table, p: Packet)
    requires IsOwner(g.owner, p)
    ensures var o := React(g, t, Sending(p));
            var before, after := t.counters, o.table.counters;
            && (o.verdict.Accepted? ==> after == before.(tx := before.tx + p.bytes))
            && (o.verdict.Dropped? ==>
                  after == before.Add(if p.family.Ipv4? then UnregisteredFault else FamilyFault, p.bytes))
            && !o.verdict.Continue?
  {
    ReactIsLedger(g, t, Sending(p));
  }

  /** At the egress hook it passes only by the measured device or to the local resolver, and is counted otherwise. */
  lemma OwnerLeaveAccounted(g: Program, t: Table, p: Packet)
    requires IsOwner(g.owner, p)
    ensures var o := React(g, t, Leaving(p));
            && (o.verdict.Accepted? <==> p.outDevice == g.device || LocalResolver(p))
            && o.table == if o.verdict.Accepted? then t else Credit(t, EgressFault, p)
  {
    ReactIsLedger(g, t, Leaving(p));
  }

  /** A packet of another known socket is never charged, marked or refused where it is sent. */
  lemma ForeignSendUntouched(g: Program, t: Table, p: Packet)
    requires IsForeign(g.owner, p)
    ensures var o := React(g, t, Sending(p)); o.verdict.Accepted? && o.packet == p && o.table.counters == t.counters
    ensures Recordable(p) ==> p.ct.value.Flow() !in React(g, t, Sending(p)).table.flows
  {
    ReactIsLedger(g, t, Sending(p));
  }

  /** Where it leaves, it is dropped exactly when its tuple is claimed and it goes by neither lo nor the device. */
  lemma ForeignLeaveDropped(g: Program, t: Table, p: Packet)
    requires IsForeign(g.owner, p)
    ensures var o := React(g, t, Leaving(p));
            && (o.verdict.Dropped? <==>
                  Recordable(p) && p.ct.value.Flow() in t.flows && p.outDevice != "lo" && p.outDevice != g.device)
            && (o.verdict.Accepted? <==> !o.verdict.Dropped?)
            && o.table == if o.verdict.Dropped? then Credit(t, EgressFault, p) else t
  {
    ReactIsLedger(g, t, Leaving(p));
  }

  /** A packet without a socket is charged when its tuple is claimed, and neither claims nor releases one. */
  lemma OrphanSendAccounted(g: Program, t: Table, p: Packet)
    requires p.socket.None?
    ensures React(g, t, Sending(p)).verdict.Accepted?
    ensures React(g, t, Sending(p)).table == if Claimed(t, p) then Credit(t, Tx, p) else t
  {
    ReactIsLedger(g, t, Sending(p));
  }

  /** What any event does to the counters that conservation speaks about, and to the faults. */
  lemma CountersAfter(g: Program, t: Table, e: Event)
    ensures var before, after := t.counters, React(g, t, e).table.counters;
            && after.tx + after.family + after.unregistered
               == before.tx + before.family + before.unregistered
                  + (if e.Sending? && (IsOwner(g.owner, e.packet) || LateSend(t, e)) then e.packet.bytes else 0)
            && after.Faults()
               == before.Faults() + (if React(g, t, e).verdict.Dropped? then e.packet.bytes else 0)
            && (React(g, t, e).verdict.Accepted? || React(g, t, e).verdict.Dropped?)
  {
    ReactIsLedger(g, t, e);
    if e.Sending? {
      if IsOwner(g.owner, e.packet) {
        OwnerSendAccounted(g, t, e.packet);
      } else if IsForeign(g.owner, e.packet) {
        ForeignSendUntouched(g, t, e.packet);
      } else {
        OrphanSendAccounted(g, t, e.packet);
      }
    }
  }

  function OwnerBytes(g: Program, events: seq<Event>): nat {
    if events == [] then 0
    else
      var e := events[|events| - 1];
      OwnerBytes(g, events[..|events| - 1]) + if e.Sending? && IsOwner(g.owner, e.packet) then e.packet.bytes else 0
  }

  function LateBytes(g: Program, t: Table, events: seq<Event>): nat {
    if events == [] then 0
    else
      var e, rest := events[|events| - 1], events[..|events| - 1];
      LateBytes(g, t, rest) + if LateSend(Run(g, t, rest), e) then e.packet.bytes else 0
  }

  /**
    * Conservation. Whatever the order of packets, the bytes charged or refused at
    * the output hook are exactly the bytes the owner sent plus those of orphaned
    * packets of its claimed tuples.
    */
  lemma {:induction false} BytesAreConserved(g: Program, events: seq<Event>)
    ensures var c := Run(g, FRESH, events).counters;
            c.tx + c.family + c.unregistered == OwnerBytes(g, events) + LateBytes(g, FRESH, events)
  {
    if events != [] {
      BytesAreConserved(g, events[..|events| - 1]);
      CountersAfter(g, Run(g, FRESH, events[..|events| - 1]), events[|events| - 1]);
    }
  }

  lemma {:induction false} FaultsOnlyGrow(g: Program, t: Table, events: seq<Event>, i: nat)
    requires i <= |events|
    ensures Run(g, t, events[..i]).counters.Faults() <= Run(g, t, events).counters.Faults()
    decreases |events| - i
  {
    if i == |events| {
      assert events[..i] == events;
    } else {
      FaultsOnlyGrow(g, t, events, i + 1);
      assert events[..i + 1][..i] == events[..i];
      CountersAfter(g, Run(g, t, events[..i]), events[i]);
    }
  }

  /**
    * Safety of a run whose fault counters read zero, at every one of its events:
    * no packet was refused by any hook; an owner packet was charged once and in
    * full where it was sent and left only by the measured device or to the local
    * resolver; a packet of another known socket changed no counter.
    */
  lemma FaultFreeRun(g: Program, events: seq<Event>, i: nat)
    requires i < |events| && events[i].packet.bytes > 0
    requires Run(g, FRESH, events).counters.Faults() == 0
    ensures var t, e := Run(g, FRESH, events[..i]), events[i];
            var o := React(g, t, e);
            && o.verdict.Accepted?
            && (OwnerEvent(g, e) && e.Sending? ==>
                  o.table.counters == t.counters.(tx := t.counters.tx + e.packet.bytes))
            && (OwnerEvent(g, e) && e.Leaving? ==>
                  o.table == t && (e.packet.outDevice == g.device || LocalResolver(e.packet)))
            && (ForeignEvent(g, e) ==> o.table.counters == t.counters)
  {
    var t, e := Run(g, FRESH, events[..i]), events[i];
    FaultsOnlyGrow(g, FRESH, events, i);
    FaultsOnlyGrow(g, FRESH, events, i + 1);
    assert events[..i + 1][..i] == events[..i];
    CountersAfter(g, t, e);
    if OwnerEvent(g, e) {
      OwnerSendAccounted(g, t, e.packet);
      OwnerLeaveAccounted(g, t, e.packet);
    } else if ForeignEvent(g, e) {
      ForeignSendUntouched(g, t, e.packet);
      ForeignLeaveDropped(g, t, e.packet);
    }
  }

  // -------------------------------------------------------------------------
  // What membership in the flow set means.

  predicate Touches(e: Event, flow: Flow) { e.Sending? && Recordable(e.packet) && e.packet.ct.value.Flow() == flow }

  /** Only a sent packet changes the flow set, and only by claiming or releasing its own tuple. */
  lemma FlowsAfter(g: Program, t: Table, e: Event)
    ensures React(g, t, e).table.flows == if e.Sending? then Recorded(g.owner, t, e.packet).flows else t.flows
  {
    ReactIsLedger(g, t, e);
  }

  lemma FlowChange(g: Program, t: Table, e: Event, flow: Flow)
    ensures flow in React(g, t, e).table.flows <==>
            if Touches(e, flow) && IsOwner(g.owner, e.packet) then Fits(t.flows, flow)
            else if Touches(e, flow) && IsForeign(g.owner, e.packet) then false
            else flow in t.flows
  {
    FlowsAfter(g, t, e);
  }

  lemma ClaimBounded<T>(known: set<T>, key: T, owner: SocketOwner, p: Packet)
    requires |known| <= MAX_ACCOUNTING_FLOWS
    ensures |Claim(known, key, owner, p)| <= MAX_ACCOUNTING_FLOWS
  {
    if Claim(known, key, owner, p) <= known {
      Subset(Claim(known, key, owner, p), known);
    }
  }

  lemma Subset<T>(a: set<T>, b: set<T>)
    requires a <= b
    ensures |a| <= |b|
  {
    assert b == a + (b - a);
  }

  /** The last known socket to use a claimed tuple was the owner's. */
  lemma {:induction false} ClaimedMeansOwned(g: Program, t: Table, events: seq<Event>, flow: Flow) returns (i: nat)
    requires flow in Run(g, t, events).flows && flow !in t.flows
    ensures i < |events| && Touches(events[i], flow) && IsOwner(g.owner, events[i].packet)
    ensures forall j :: i < j < |events| ==> !(Touches(events[j], flow) && IsForeign(g.owner, events[j].packet))
  {
    var last, rest := |events| - 1, events[..|events| - 1];
    FlowChange(g, Run(g, t, rest), events[last], flow);
    if Touches(events[last], flow) && IsOwner(g.owner, events[last].packet) {
      i := last;
    } else {
      i := ClaimedMeansOwned(g, t, rest, flow);
    }
  }

  lemma {:induction false} RunFlowsBounded(g: Program, events: seq<Event>)
    ensures |Run(g, FRESH, events).flows| <= MAX_ACCOUNTING_FLOWS
  {
    if events != [] {
      var t, e := Run(g, FRESH, events[..|events| - 1]), events[|events| - 1];
      RunFlowsBounded(g, events[..|events| - 1]);
      FlowsAfter(g, t, e);
      if e.Sending? && Recordable(e.packet) {
        ClaimBounded(t.flows, e.packet.ct.value.Flow(), g.owner, e.packet);
      }
    }
  }

  // -------------------------------------------------------------------------
  // A foreign packet between its two hooks.

  /** Where rerouting and translation take a packet that passed the output hook. */
  datatype Route = Route(outDevice: string, destination: Address)

  function Rerouted(p: Packet, route: Route): Packet {
    p.(outDevice := route.outDevice, destination := route.destination)
  }

  /**
    * After any events between its two hooks a foreign packet is dropped exactly if
    * its tuple is claimed by then and it leaves by neither lo nor the device; and
    * then an owner packet of the same tuple was sent in between.
    */
  lemma SplitHooks(g: Program, t: Table, p: Packet, between: seq<Event>, route: Route)
    requires IsForeign(g.owner, p)
    ensures var t1 := Run(g, React(g, t, Sending(p)).table, between);
            var dropped := React(g, t1, Leaving(Rerouted(p, route))).verdict.Dropped?;
            && (dropped <==>
                  Recordable(p) && p.ct.value.Flow() in t1.flows && route.outDevice != "lo"
                  && route.outDevice != g.device)
            && (dropped ==> exists i :: 0 <= i < |between| && Touches(between[i], p.ct.value.Flow())
                                        && IsOwner(g.owner, between[i].packet))
  {
    var t0 := React(g, t, Sending(p)).table;
    var t1 := Run(g, t0, between);
    ForeignSendUntouched(g, t, p);
    ForeignLeaveDropped(g, t1, Rerouted(p, route));
    if React(g, t1, Leaving(Rerouted(p, route))).verdict.Dropped? {
      var i := ClaimedMeansOwned(g, t0, between, p.ct.value.Flow());
      assert Touches(between[i], p.ct.value.Flow());
    }
  }

  const LAN_TUPLE := Conntrack(0, Original, V4(1), V4(2), Udp, 4000, 443)

  /** A datagram of one local tuple, from a socket of this user. */
  function Datagram(uid: nat): Packet {
    Packet(Ipv4, 100, Some(Socket(uid, uid)), Some(LAN_TUPLE), "wan", "", V4(2), Udp, 0)
  }

  /** It happens: the owner (user 7) sends on the tuple of a packet of user 8 that is on its way to another device. */
  lemma ForeignPacketCanBeDropped()
    ensures var g := Program(BackendUid(7), None, "wan");
            var t := Run(g, FRESH, [Sending(Datagram(8)), Sending(Datagram(7))]);
            var o := React(g, t, Leaving(Rerouted(Datagram(8), Route("lan", V4(2)))));
            IsForeign(g.owner, Datagram(8)) && o.verdict.Dropped? && o.table.counters.egress == 100
  {
    var g := Program(BackendUid(7), None, "wan");
    var events := [Sending(Datagram(8)), Sending(Datagram(7))];
    assert events[..1] == [Sending(Datagram(8))] && [Sending(Datagram(8))][..0] == [];
    var t1 := Run(g, FRESH, events[..1]);
    var t2 := Run(g, FRESH, events);
    assert t1 == React(g, FRESH, Sending(Datagram(8))).table;
    ForeignSendUntouched(g, FRESH, Datagram(8));
    FlowsAfter(g, FRESH, Sending(Datagram(8)));
    FlowChange(g, t1, Sending(Datagram(7)), LAN_TUPLE.Flow());
    OwnerSendAccounted(g, t1, Datagram(7));
    ForeignLeaveDropped(g, t2, Rerouted(Datagram(8), Route("lan", V4(2))));
  }
}
