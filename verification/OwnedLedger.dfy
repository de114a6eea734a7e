/**
  * The byte ledger of one socket owner, the proof that the rendered rules
  * implement it packet by packet, and what it guarantees over whole runs.
  */
module OwnedLedger {
  import opened Selection
  import opened OwnedRouteRules

  predicate IsOwner(owner: SocketOwner, p: Packet) {
    p.socket.Some? &&
    match owner
    case BackendUid(uid) => p.socket.value.uid == uid
    case ProbeRootGid(gid) => p.socket.value == Socket(0, gid)
  }

  /** A packet of a known socket that is not the owner's. */
  predicate IsForeign(owner: SocketOwner, p: Packet) { p.socket.Some? && !IsOwner(owner, p) }

  /** IPv4 in the default zone, in the original direction of its connection. */
  predicate Recordable(p: Packet) {
    p.family.Ipv4? && p.ct.Some? && p.ct.value.zone == 0 && p.ct.value.direction.Original?
  }

  predicate Loopback6Dns(p: Packet) {
    && p.family.Ipv6? && p.ct.Some? && p.ct.value.zone == 0
    && p.ct.value.source == LOOPBACK6 && p.ct.value.destination == LOOPBACK6
    && p.ct.value.protocol in {Tcp, Udp} && p.ct.value.destinationPort == 53
  }

  predicate Loopback6Query(p: Packet) {
    Loopback6Dns(p) && p.outDevice == "lo" && p.ct.value.direction.Original?
  }

  /** The owner claims a tuple if it fits, another socket releases it, an orphan packet leaves it. */
  function Claim<T>(known: set<T>, key: T, owner: SocketOwner, p: Packet): set<T> {
    if IsOwner(owner, p) then (if Fits(known, key) then known + {key} else known)
    else if IsForeign(owner, p) then known - {key}
    else known
  }

  function Recorded(owner: SocketOwner, t: Table, p: Packet): Table {
    if Recordable(p) then t.(flows := Claim(t.flows, p.ct.value.Flow(), owner, p))
    else if Loopback6Query(p) then t.(dns6 := Claim(t.dns6, p.ct.value.Dns6(), owner, p))
    else t
  }

  predicate Claimed(t: Table, p: Packet) {
    || (Recordable(p) && p.ct.value.Flow() in t.flows)
    || (Loopback6Query(p) && p.ct.value.Dns6() in t.dns6)
  }

  datatype Ruling = Charge | Refuse(fault: Counter) | Pass

  /** A claimed tuple is charged, an unclaimed owner packet refused, and nothing else touched. */
  function SendRuling(owner: SocketOwner, t: Table, p: Packet): Ruling {
    if Claimed(t, p) then Charge
    else if !IsOwner(owner, p) then Pass
    else Refuse(if p.family.Ipv4? then UnregisteredFault else FamilyFault)
  }

  function Marked(routeMark: Option<(bv32, bv32)>, p: Packet): Packet {
    if Recordable(p) && routeMark.Some? then p.(mark := Remarked(p.mark, routeMark.value.0, routeMark.value.1)) else p
  }

  function Credit(t: Table, counter: Counter, p: Packet): Table { t.(counters := t.counters.Add(counter, p.bytes)) }

  function LedgerOutput(owner: SocketOwner, routeMark: Option<(bv32, bv32)>, t: Table, p: Packet): Outcome {
    var recorded := Recorded(owner, t, p);
    match SendRuling(owner, recorded, p)
    case Charge => Outcome(Credit(recorded, Tx, p), Marked(routeMark, p), Accepted)
    case Refuse(fault) => Outcome(Credit(recorded, fault, p), p, Dropped)
    case Pass => Outcome(recorded, p, Accepted)
  }

  /** A reply of a claimed tuple is received for the owner. */
  function LedgerInput(t: Table, p: Packet): Outcome {
    var reply := p.ct.Some? && p.ct.value.zone == 0 && p.ct.value.direction.Reply?;
    var claimed := reply && (
      || (p.family.Ipv4? && p.ct.value.Flow() in t.flows)
      || (Loopback6Dns(p) && p.inDevice == "lo" && p.ct.value.Dns6() in t.dns6));
    Outcome(if claimed then Credit(t, Rx, p) else t, p, Accepted)
  }

  predicate LocalResolver(p: Packet) {
    && p.outDevice == "lo"
    && ((p.family.Ipv4? && p.destination == LOOPBACK4) || (p.family.Ipv6? && p.destination == LOOPBACK6))
    && p.protocol in {Tcp, Udp} && p.ct.Some? && p.ct.value.destinationPort == 53
  }

  predicate EgressAllowed(owner: SocketOwner, device: string, t: Table, p: Packet) {
    || p.outDevice == device
    || (if IsOwner(owner, p) then LocalResolver(p)
        else p.outDevice == "lo" || !(Recordable(p) && p.ct.value.Flow() in t.flows))
  }

  function LedgerEgress(owner: SocketOwner, device: string, t: Table, p: Packet): Outcome {
    if EgressAllowed(owner, device, t, p) then Outcome(t, p, Accepted)
    else Outcome(Credit(t, EgressFault, p), p, Dropped)
  }

  // -------------------------------------------------------------------------
  // The rules implement the ledger.

  ghost predicate All(conditions: seq<Match>, t: Table, p: Packet) {
    forall m :: m in conditions ==> Holds(m, t, p)
  }

  lemma AllConcat(a: seq<Match>, b: seq<Match>, t: Table, p: Packet)
    ensures All(a + b, t, p) <==> All(a, t, p) && All(b, t, p)
  {
    assert forall m :: m in a + b <==> m in a || m in b;
  }

  lemma AllOfThree(a: Match, b: Match, c: Match, t: Table, p: Packet)
    ensures All([a, b, c], t, p) <==> Holds(a, t, p) && Holds(b, t, p) && Holds(c, t, p)
  {
    var s := [a, b, c];
    assert s[0] in s && s[1] in s && s[2] in s;
  }

  lemma {:induction false} GuardedRule(conditions: seq<Match>, effects: Rule, t: Table, p: Packet)
    ensures RunRule(Guards(conditions) + effects, t, p)
            == if All(conditions, t, p) then RunRule(effects, t, p) else Outcome(t, p, Continue)
  {
    var rule := Guards(conditions) + effects;
    if conditions == [] {
      assert rule == effects;
    } else {
      assert rule[0] == When(conditions[0]);
      assert rule[1..] == Guards(conditions[1..]) + effects;
      GuardedRule(conditions[1..], effects, t, p);
      assert conditions == [conditions[0]] + conditions[1..];
      AllConcat([conditions[0]], conditions[1..], t, p);
      assert conditions[0] in [conditions[0]];
    }
  }

  lemma {:induction false} ChainConcat(a: seq<Rule>, b: seq<Rule>, t: Table, p: Packet)
    ensures RunChain(a + b, t, p)
            == var o := RunChain(a, t, p); if o.verdict.Continue? then RunChain(b, o.table, o.packet) else o
  {
    if a == [] {
      assert a + b == b;
    } else {
      assert (a + b)[0] == a[0] && (a + b)[1..] == a[1..] + b;
      var o := RunRule(a[0], t, p);
      ChainConcat(a[1..], b, o.table, o.packet);
    }
  }

  lemma OneRule(rule: Rule, t: Table, p: Packet)
    ensures RunChain([rule], t, p) == RunRule(rule, t, p)
  {
    assert RunChain([rule][1..], RunRule(rule, t, p).table, RunRule(rule, t, p).packet)
           == Outcome(RunRule(rule, t, p).table, RunRule(rule, t, p).packet, Continue);
  }

  /** Running one guarded rule in front of a chain. */
  lemma GuardedThen(conditions: seq<Match>, effects: Rule, rest: seq<Rule>, t: Table, p: Packet)
    ensures RunChain([Guards(conditions) + effects] + rest, t, p)
            == var o := if All(conditions, t, p) then RunRule(effects, t, p) else Outcome(t, p, Continue);
               if o.verdict.Continue? then RunChain(rest, o.table, o.packet) else o
  {
    ChainConcat([Guards(conditions) + effects], rest, t, p);
    OneRule(Guards(conditions) + effects, t, p);
    GuardedRule(conditions, effects, t, p);
  }

  lemma SingleEffect(e: Expression, t: Table, p: Packet)
    ensures var s := Execute(e, t, p);
            RunRule([e], t, p) == if s.Next? then Outcome(s.table, s.packet, Continue)
                                  else Outcome(t, p, if s.Decide? then s.verdict else Continue)
  {}

  lemma CountThen(counter: Counter, rest: Rule, t: Table, p: Packet)
    ensures RunRule([Count(counter)] + rest, t, p) == RunRule(rest, Credit(t, counter, p), p)
  {
    assert ([Count(counter)] + rest)[1..] == rest;
  }

  lemma OwnedMeans(owner: SocketOwner, t: Table, p: Packet)
    ensures All(Owned(owner), t, p) <==> IsOwner(owner, p)
  {
    assert UidIs(OwnerUid(owner)) in Owned(owner);
    if owner.ProbeRootGid? {
      assert GidIs(owner.gid) in Owned(owner);
    }
  }

  lemma RecordableMeans(t: Table, p: Packet)
    ensures All(RECORDABLE, t, p) <==> Recordable(p)
  {
    AllOfThree(FamilyIs(Ipv4), ZoneIs(0), DirectionIs(Original), t, p);
  }

  lemma Dns6ScopeMeans(t: Table, p: Packet)
    ensures All(DNS6_SCOPE, t, p) <==> Loopback6Dns(p)
  {
    var first := [FamilyIs(Ipv6), ZoneIs(0), Source6Is(LOOPBACK6)];
    var last := [Destination6Is(LOOPBACK6), TrackedTcpOrUdp, TrackedPortIs(53)];
    assert DNS6_SCOPE == first + last;
    AllConcat(first, last, t, p);
    AllOfThree(first[0], first[1], first[2], t, p);
    AllOfThree(last[0], last[1], last[2], t, p);
  }

  lemma Dns6OutputMeans(t: Table, p: Packet)
    ensures All(DNS6_OUTPUT, t, p) <==> Loopback6Query(p)
  {
    Dns6ScopeMeans(t, p);
    var s := [OutDeviceIs("lo"), DirectionIs(Original)];
    AllConcat(DNS6_SCOPE, s, t, p);
    assert s[0] in s && s[1] in s;
  }

  predicate SetEffect(e: Expression) { e.UpdateFlow? || e.DeleteFlow? || e.UpdateDns6? || e.DeleteDns6? }

  ghost function Applied(conditions: seq<Match>, e: Expression, t: Table, p: Packet): Table
    requires SetEffect(e)
  {
    if All(conditions, t, p) && Execute(e, t, p).Next? then Execute(e, t, p).table else t
  }

  lemma SetRule(conditions: seq<Match>, e: Expression, t: Table, p: Packet)
    requires SetEffect(e)
    ensures RunChain([Guards(conditions) + [e]], t, p) == Outcome(Applied(conditions, e, t, p), p, Continue)
  {
    OneRule(Guards(conditions) + [e], t, p);
    GuardedRule(conditions, [e], t, p);
    SingleEffect(e, t, p);
  }

  lemma TwoSetRules(a: seq<Match>, update: Expression, b: seq<Match>, delete: Expression, t: Table, p: Packet)
    requires SetEffect(update) && SetEffect(delete)
    ensures RunChain([Guards(a) + [update], Guards(b) + [delete]], t, p)
            == Outcome(Applied(b, delete, Applied(a, update, t, p), p), p, Continue)
  {
    SetRule(a, update, t, p);
    SetRule(b, delete, Applied(a, update, t, p), p);
    ChainConcat([Guards(a) + [update]], [Guards(b) + [delete]], t, p);
    assert [Guards(a) + [update]] + [Guards(b) + [delete]] == [Guards(a) + [update], Guards(b) + [delete]];
  }

  ghost function AfterRecord(owner: SocketOwner, scope: seq<Match>, update: Expression, delete: Expression, t: Table,
                             p: Packet): Table
    requires SetEffect(update) && SetEffect(delete)
  {
    var t1 := Applied(scope + Owned(owner), update, t, p);
    var t2 := Applied(scope + [UidIsNot(OwnerUid(owner))], delete, t1, p);
    if owner.BackendUid? then t2 else Applied(scope + [UidIs(0), GidIsNot(owner.gid)], delete, t2, p)
  }

  lemma RecordRuns(owner: SocketOwner, scope: seq<Match>, update: Expression, delete: Expression, t: Table, p: Packet)
    requires SetEffect(update) && SetEffect(delete)
    ensures RunChain(RecordRules(owner, scope, update, delete), t, p)
            == Outcome(AfterRecord(owner, scope, update, delete, t, p), p, Continue)
  {
    var a, b := scope + Owned(owner), scope + [UidIsNot(OwnerUid(owner))];
    var two := [Guards(a) + [update], Guards(b) + [delete]];
    TwoSetRules(a, update, b, delete, t, p);
    match owner
    case BackendUid(_) =>
      assert RecordRules(owner, scope, update, delete) == two;
    case ProbeRootGid(gid) =>
      var c := scope + [UidIs(0), GidIsNot(gid)];
      ChainConcat(two, [Guards(c) + [delete]], t, p);
      SetRule(c, delete, Applied(b, delete, Applied(a, update, t, p), p), p);
      assert RecordRules(owner, scope, update, delete) == two + [Guards(c) + [delete]];
  }

  lemma ScopedConditions(owner: SocketOwner, scope: seq<Match>, t: Table, p: Packet)
    ensures All(scope + Owned(owner), t, p) <==> All(scope, t, p) && IsOwner(owner, p)
    ensures All(scope + [UidIsNot(OwnerUid(owner))], t, p)
            <==> All(scope, t, p) && p.socket.Some? && p.socket.value.uid != OwnerUid(owner)
    ensures owner.ProbeRootGid? ==>
              (All(scope + [UidIs(0), GidIsNot(owner.gid)], t, p)
               <==> All(scope, t, p) && p.socket.Some? && p.socket.value.uid == 0 && p.socket.value.gid != owner.gid)
  {
    AllConcat(scope, Owned(owner), t, p);
    OwnedMeans(owner, t, p);
    var notUid := [UidIsNot(OwnerUid(owner))];
    AllConcat(scope, notUid, t, p);
    assert notUid[0] in notUid;
    if owner.ProbeRootGid? {
      var other := [UidIs(0), GidIsNot(owner.gid)];
      AllConcat(scope, other, t, p);
      assert other[0] in other && other[1] in other;
    }
  }

  lemma FlowsRecorded(owner: SocketOwner, t: Table, p: Packet)
    ensures AfterRecord(owner, RECORDABLE, UpdateFlow, DeleteFlow, t, p)
            == if Recordable(p) then t.(flows := Claim(t.flows, p.ct.value.Flow(), owner, p)) else t
  {
    forall t' ensures All(RECORDABLE, t', p) <==> Recordable(p) { RecordableMeans(t', p); }
    var t1 := Applied(RECORDABLE + Owned(owner), UpdateFlow, t, p);
    var t2 := Applied(RECORDABLE + [UidIsNot(OwnerUid(owner))], DeleteFlow, t1, p);
    ScopedConditions(owner, RECORDABLE, t, p);
    ScopedConditions(owner, RECORDABLE, t1, p);
    ScopedConditions(owner, RECORDABLE, t2, p);
  }

  lemma Dns6Recorded(owner: SocketOwner, t: Table, p: Packet)
    ensures AfterRecord(owner, DNS6_OUTPUT, UpdateDns6, DeleteDns6, t, p)
            == if Loopback6Query(p) then t.(dns6 := Claim(t.dns6, p.ct.value.Dns6(), owner, p)) else t
  {
    forall t' ensures All(DNS6_OUTPUT, t', p) <==> Loopback6Query(p) { Dns6OutputMeans(t', p); }
    var t1 := Applied(DNS6_OUTPUT + Owned(owner), UpdateDns6, t, p);
    var t2 := Applied(DNS6_OUTPUT + [UidIsNot(OwnerUid(owner))], DeleteDns6, t1, p);
    ScopedConditions(owner, DNS6_OUTPUT, t, p);
    ScopedConditions(owner, DNS6_OUTPUT, t1, p);
    ScopedConditions(owner, DNS6_OUTPUT, t2, p);
  }

  /** A rule that charges a counter and decides. */
  lemma DecidingRule(conditions: seq<Match>, counter: Counter, decision: Expression, rest: seq<Rule>, t: Table,
                     p: Packet)
    requires decision.Return? || decision.Drop?
    ensures RunChain([Guards(conditions) + [Count(counter), decision]] + rest, t, p)
            == if All(conditions, t, p)
               then Outcome(Credit(t, counter, p), p, if decision.Return? then Accepted else Dropped)
               else RunChain(rest, t, p)
  {
    GuardedThen(conditions, [Count(counter), decision], rest, t, p);
    assert [Count(counter), decision] == [Count(counter)] + [decision];
    CountThen(counter, [decision], t, p);
  }

  lemma TransmitMeans(t: Table, p: Packet)
    ensures All(RECORDABLE + [FlowIsOwned], t, p) <==> Recordable(p) && p.ct.value.Flow() in t.flows
  {
    var member := [FlowIsOwned];
    AllConcat(RECORDABLE, member, t, p);
    RecordableMeans(t, p);
    assert member[0] in member;
  }

  lemma MangleThen(clearMask: bv32, fwmark: bv32, rest: Rule, t: Table, p: Packet)
    ensures RunRule([Mangle(clearMask, fwmark)] + rest, t, p)
        == RunRule(rest, t, p.(mark := Remarked(p.mark, clearMask, fwmark)))
  {
    assert ([Mangle(clearMask, fwmark)] + rest)[1..] == rest;
  }

  lemma TransmitEffects(routeMark: Option<(bv32, bv32)>, t: Table, p: Packet)
    requires Recordable(p)
    ensures var mangle: Rule := match routeMark case None => [] case Some(m) => [Mangle(m.0, m.1)];
            RunRule([Count(Tx)] + (mangle + [Return]), t, p)
                == Outcome(Credit(t, Tx, p), Marked(routeMark, p), Accepted)
  {
    var mangle: Rule := match routeMark case None => [] case Some(m) => [Mangle(m.0, m.1)];
    CountThen(Tx, mangle + [Return], t, p);
    match routeMark
    case Some(m) =>
      MangleThen(m.0, m.1, [Return], Credit(t, Tx, p), p);
      SingleEffect(Return, Credit(t, Tx, p), Marked(routeMark, p));
    case None =>
      assert mangle + [Return] == [Return];
      SingleEffect(Return, Credit(t, Tx, p), p);
  }

  lemma TransmitRuns(routeMark: Option<(bv32, bv32)>, rest: seq<Rule>, t: Table, p: Packet)
    ensures RunChain([TransmitRule(routeMark)] + rest, t, p)
            == if Recordable(p) && p.ct.value.Flow() in t.flows
               then Outcome(Credit(t, Tx, p), Marked(routeMark, p), Accepted)
               else RunChain(rest, t, p)
  {
    var mangle: Rule := match routeMark case None => [] case Some(m) => [Mangle(m.0, m.1)];
    var effects := [Count(Tx)] + (mangle + [Return]);
    assert TransmitRule(routeMark) == Guards(RECORDABLE + [FlowIsOwned]) + effects;
    GuardedThen(RECORDABLE + [FlowIsOwned], effects, rest, t, p);
    TransmitMeans(t, p);
    if Recordable(p) {
      TransmitEffects(routeMark, t, p);
    }
  }

  lemma ChargeRuns(owner: SocketOwner, routeMark: Option<(bv32, bv32)>, t: Table, p: Packet)
    ensures RunHook(ChargeRules(owner, routeMark), t, p)
            == match SendRuling(owner, t, p)
               case Charge => Outcome(Credit(t, Tx, p), Marked(routeMark, p), Accepted)
               case Refuse(fault) => Outcome(Credit(t, fault, p), p, Dropped)
               case Pass => Outcome(t, p, Accepted)
  {
    var family := [Guards(Owned(owner)) + [Count(FamilyFault), Drop]];
    var unregistered := [Guards([FamilyIs(Ipv4)] + Owned(owner)) + [Count(UnregisteredFault), Drop]] + family;
    var transmit := [TransmitRule(routeMark)] + unregistered;
    var dns := [Dns6IsOwned];
    assert ChargeRules(owner, routeMark) == [Guards(DNS6_OUTPUT + dns) + [Count(Tx), Return]] + transmit;
    DecidingRule(DNS6_OUTPUT + dns, Tx, Return, transmit, t, p);
    AllConcat(DNS6_OUTPUT, dns, t, p);
    Dns6OutputMeans(t, p);
    assert dns[0] in dns;
    TransmitRuns(routeMark, unregistered, t, p);
    var ipv4 := [FamilyIs(Ipv4)];
    DecidingRule(ipv4 + Owned(owner), UnregisteredFault, Drop, family, t, p);
    AllConcat(ipv4, Owned(owner), t, p);
    assert ipv4[0] in ipv4;
    assert family == [Guards(Owned(owner)) + [Count(FamilyFault), Drop]] + [];
    DecidingRule(Owned(owner), FamilyFault, Drop, [], t, p);
    OwnedMeans(owner, t, p);
  }

  /** The output chain is the sending half of the ledger. */
  lemma OutputRefines(owner: SocketOwner, routeMark: Option<(bv32, bv32)>, t: Table, p: Packet)
    ensures RunHook(OutputRules(owner, routeMark), t, p) == LedgerOutput(owner, routeMark, t, p)
  {
    var flows := RecordRules(owner, RECORDABLE, UpdateFlow, DeleteFlow);
    var dns6 := RecordRules(owner, DNS6_OUTPUT, UpdateDns6, DeleteDns6);
    ChainConcat(flows + dns6, ChargeRules(owner, routeMark), t, p);
    ChainConcat(flows, dns6, t, p);
    RecordRuns(owner, RECORDABLE, UpdateFlow, DeleteFlow, t, p);
    FlowsRecorded(owner, t, p);
    var t1 := AfterRecord(owner, RECORDABLE, UpdateFlow, DeleteFlow, t, p);
    RecordRuns(owner, DNS6_OUTPUT, UpdateDns6, DeleteDns6, t1, p);
    Dns6Recorded(owner, t1, p);
    ChargeRuns(owner, routeMark, Recorded(owner, t, p), p);
  }

  /** A rule that only charges a counter. */
  lemma CountingRule(conditions: seq<Match>, counter: Counter, t: Table, p: Packet)
    ensures RunChain([Guards(conditions) + [Count(counter)]], t, p)
            == Outcome(if All(conditions, t, p) then Credit(t, counter, p) else t, p, Continue)
  {
    OneRule(Guards(conditions) + [Count(counter)], t, p);
    GuardedRule(conditions, [Count(counter)], t, p);
    SingleEffect(Count(counter), t, p);
  }

  lemma Receive6Means(t: Table, p: Packet)
    ensures All(DNS6_SCOPE + [InDeviceIs("lo"), DirectionIs(Reply), Dns6IsOwned], t, p)
            <==> Loopback6Dns(p) && p.inDevice == "lo" && p.ct.value.direction.Reply? && p.ct.value.Dns6() in t.dns6
  {
    AllConcat(DNS6_SCOPE, [InDeviceIs("lo"), DirectionIs(Reply), Dns6IsOwned], t, p);
    Dns6ScopeMeans(t, p);
    AllOfThree(InDeviceIs("lo"), DirectionIs(Reply), Dns6IsOwned, t, p);
  }

  lemma ReceiveMeans(t: Table, p: Packet)
    ensures All([FamilyIs(Ipv4), ZoneIs(0), DirectionIs(Reply), FlowIsOwned], t, p)
            <==> p.family.Ipv4? && p.ct.Some? && p.ct.value.zone == 0 && p.ct.value.direction.Reply?
                 && p.ct.value.Flow() in t.flows
  {
    var first, last := [FamilyIs(Ipv4), ZoneIs(0), DirectionIs(Reply)], [FlowIsOwned];
    assert first + last == [FamilyIs(Ipv4), ZoneIs(0), DirectionIs(Reply), FlowIsOwned];
    AllConcat(first, last, t, p);
    AllOfThree(FamilyIs(Ipv4), ZoneIs(0), DirectionIs(Reply), t, p);
    assert last[0] in last;
  }

  /** The input chain is its receiving half. */
  lemma InputRefines(t: Table, p: Packet)
    ensures RunHook(InputRules(), t, p) == LedgerInput(t, p)
  {
    var rules := InputRules();
    var a := DNS6_SCOPE + [InDeviceIs("lo"), DirectionIs(Reply), Dns6IsOwned];
    var b := [FamilyIs(Ipv4), ZoneIs(0), DirectionIs(Reply), FlowIsOwned];
    assert rules == [rules[0]] + [rules[1]];
    ChainConcat([rules[0]], [rules[1]], t, p);
    CountingRule(a, Rx, t, p);
    Receive6Means(t, p);
    var t1 := if All(a, t, p) then Credit(t, Rx, p) else t;
    CountingRule(b, Rx, t1, p);
    ReceiveMeans(t1, p);
  }

  lemma LocalDnsMeans(address: Address, t: Table, p: Packet)
    ensures All(LocalDns(address), t, p)
            <==> p.outDevice == "lo" && OfFamily(address, p.family) && p.destination == address
                 && p.protocol in {Tcp, Udp} && p.ct.Some? && p.ct.value.destinationPort == 53
  {
    var first, last := [OutDeviceIs("lo"), PayloadDestinationIs(address), TcpOrUdp], [TrackedPortIs(53)];
    assert LocalDns(address) == first + last;
    AllConcat(first, last, t, p);
    AllOfThree(first[0], first[1], first[2], t, p);
    assert last[0] in last;
  }

  lemma ReturningRule(conditions: seq<Match>, rest: seq<Rule>, t: Table, p: Packet)
    ensures RunChain([Guards(conditions) + [Return]] + rest, t, p)
            == if All(conditions, t, p) then Outcome(t, p, Accepted) else RunChain(rest, t, p)
  {
    GuardedThen(conditions, [Return], rest, t, p);
  }

  lemma WrongDeviceMeans(owner: SocketOwner, device: string, t: Table, p: Packet)
    ensures All(Owned(owner) + [OutDeviceIsNot(device)], t, p) <==> IsOwner(owner, p) && p.outDevice != device
  {
    var wrong := [OutDeviceIsNot(device)];
    AllConcat(Owned(owner), wrong, t, p);
    OwnedMeans(owner, t, p);
    assert wrong[0] in wrong;
  }

  lemma StaleMeans(device: string, t: Table, p: Packet)
    ensures All(RECORDABLE + [FlowIsOwned, OutDeviceIsNot("lo"), OutDeviceIsNot(device)], t, p)
            <==> Recordable(p) && p.ct.value.Flow() in t.flows && p.outDevice != "lo" && p.outDevice != device
  {
    AllConcat(RECORDABLE, [FlowIsOwned, OutDeviceIsNot("lo"), OutDeviceIsNot(device)], t, p);
    RecordableMeans(t, p);
    AllOfThree(FlowIsOwned, OutDeviceIsNot("lo"), OutDeviceIsNot(device), t, p);
  }

  lemma RefusalsRun(a: seq<Match>, b: seq<Match>, t: Table, p: Packet)
    ensures RunHook([Guards(a) + [Count(EgressFault), Drop], Guards(b) + [Count(EgressFault), Drop]], t, p)
            == if All(a, t, p) || All(b, t, p)
               then Outcome(Credit(t, EgressFault, p), p, Dropped) else Outcome(t, p, Accepted)
  {
    var first, last := [Guards(a) + [Count(EgressFault), Drop]], [Guards(b) + [Count(EgressFault), Drop]];
    assert first + last == [Guards(a) + [Count(EgressFault), Drop], Guards(b) + [Count(EgressFault), Drop]];
    DecidingRule(a, EgressFault, Drop, last, t, p);
    assert last == last + [];
    DecidingRule(b, EgressFault, Drop, [], t, p);
  }

  /** The egress chain is its guard. */
  lemma EgressRefines(owner: SocketOwner, device: string, t: Table, p: Packet)
    ensures RunHook(EgressRules(owner, device), t, p) == LedgerEgress(owner, device, t, p)
  {
    var rules := EgressRules(owner, device);
    assert rules == [rules[0]] + ([rules[1]] + rules[2..]);
    ReturningRule(Owned(owner) + LocalDns(LOOPBACK4), [rules[1]] + rules[2..], t, p);
    ReturningRule(Owned(owner) + LocalDns(LOOPBACK6), rules[2..], t, p);
    AllConcat(Owned(owner), LocalDns(LOOPBACK4), t, p);
    AllConcat(Owned(owner), LocalDns(LOOPBACK6), t, p);
    OwnedMeans(owner, t, p);
    LocalDnsMeans(LOOPBACK4, t, p);
    LocalDnsMeans(LOOPBACK6, t, p);
    var a := Owned(owner) + [OutDeviceIsNot(device)];
    var b := RECORDABLE + [FlowIsOwned, OutDeviceIsNot("lo"), OutDeviceIsNot(device)];
    assert rules[2..] == [Guards(a) + [Count(EgressFault), Drop], Guards(b) + [Count(EgressFault), Drop]];
    RefusalsRun(a, b, t, p);
    WrongDeviceMeans(owner, device, t, p);
    StaleMeans(device, t, p);
  }
}
