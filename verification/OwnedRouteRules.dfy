/**
  * The owned probe table: the firewall program rendered for one socket owner,
  * a small interpreter for it, and the byte ledger it has to implement.
  *
  * The interpreter fixes the kernel semantics the renderer relies on: a socket
  * match, `==` or `!=`, fails for a packet without a socket; a connection
  * match fails for an untracked packet; an insert that does not fit ends its
  * rule; `return` in a base chain applies the accepting chain policy.
  */
module OwnedRouteRules {
  import opened Selection

  const MAX_ACCOUNTING_FLOWS: nat := 4096

  const FLOW_ACCOUNTING_OWNER_SUFFIX := ":flow-v2"

  datatype SocketOwner = BackendUid(uid: nat) | ProbeRootGid(gid: nat)

  datatype Family = Ipv4 | Ipv6 | OtherFamily
  datatype Direction = Original | Reply
  datatype Protocol = Tcp | Udp | OtherProtocol(number: nat)
  datatype Address = V4(v4: nat) | V6(v6: nat)

  const LOOPBACK4 := V4(0x7f00_0001)
  const LOOPBACK6 := V6(1)

  /** The original-direction tuple, the zone and the packet's direction in it. */
  datatype Conntrack = Conntrack(zone: nat, direction: Direction, source: Address, destination: Address,
                                 protocol: Protocol, sourcePort: nat, destinationPort: nat)
  {
    function Flow(): Flow { FlowKey(source, destination, protocol, sourcePort, destinationPort) }
    function Dns6(): Dns6Key { Dns6Key(protocol, sourcePort, destinationPort) }
  }

  datatype Flow = FlowKey(source: Address, destination: Address, protocol: Protocol, sourcePort: nat,
                          destinationPort: nat)
  datatype Dns6Key = Dns6Key(protocol: Protocol, sourcePort: nat, destinationPort: nat)

  datatype Socket = Socket(uid: nat, gid: nat)

  datatype Packet = Packet(family: Family, bytes: nat, socket: Option<Socket>, ct: Option<Conntrack>,
                           outDevice: string, inDevice: string, destination: Address, protocol: Protocol,
                           mark: bv32)

  datatype Counter = Rx | Tx | FamilyFault | UnregisteredFault | EgressFault

  datatype Counters = Counters(rx: nat, tx: nat, family: nat, unregistered: nat, egress: nat)
  {
    function Get(counter: Counter): nat {
      match counter
      case Rx => rx
      case Tx => tx
      case FamilyFault => family
      case UnregisteredFault => unregistered
      case EgressFault => egress
    }

    function Add(counter: Counter, bytes: nat): Counters {
      match counter
      case Rx => this.(rx := rx + bytes)
      case Tx => this.(tx := tx + bytes)
      case FamilyFault => this.(family := family + bytes)
      case UnregisteredFault => this.(unregistered := unregistered + bytes)
      case EgressFault => this.(egress := egress + bytes)
    }

    function Faults(): nat { family + unregistered + egress }
  }

  /** The kernel objects of one table: its two sets and its five counters. */
  datatype Table = Table(flows: set<Flow>, dns6: set<Dns6Key>, counters: Counters)

  const FRESH := Table({}, {}, Counters(0, 0, 0, 0, 0))

  // -------------------------------------------------------------------------
  // Rules and their interpreter.

  datatype Match =
    | FamilyIs(family: Family)
    | ZoneIs(zone: nat)
    | DirectionIs(direction: Direction)
    | UidIs(uid: nat)
    | UidIsNot(uid: nat)
    | GidIs(gid: nat)
    | GidIsNot(gid: nat)
    | FlowIsOwned
    | Dns6IsOwned
    | Source6Is(address: Address)
    | Destination6Is(address: Address)
    | TrackedTcpOrUdp
    | TrackedPortIs(port: nat)
    | OutDeviceIs(device: string)
    | OutDeviceIsNot(device: string)
    | InDeviceIs(device: string)
    | PayloadDestinationIs(address: Address)
    | TcpOrUdp

  datatype Expression =
    | When(condition: Match)
    | Count(counter: Counter)
    | UpdateFlow
    | DeleteFlow
    | UpdateDns6
    | DeleteDns6
    | Mangle(clearMask: bv32, fwmark: bv32)
    | Return
    | Drop

  type Rule = seq<Expression>

  datatype Verdict = Continue | Accepted | Dropped
  datatype Outcome = Outcome(table: Table, packet: Packet, verdict: Verdict)

  predicate OfFamily(address: Address, family: Family) {
    (address.V4? && family.Ipv4?) || (address.V6? && family.Ipv6?)
  }

  predicate Holds(condition: Match, t: Table, p: Packet) {
    match condition
    case FamilyIs(family) => p.family == family
    case ZoneIs(zone) => p.ct.Some? && p.ct.value.zone == zone
    case DirectionIs(direction) => p.ct.Some? && p.ct.value.direction == direction
    case UidIs(uid) => p.socket.Some? && p.socket.value.uid == uid
    case UidIsNot(uid) => p.socket.Some? && p.socket.value.uid != uid
    case GidIs(gid) => p.socket.Some? && p.socket.value.gid == gid
    case GidIsNot(gid) => p.socket.Some? && p.socket.value.gid != gid
    case FlowIsOwned => p.ct.Some? && p.ct.value.Flow() in t.flows
    case Dns6IsOwned => p.ct.Some? && p.ct.value.Dns6() in t.dns6
    case Source6Is(address) => p.ct.Some? && p.ct.value.source == address
    case Destination6Is(address) => p.ct.Some? && p.ct.value.destination == address
    case TrackedTcpOrUdp => p.ct.Some? && p.ct.value.protocol in {Tcp, Udp}
    case TrackedPortIs(port) => p.ct.Some? && p.ct.value.destinationPort == port
    case OutDeviceIs(device) => p.outDevice == device
    case OutDeviceIsNot(device) => p.outDevice != device
    case InDeviceIs(device) => p.inDevice == device
    case PayloadDestinationIs(address) => OfFamily(address, p.family) && p.destination == address
    case TcpOrUdp => p.protocol in {Tcp, Udp}
  }

  predicate Fits<T(==)>(elements: set<T>, element: T) {
    element in elements || |elements| < MAX_ACCOUNTING_FLOWS
  }

  function Remarked(mark: bv32, clearMask: bv32, fwmark: bv32): bv32 { (mark & clearMask) | fwmark }

  /** One expression: the new table and packet, and whether the rule goes on, stops, or decides. */
  datatype Step = Next(table: Table, packet: Packet) | Break | Decide(verdict: Verdict)

  function Execute(e: Expression, t: Table, p: Packet): Step {
    match e
    case When(condition) => if Holds(condition, t, p) then Next(t, p) else Break
    case Count(counter) => Next(t.(counters := t.counters.Add(counter, p.bytes)), p)
    case UpdateFlow =>
      if p.ct.Some? && Fits(t.flows, p.ct.value.Flow()) then Next(t.(flows := t.flows + {p.ct.value.Flow()}), p)
      else Break
    case DeleteFlow => if p.ct.Some? then Next(t.(flows := t.flows - {p.ct.value.Flow()}), p) else Break
    case UpdateDns6 =>
      if p.ct.Some? && Fits(t.dns6, p.ct.value.Dns6()) then Next(t.(dns6 := t.dns6 + {p.ct.value.Dns6()}), p)
      else Break
    case DeleteDns6 => if p.ct.Some? then Next(t.(dns6 := t.dns6 - {p.ct.value.Dns6()}), p) else Break
    case Mangle(clearMask, fwmark) => Next(t, p.(mark := Remarked(p.mark, clearMask, fwmark)))
    case Return => Decide(Accepted)
    case Drop => Decide(Dropped)
  }

  function RunRule(rule: Rule, t: Table, p: Packet): Outcome {
    if rule == [] then Outcome(t, p, Continue)
    else match Execute(rule[0], t, p)
      case Next(t', p') => RunRule(rule[1..], t', p')
      case Break => Outcome(t, p, Continue)
      case Decide(verdict) => Outcome(t, p, verdict)
  }

  function RunChain(rules: seq<Rule>, t: Table, p: Packet): Outcome {
    if rules == [] then Outcome(t, p, Continue)
    else
      var o := RunRule(rules[0], t, p);
      if o.verdict.Continue? then RunChain(rules[1..], o.table, o.packet) else o
  }

  /** A base chain: falling off its end applies the accepting policy. */
  function RunHook(rules: seq<Rule>, t: Table, p: Packet): Outcome {
    var o := RunChain(rules, t, p);
    if o.verdict.Continue? then o.(verdict := Accepted) else o
  }

  // -------------------------------------------------------------------------
  // The rendered program.

  datatype Hook = Output | Input | Egress

  datatype Command =
    | CreateTable(name: string, comment: string)
    | AddSet(set_: string, size: nat)
    | AddCounter(counter: Counter, comment: string)
    | AddChain(hook: Hook)
    | AddRule(hook: Hook, rule: Rule)

  /** The rules a batch appends to one chain, in order. */
  function ChainOf(commands: seq<Command>, hook: Hook): seq<Rule> {
    if commands == [] then []
    else
      var last := commands[|commands| - 1];
      ChainOf(commands[..|commands| - 1], hook)
      + if last.AddRule? && last.hook == hook then [last.rule] else []
  }

  function OwnerUid(owner: SocketOwner): nat {
    match owner case BackendUid(uid) => uid case ProbeRootGid(_) => 0
  }

  function Owned(owner: SocketOwner): seq<Match> {
    match owner
    case BackendUid(uid) => [UidIs(uid)]
    case ProbeRootGid(gid) => [UidIs(0), GidIs(gid)]
  }

  function Guards(conditions: seq<Match>): Rule {
    seq(|conditions|, i requires 0 <= i < |conditions| => When(conditions[i]))
  }

  const RECORDABLE: seq<Match> := [FamilyIs(Ipv4), ZoneIs(0), DirectionIs(Original)]

  const DNS6_SCOPE: seq<Match> :=
    [FamilyIs(Ipv6), ZoneIs(0), Source6Is(LOOPBACK6), Destination6Is(LOOPBACK6), TrackedTcpOrUdp, TrackedPortIs(53)]

  const DNS6_OUTPUT: seq<Match> := DNS6_SCOPE + [OutDeviceIs("lo"), DirectionIs(Original)]

  /** Registration of an owned tuple and clearing of a reused one. */
  function RecordRules(owner: SocketOwner, scope: seq<Match>, update: Expression, delete: Expression): seq<Rule> {
    [Guards(scope + Owned(owner)) + [update],
     Guards(scope + [UidIsNot(OwnerUid(owner))]) + [delete]]
    + match owner
      case BackendUid(_) => []
      case ProbeRootGid(gid) => [Guards(scope + [UidIs(0), GidIsNot(gid)]) + [delete]]
  }

  function TransmitRule(routeMark: Option<(bv32, bv32)>): Rule {
    Guards(RECORDABLE + [FlowIsOwned]) + [Count(Tx)]
    + (match routeMark case None => [] case Some(m) => [Mangle(m.0, m.1)])
    + [Return]
  }

  function ChargeRules(owner: SocketOwner, routeMark: Option<(bv32, bv32)>): seq<Rule> {
    [Guards(DNS6_OUTPUT + [Dns6IsOwned]) + [Count(Tx), Return],
     TransmitRule(routeMark),
     Guards([FamilyIs(Ipv4)] + Owned(owner)) + [Count(UnregisteredFault), Drop],
     Guards(Owned(owner)) + [Count(FamilyFault), Drop]]
  }

  function OutputRules(owner: SocketOwner, routeMark: Option<(bv32, bv32)>): seq<Rule> {
    RecordRules(owner, RECORDABLE, UpdateFlow, DeleteFlow)
    + RecordRules(owner, DNS6_OUTPUT, UpdateDns6, DeleteDns6)
    + ChargeRules(owner, routeMark)
  }

  function InputRules(): seq<Rule> {
    [Guards(DNS6_SCOPE + [InDeviceIs("lo"), DirectionIs(Reply), Dns6IsOwned]) + [Count(Rx)],
     Guards([FamilyIs(Ipv4), ZoneIs(0), DirectionIs(Reply), FlowIsOwned]) + [Count(Rx)]]
  }

  function LocalDns(address: Address): seq<Match> {
    [OutDeviceIs("lo"), PayloadDestinationIs(address), TcpOrUdp, TrackedPortIs(53)]
  }

  function EgressRules(owner: SocketOwner, device: string): seq<Rule> {
    [Guards(Owned(owner) + LocalDns(LOOPBACK4)) + [Return],
     Guards(Owned(owner) + LocalDns(LOOPBACK6)) + [Return],
     Guards(Owned(owner) + [OutDeviceIsNot(device)]) + [Count(EgressFault), Drop],
     Guards(RECORDABLE + [FlowIsOwned, OutDeviceIsNot("lo"), OutDeviceIsNot(device)]) + [Count(EgressFault), Drop]]
  }

  /** Exclusive creation comes first and happens once, so the batch fails as a whole if the name is taken. */
  predicate CreatesExclusively(commands: seq<Command>, table: string, owner: string) {
    && |commands| > 0
    && commands[0] == CreateTable(table, owner)
    && forall i :: 0 < i < |commands| ==> !commands[i].CreateTable?
  }

  /** Both sets, all five counters under the owner's format, and the chains the accounting rules go into. */
  ghost predicate Declares(commands: seq<Command>, owner: string) {
    && AddSet("owned_flows", MAX_ACCOUNTING_FLOWS) in commands && AddSet("owned_dns6", MAX_ACCOUNTING_FLOWS) in commands
    && AddChain(Output) in commands && AddChain(Input) in commands
    && forall counter :: AddCounter(counter, owner + FLOW_ACCOUNTING_OWNER_SUFFIX) in commands
  }

  lemma DeclaresMore(commands: seq<Command>, more: seq<Command>, owner: string)
    requires Declares(commands, owner) && commands <= more
    ensures Declares(more, owner)
  {
    forall c | c in commands ensures c in more {
      var i :| 0 <= i < |commands| && commands[i] == c;
      assert more[i] == c;
    }
  }

  /** Every rule comes after the sets and counters and after its own chain. */
  ghost predicate Ordered(commands: seq<Command>, owner: string) {
    forall i :: 0 <= i < |commands| && commands[i].AddRule? ==> Ready(commands, i, owner)
  }

  ghost predicate Ready(commands: seq<Command>, i: nat, owner: string)
    requires i < |commands| && commands[i].AddRule?
  {
    Declares(commands[..i], owner) && AddChain(commands[i].hook) in commands[..i]
  }

  /** Rules behind a batch that declares everything, each for a chain of the batch. */
  lemma OrderedBehind(objects: seq<Command>, commands: seq<Command>, owner: string)
    requires Ordered(objects, owner) && Declares(objects, owner) && objects <= commands
    requires forall i :: |objects| <= i < |commands| ==> commands[i].AddRule? && AddChain(commands[i].hook) in objects
    ensures Ordered(commands, owner)
  {
    forall i | 0 <= i < |commands| && commands[i].AddRule? ensures Ready(commands, i, owner) {
      if i < |objects| {
        assert commands[..i] == objects[..i] && Ready(objects, i, owner);
      } else {
        DeclaresMore(objects, commands[..i], owner);
        var k :| 0 <= k < |objects| && objects[k] == AddChain(commands[i].hook);
        assert commands[..i][k] == objects[k];
      }
    }
  }

  lemma NotQueued(rules: seq<(Hook, Rule)>, hook: Hook)
    requires Queued(rules, hook) == []
    ensures forall i :: 0 <= i < |rules| ==> rules[i].0 != hook
  {
    if rules != [] {
      NotQueued(rules[1..], hook);
      assert forall i :: 1 <= i < |rules| ==> rules[i] == rules[1..][i - 1];
    }
  }

  lemma ChainOfAppend(commands: seq<Command>, command: Command, hook: Hook)
    ensures ChainOf(commands + [command], hook)
            == ChainOf(commands, hook) + if command.AddRule? && command.hook == hook then [command.rule] else []
  {
    assert (commands + [command])[..|commands|] == commands;
  }

  /** Rules queued for one chain each, in the order they will be installed. */
  function Queued(rules: seq<(Hook, Rule)>, hook: Hook): seq<Rule> {
    if rules == [] then []
    else
      (if rules[0].0 == hook then [rules[0].1] else []) + Queued(rules[1..], hook)
  }

  lemma QueuedConcat(a: seq<(Hook, Rule)>, b: seq<(Hook, Rule)>, hook: Hook)
    ensures Queued(a + b, hook) == Queued(a, hook) + Queued(b, hook)
  {
    if a == [] {
      assert a + b == b;
    } else {
      assert (a + b)[1..] == a[1..] + b;
      QueuedConcat(a[1..], b, hook);
    }
  }

  method AppendRules(objects: seq<Command>, rules: seq<(Hook, Rule)>, ghost table: string, ghost owner: string)
    returns (commands: seq<Command>)
    requires CreatesExclusively(objects, table, owner)
    ensures CreatesExclusively(commands, table, owner) && objects <= commands
    ensures |commands| == |objects| + |rules|
    ensures forall i :: 0 <= i < |rules| ==> commands[|objects| + i] == AddRule(rules[i].0, rules[i].1)
    ensures forall hook :: ChainOf(commands, hook) == ChainOf(objects, hook) + Queued(rules, hook)
  {
    commands := objects;
    for i := 0 to |rules|
      invariant CreatesExclusively(commands, table, owner) && objects <= commands && |commands| == |objects| + i
      invariant forall j :: 0 <= j < i ==> commands[|objects| + j] == AddRule(rules[j].0, rules[j].1)
      invariant forall hook :: ChainOf(commands, hook) == ChainOf(objects, hook) + Queued(rules[..i], hook)
    {
      NextRule(objects, commands, rules, i);
      commands := commands + [AddRule(rules[i].0, rules[i].1)];
    }
    assert rules[..|rules|] == rules;
  }

  lemma NextRule(objects: seq<Command>, commands: seq<Command>, rules: seq<(Hook, Rule)>, i: nat)
    requires i < |rules|
    requires forall hook :: ChainOf(commands, hook) == ChainOf(objects, hook) + Queued(rules[..i], hook)
    ensures var longer := commands + [AddRule(rules[i].0, rules[i].1)];
            forall hook :: ChainOf(longer, hook) == ChainOf(objects, hook) + Queued(rules[..i + 1], hook)
  {
    var command := AddRule(rules[i].0, rules[i].1);
    assert rules[..i + 1] == rules[..i] + [rules[i]];
    forall hook ensures ChainOf(commands + [command], hook) == ChainOf(objects, hook) + Queued(rules[..i + 1], hook) {
      ChainOfAppend(commands, command, hook);
      QueuedConcat(rules[..i], [rules[i]], hook);
    }
  }

  /** The table, its sets, its counters and the chains the accounting rules go into. */
  method RenderObjects(table: string, owner: string) returns (commands: seq<Command>)
    ensures CreatesExclusively(commands, table, owner) && Declares(commands, owner) && Ordered(commands, owner)
    ensures forall hook :: ChainOf(commands, hook) == []
  {
    var counters := RenderCounters(owner + FLOW_ACCOUNTING_OWNER_SUFFIX);
    commands := [CreateTable(table, owner), AddSet("owned_flows", MAX_ACCOUNTING_FLOWS)] + counters;
    commands := commands + [AddChain(Output), AddChain(Input), AddSet("owned_dns6", MAX_ACCOUNTING_FLOWS)];
    var n := |counters|;
    assert commands[1] == AddSet("owned_flows", MAX_ACCOUNTING_FLOWS) && commands[2 + n] == AddChain(Output);
    assert commands[3 + n] == AddChain(Input) && commands[4 + n] == AddSet("owned_dns6", MAX_ACCOUNTING_FLOWS);
    forall hook ensures ChainOf(commands, hook) == [] { NoRules(commands, hook); }
  }

  /** One counter each, in a loop over their names. */
  method RenderCounters(comment: string) returns (commands: seq<Command>)
    ensures forall i :: 0 <= i < |commands| ==> commands[i].AddCounter?
    ensures forall counter :: AddCounter(counter, comment) in commands
  {
    var names := [Rx, Tx, FamilyFault, UnregisteredFault, EgressFault];
    commands := [];
    for i := 0 to |names|
      invariant |commands| == i && forall j :: 0 <= j < i ==> commands[j] == AddCounter(names[j], comment)
    {
      commands := commands + [AddCounter(names[i], comment)];
    }
    assert names[0] == Rx && names[1] == Tx && names[2] == FamilyFault && names[3] == UnregisteredFault
        && names[4] == EgressFault;
    forall counter: Counter ensures AddCounter(counter, comment) in commands {
      var j := match counter
        case Rx => 0 case Tx => 1 case FamilyFault => 2 case UnregisteredFault => 3 case EgressFault => 4;
      assert commands[j] == AddCounter(counter, comment);
    }
  }

  lemma NoRules(commands: seq<Command>, hook: Hook)
    requires forall i :: 0 <= i < |commands| ==> !commands[i].AddRule?
    ensures ChainOf(commands, hook) == []
  {}

  lemma GuardsConcat(a: seq<Match>, b: seq<Match>)
    ensures Guards(a + b) == Guards(a) + Guards(b)
  {}

  lemma QueuedForOneChain(rules: seq<(Hook, Rule)>, chain: Hook, expected: seq<Rule>)
    requires |rules| == |expected| && forall i :: 0 <= i < |rules| ==> rules[i] == (chain, expected[i])
    ensures forall hook :: Queued(rules, hook) == if hook == chain then expected else []
  {
    if rules != [] {
      QueuedForOneChain(rules[1..], chain, expected[1..]);
    }
  }

  /** Registration and clearing rules for one scope, in source order. */
  method QueueRecordRules(socketOwner: SocketOwner, scope: seq<Match>, update: Expression, delete: Expression)
    returns (rules: seq<(Hook, Rule)>)
    ensures Queued(rules, Output) == RecordRules(socketOwner, scope, update, delete)
    ensures Queued(rules, Input) == [] && Queued(rules, Egress) == []
  {
    var owned := When(UidIs(OwnerUid(socketOwner)));
    var register := Guards(scope) + [owned];
    if socketOwner.ProbeRootGid? {
      register := register + [When(GidIs(socketOwner.gid))];
    }
    register := register + [update];
    var clear := Guards(scope) + [When(UidIsNot(OwnerUid(socketOwner))), delete];
    assert register == Guards(scope + Owned(socketOwner)) + [update];
    assert clear == Guards(scope + [UidIsNot(OwnerUid(socketOwner))]) + [delete];
    rules := [(Output, register), (Output, clear)];
    if socketOwner.ProbeRootGid? {
      var clearGroup := Guards(scope) + [owned, When(GidIsNot(socketOwner.gid)), delete];
      assert clearGroup == Guards(scope + [UidIs(0), GidIsNot(socketOwner.gid)]) + [delete];
      rules := rules + [(Output, clearGroup)];
    }
    QueuedForOneChain(rules, Output, RecordRules(socketOwner, scope, update, delete));
  }

  lemma QueuedInterleaved(a: Rule, x: Rule, b: Rule, c: Rule, d: Rule, y: Rule)
    ensures var rules := [(Output, a), (Input, x), (Output, b), (Output, c), (Output, d), (Input, y)];
            Queued(rules, Output) == [a, b, c, d] && Queued(rules, Input) == [x, y] && Queued(rules, Egress) == []
  {
    var front, back := [(Output, a), (Input, x), (Output, b)], [(Output, c), (Output, d), (Input, y)];
    assert front + back == [(Output, a), (Input, x), (Output, b), (Output, c), (Output, d), (Input, y)];
    QueuedThree(Output, a, Input, x, Output, b);
    QueuedThree(Output, c, Output, d, Input, y);
    QueuedConcat(front, back, Output);
    QueuedConcat(front, back, Input);
    QueuedConcat(front, back, Egress);
  }

  lemma QueuedThree(h0: Hook, r0: Rule, h1: Hook, r1: Rule, h2: Hook, r2: Rule)
    ensures forall hook :: Queued([(h0, r0), (h1, r1), (h2, r2)], hook)
                           == (if h0 == hook then [r0] else []) + (if h1 == hook then [r1] else [])
                              + (if h2 == hook then [r2] else [])
  {
    var rules := [(h0, r0), (h1, r1), (h2, r2)];
    forall hook ensures Queued(rules, hook) == (if h0 == hook then [r0] else []) + (if h1 == hook then [r1] else [])
                                               + (if h2 == hook then [r2] else [])
    {
      QueuedConcat([(h0, r0)], [(h1, r1)], hook);
      QueuedConcat([(h0, r0)] + [(h1, r1)], [(h2, r2)], hook);
      assert rules == [(h0, r0)] + [(h1, r1)] + [(h2, r2)];
    }
  }

  method QueueChargeRules(socketOwner: SocketOwner, routeMark: Option<(bv32, bv32)>) returns (rules: seq<(Hook, Rule)>)
    ensures Queued(rules, Output) == ChargeRules(socketOwner, routeMark)
    ensures Queued(rules, Input) == InputRules()
    ensures Queued(rules, Egress) == []
  {
    var transmit := Guards(RECORDABLE) + [When(FlowIsOwned), Count(Tx)];
    if routeMark.Some? {
      transmit := transmit + [Mangle(routeMark.value.0, routeMark.value.1)];
    }
    transmit := transmit + [Return];
    assert transmit == TransmitRule(routeMark) by { GuardsConcat(RECORDABLE, [FlowIsOwned]); }
    var owned := [When(UidIs(OwnerUid(socketOwner)))];
    if socketOwner.ProbeRootGid? {
      owned := owned + [When(GidIs(socketOwner.gid))];
    }
    assert owned == Guards(Owned(socketOwner));
    var charge6 := Guards(DNS6_OUTPUT) + [When(Dns6IsOwned), Count(Tx), Return];
    assert charge6 == Guards(DNS6_OUTPUT + [Dns6IsOwned]) + [Count(Tx), Return];
    var receive6 := Guards(DNS6_SCOPE)
      + [When(InDeviceIs("lo")), When(DirectionIs(Reply)), When(Dns6IsOwned), Count(Rx)];
    assert receive6 == Guards(DNS6_SCOPE + [InDeviceIs("lo"), DirectionIs(Reply), Dns6IsOwned]) + [Count(Rx)];
    var unregistered := [When(FamilyIs(Ipv4))] + owned + [Count(UnregisteredFault), Drop];
    assert [When(FamilyIs(Ipv4))] + owned == Guards([FamilyIs(Ipv4)] + Owned(socketOwner));
    var family := owned + [Count(FamilyFault), Drop];
    var receive := [When(FamilyIs(Ipv4)), When(ZoneIs(0)), When(DirectionIs(Reply)), When(FlowIsOwned), Count(Rx)];
    assert receive == Guards([FamilyIs(Ipv4), ZoneIs(0), DirectionIs(Reply), FlowIsOwned]) + [Count(Rx)];
    rules := [(Output, charge6), (Input, receive6), (Output, transmit), (Output, unregistered), (Output, family),
              (Input, receive)];
    QueuedInterleaved(charge6, receive6, transmit, unregistered, family, receive);
  }

  /** The egress rules: local DNS returns first, then the two refusals. */
  method QueueEgressRules(socketOwner: SocketOwner, device: string) returns (rules: seq<(Hook, Rule)>)
    ensures Queued(rules, Egress) == EgressRules(socketOwner, device)
    ensures Queued(rules, Output) == [] && Queued(rules, Input) == []
  {
    var owned := [When(UidIs(OwnerUid(socketOwner)))];
    if socketOwner.ProbeRootGid? {
      owned := owned + [When(GidIs(socketOwner.gid))];
    }
    assert owned == Guards(Owned(socketOwner));
    var addresses := [LOOPBACK4, LOOPBACK6];
    rules := [];
    ghost var expected := EgressRules(socketOwner, device);
    for i := 0 to 2
      invariant |rules| == i
      invariant forall j :: 0 <= j < i ==> rules[j] == (Egress, expected[j])
    {
      var dns := owned + [When(OutDeviceIs("lo")), When(PayloadDestinationIs(addresses[i])), When(TcpOrUdp),
                          When(TrackedPortIs(53)), Return];
      assert dns == Guards(Owned(socketOwner) + LocalDns(addresses[i])) + [Return];
      rules := rules + [(Egress, dns)];
    }
    var foreign := owned + [When(OutDeviceIsNot(device)), Count(EgressFault), Drop];
    assert foreign == expected[2];
    var late := Guards(RECORDABLE)
      + [When(FlowIsOwned), When(OutDeviceIsNot("lo")), When(OutDeviceIsNot(device)), Count(EgressFault), Drop];
    assert late == expected[3];
    rules := rules + [(Egress, foreign), (Egress, late)];
    QueuedForOneChain(rules, Egress, expected);
  }

  lemma QueuedInOrder(first: seq<(Hook, Rule)>, second: seq<(Hook, Rule)>, third: seq<(Hook, Rule)>)
    ensures forall hook ::
              Queued(first + second + third, hook) == Queued(first, hook) + Queued(second, hook) + Queued(third, hook)
  {
    forall hook
      ensures Queued(first + second + third, hook) == Queued(first, hook) + Queued(second, hook) + Queued(third, hook)
    {
      QueuedConcat(first, second, hook);
      QueuedConcat(first + second, third, hook);
    }
  }

  /** The accounting batch: objects first, then every rule in its chain's order. */
  method RenderRoutePin(table: string, owner: string, socketOwner: SocketOwner, routeMark: Option<(bv32, bv32)>)
    returns (commands: seq<Command>)
    ensures CreatesExclusively(commands, table, owner) && Declares(commands, owner) && Ordered(commands, owner)
    ensures ChainOf(commands, Output) == OutputRules(socketOwner, routeMark)
    ensures ChainOf(commands, Input) == InputRules() && ChainOf(commands, Egress) == []
  {
    var objects := RenderObjects(table, owner);
    var rules := QueueRouteRules(socketOwner, routeMark);
    commands := AppendRules(objects, rules, table, owner);
    DeclaresMore(objects, commands, owner);
    PinOrdered(objects, rules, commands, owner);
  }

  /** The accounting rules: registration of flows, of local DNS, then the charges. */
  method QueueRouteRules(socketOwner: SocketOwner, routeMark: Option<(bv32, bv32)>) returns (rules: seq<(Hook, Rule)>)
    ensures Queued(rules, Output) == OutputRules(socketOwner, routeMark)
    ensures Queued(rules, Input) == InputRules() && Queued(rules, Egress) == []
  {
    var flows := QueueRecordRules(socketOwner, RECORDABLE, UpdateFlow, DeleteFlow);
    var dns6 := QueueRecordRules(socketOwner, DNS6_OUTPUT, UpdateDns6, DeleteDns6);
    var charges := QueueChargeRules(socketOwner, routeMark);
    rules := flows + dns6 + charges;
    QueuedInOrder(flows, dns6, charges);
  }

  lemma PinOrdered(objects: seq<Command>, rules: seq<(Hook, Rule)>, commands: seq<Command>, owner: string)
    requires Ordered(objects, owner) && Declares(objects, owner) && objects <= commands
    requires |commands| == |objects| + |rules| && Queued(rules, Egress) == []
    requires forall i :: 0 <= i < |rules| ==> commands[|objects| + i] == AddRule(rules[i].0, rules[i].1)
    ensures Ordered(commands, owner)
  {
    NotQueued(rules, Egress);
    BehindObjects(objects, rules, commands, owner);
  }

  lemma BehindObjects(objects: seq<Command>, rules: seq<(Hook, Rule)>, commands: seq<Command>, owner: string)
    requires Ordered(objects, owner) && Declares(objects, owner) && objects <= commands
    requires |commands| == |objects| + |rules|
    requires forall i :: 0 <= i < |rules| ==> commands[|objects| + i] == AddRule(rules[i].0, rules[i].1)
    requires forall i :: 0 <= i < |rules| ==> AddChain(rules[i].0) in objects
    ensures Ordered(commands, owner)
  {
    forall i | |objects| <= i < |commands| ensures commands[i].AddRule? && AddChain(commands[i].hook) in objects {
      assert commands[|objects| + (i - |objects|)] == AddRule(rules[i - |objects|].0, rules[i - |objects|].1);
    }
    OrderedBehind(objects, commands, owner);
  }

  /** `is_safe_identifier` on ASCII text. */
  predicate SafeIdentifier(text: string) {
    0 < |text| <= 64 && forall c :: c in text ==>
      'a' <= c <= 'z' || 'A' <= c <= 'Z' || '0' <= c <= '9' || c in "-_.:@"
  }

  /** The egress guard pushed behind a batch. */
  method RenderGuard(batch: seq<Command>, socketOwner: SocketOwner, device: string, ghost table: string,
                     ghost owner: string)
    returns (r: Option<seq<Command>>)
    requires CreatesExclusively(batch, table, owner)
    ensures r.Some? <==> SafeIdentifier(device)
    ensures r.Some? ==> CreatesExclusively(r.value, table, owner) && batch <= r.value && AddChain(Egress) in r.value
    ensures r.Some? && Declares(batch, owner) && Ordered(batch, owner) ==> Ordered(r.value, owner)
    ensures r.Some? ==> forall hook ::
              ChainOf(r.value, hook) == ChainOf(batch, hook)
                                        + if hook.Egress? then EgressRules(socketOwner, device) else []
  {
    if !SafeIdentifier(device) {
      return None;
    }
    var guard := QueueEgressRules(socketOwner, device);
    var chained := batch + [AddChain(Egress)];
    forall hook ensures ChainOf(chained, hook) == ChainOf(batch, hook) {
      ChainOfAppend(batch, AddChain(Egress), hook);
    }
    var commands := AppendRules(chained, guard, table, owner);
    assert commands[|batch|] == chained[|batch|] == AddChain(Egress);
    if Declares(batch, owner) && Ordered(batch, owner) {
      GuardOrdered(batch, chained, guard, commands, owner);
    }
    r := Some(commands);
  }

  lemma GuardOrdered(batch: seq<Command>, chained: seq<Command>, rules: seq<(Hook, Rule)>, commands: seq<Command>,
                     owner: string)
    requires Declares(batch, owner) && Ordered(batch, owner) && chained == batch + [AddChain(Egress)]
    requires chained <= commands && |commands| == |chained| + |rules|
    requires Queued(rules, Output) == [] && Queued(rules, Input) == []
    requires forall i :: 0 <= i < |rules| ==> commands[|chained| + i] == AddRule(rules[i].0, rules[i].1)
    ensures Ordered(commands, owner)
  {
    ChainAdded(batch, owner);
    EgressOnly(rules);
    BehindObjects(chained, rules, commands, owner);
  }

  lemma EgressOnly(rules: seq<(Hook, Rule)>)
    requires Queued(rules, Output) == [] && Queued(rules, Input) == []
    ensures forall i :: 0 <= i < |rules| ==> rules[i].0 == Egress
  {
    NotQueued(rules, Output);
    NotQueued(rules, Input);
  }

  lemma ChainAdded(batch: seq<Command>, owner: string)
    requires Declares(batch, owner) && Ordered(batch, owner)
    ensures var chained := batch + [AddChain(Egress)];
            Declares(chained, owner) && Ordered(chained, owner) && AddChain(Egress) in chained
  {
    var chained := batch + [AddChain(Egress)];
    DeclaresMore(batch, chained, owner);
    forall i | 0 <= i < |chained| && chained[i].AddRule? ensures Ready(chained, i, owner) {
      assert chained[..i] == batch[..i] && Ready(batch, i, owner);
    }
  }

  /** The whole table: its objects, its accounting rules and the egress guard. */
  method RenderTable(table: string, owner: string, socketOwner: SocketOwner, routeMark: Option<(bv32, bv32)>,
                     device: string)
    returns (r: Option<seq<Command>>)
    ensures r.Some? <==> SafeIdentifier(device)
    ensures r.Some? ==> && CreatesExclusively(r.value, table, owner) && Declares(r.value, owner)
                        && AddChain(Egress) in r.value && Ordered(r.value, owner)
    ensures r.Some? ==> && ChainOf(r.value, Output) == OutputRules(socketOwner, routeMark)
                        && ChainOf(r.value, Input) == InputRules()
                        && ChainOf(r.value, Egress) == EgressRules(socketOwner, device)
  {
    var batch := RenderRoutePin(table, owner, socketOwner, routeMark);
    r := RenderGuard(batch, socketOwner, device, table, owner);
    if r.Some? {
      DeclaresMore(batch, r.value, owner);
    }
  }
}
