/**
  * Reading a response: the records of its answer section, the alias chain that
  * leads from the question to an address owner, and the round trip of a
  * pointer-compressed response.
  */
module DnsAnswer {
  import opened Selection
  import opened DnsName
  import opened RoutedDns

  type Name = seq<Byte>
  datatype Record = Address(owner: Name, ip: nat) | Alias(owner: Name, target: Name) | Ignored

  // -------------------------------------------------------------------------
  // Resolution.

  predicate HasAlias(records: seq<Record>, owner: Name) {
    exists i :: 0 <= i < |records| && records[i].Alias? && records[i].owner == owner
  }

  /** The aliases of `owner` agree on `target`, and it has no address of its own. */
  predicate Hop(records: seq<Record>, owner: Name, target: Name) {
    && HasAlias(records, owner)
    && forall i :: 0 <= i < |records| && !records[i].Ignored? && records[i].owner == owner ==>
         records[i] == Alias(owner, target)
  }

  function AddressesOf(records: seq<Record>, owner: Name): seq<nat> {
    if records == [] then []
    else
      var last := records[|records| - 1];
      AddressesOf(records[..|records| - 1], owner) + if last.Address? && last.owner == owner then [last.ip] else []
  }

  /** An acyclic, conflict-free alias chain of at most eight hops from the question to its end. */
  predicate Chain(records: seq<Record>, question: Name, chain: seq<Name>) {
    && 1 <= |chain| <= CHAIN_NAMES && chain[0] == question
    && (forall i, j :: 0 <= i < j < |chain| ==> chain[i] != chain[j])
    && (forall i :: 0 <= i < |chain| - 1 ==> Hop(records, chain[i], chain[i + 1]))
    && !HasAlias(records, chain[|chain| - 1])
  }

  ghost predicate Resolves(records: seq<Record>, question: Name, result: seq<nat>) {
    exists chain ::
      && Chain(records, question, chain)
      && result == SortedDistinct(AddressesOf(records, chain[|chain| - 1]))
      && 1 <= |result| <= MAX_ADDRESSES
  }

  /** The names walked so far are a prefix of every chain there is. */
  ghost predicate Walked(records: seq<Record>, question: Name, seen: seq<Name>, current: Name) {
    forall chain :: Chain(records, question, chain) ==>
      |chain| > |seen| && chain[..|seen|] == seen && chain[|seen|] == current
  }

  method FirstAlias(records: seq<Record>, owner: Name) returns (r: Option<Name>)
    ensures r.None? <==> !HasAlias(records, owner)
    ensures r.Some? ==> Alias(owner, r.value) in records
  {
    for i := 0 to |records|
      invariant forall j :: 0 <= j < i ==> !(records[j].Alias? && records[j].owner == owner)
    {
      if records[i].Alias? && records[i].owner == owner {
        return Some(records[i].target);
      }
    }
    r := None;
  }

  method IsHop(records: seq<Record>, owner: Name, target: Name) returns (r: bool)
    requires Alias(owner, target) in records
    ensures r == Hop(records, owner, target)
  {
    for i := 0 to |records|
      invariant forall j :: 0 <= j < i && !records[j].Ignored? && records[j].owner == owner ==>
          records[j] == Alias(owner, target)
    {
      if (records[i].Alias? && records[i].owner == owner && records[i].target != target)
         || (records[i].Address? && records[i].owner == owner) {
        return false;
      }
    }
    r := true;
  }

  lemma NextIsForced(records: seq<Record>, question: Name, seen: seq<Name>, current: Name, target: Name)
    requires Walked(records, question, seen, current) && Alias(current, target) in records
    ensures Walked(records, question, seen + [current], target)
    ensures !Hop(records, current, target) ==> forall chain :: !Chain(records, question, chain)
    ensures current in seen ==> forall chain :: !Chain(records, question, chain)
  {
    forall chain | Chain(records, question, chain)
      ensures |chain| > |seen| + 1 && chain[..|seen| + 1] == seen + [current] && chain[|seen| + 1] == target
      ensures Hop(records, current, target) && current !in seen
    {
      var k := |seen|;
      assert chain[k] == current;
      var i :| 0 <= i < |records| && records[i] == Alias(current, target);
      assert HasAlias(records, current);
      assert k < |chain| - 1;
      assert Hop(records, chain[k], chain[k + 1]);
      forall j | 0 <= j < k ensures seen[j] != current {
        assert chain[..k][j] == seen[j];
      }
    }
  }

  lemma RepeatIsNoChain(records: seq<Record>, question: Name, seen: seq<Name>, current: Name)
    requires Walked(records, question, seen, current) && current in seen
    ensures forall chain :: !Chain(records, question, chain)
  {
    var j :| 0 <= j < |seen| && seen[j] == current;
    forall chain ensures !Chain(records, question, chain) {}
  }

  lemma EndIsUnique(records: seq<Record>, question: Name, seen: seq<Name>, current: Name, result: seq<nat>)
    requires Walked(records, question, seen, current) && Chain(records, question, seen + [current])
    ensures Resolves(records, question, result) <==>
            result == SortedDistinct(AddressesOf(records, current)) && 1 <= |result| <= MAX_ADDRESSES
  {
    var own := seen + [current];
    forall chain | Chain(records, question, chain) ensures chain[|chain| - 1] == current {
      assert |seen| < |chain| - 1 ==> Hop(records, chain[|seen|], chain[|seen| + 1]);
    }
    assert own[|own| - 1] == current;
  }

  /** Follow the aliases for at most nine names. */
  method Resolve(records: seq<Record>, question: Name) returns (r: Option<seq<nat>>)
    ensures forall result :: r == Some(result) <==> Resolves(records, question, result)
  {
    var current := question;
    var seen: seq<Name> := [];
    for step := 0 to CHAIN_NAMES
      invariant |seen| == step
      invariant (seen + [current])[0] == question
      invariant forall i, j :: 0 <= i < j < |seen| ==> seen[i] != seen[j]
      invariant forall i :: 0 <= i < |seen| ==> Hop(records, seen[i], (seen + [current])[i + 1])
      invariant Walked(records, question, seen, current)
    {
      if current in seen {
        RepeatIsNoChain(records, question, seen, current);
        return None;
      }
      var next := FirstAlias(records, current);
      if next.Some? {
        NextIsForced(records, question, seen, current, next.value);
        var hop := IsHop(records, current, next.value);
        if !hop {
          return None;
        }
        seen := seen + [current];
        current := next.value;
      } else {
        var result := SortedDistinct(AddressesOf(records, current));
        var chain := seen + [current];
        assert Chain(records, question, chain);
        forall other ensures Resolves(records, question, other) <==> other == result && 1 <= |result| <= MAX_ADDRESSES {
          EndIsUnique(records, question, seen, current, other);
        }
        return if result == [] || |result| > MAX_ADDRESSES then None else Some(result);
      }
    }
    r := None;
  }

  // -------------------------------------------------------------------------
  // Records.

  function Pair(high: nat, low: nat): nat { high * 256 + low }

  function Word(packet: Packet, at: nat): Option<nat> {
    if at + 2 <= |packet| then Some(Pair(packet[at], packet[at + 1])) else None
  }

  function Number(a: Byte, b: Byte, c: Byte, d: Byte): nat { Pair(Pair(Pair(a, b), c), d) }

  /** The data of a record of this kind: only IN A and IN CNAME records of the answer section matter. */
  function DataAt(packet: Packet, owner: Name, kind: nat, relevant: bool, at: nat, end: nat): Option<Record>
    requires at <= end <= |packet|
  {
    if !relevant then Some(Ignored)
    else if kind == 1 then
      if end - at != 4 then None
      else Some(Address(owner, Number(packet[at], packet[at + 1], packet[at + 2], packet[at + 3])))
    else if kind == 5 then
      match NameAt(packet, at)
      case None => None
      case Some(target) => if target.1 != end then None else Some(Alias(owner, target.0))
    else Some(Ignored)
  }

  /** The fixed fields and data behind a record's owner name. */
  function FieldsAt(packet: Packet, owner: Name, fixed: nat, inAnswer: bool): (r: Option<(Record, nat)>)
    ensures r.Some? ==> r.value.1 <= |packet|
  {
    var kind, klass, length := Word(packet, fixed), Word(packet, fixed + 2), Word(packet, fixed + 8);
    if kind.None? || klass.None? || length.None? || fixed + 10 + length.value > |packet| then None
    else
      var end := fixed + 10 + length.value;
      match DataAt(packet, owner, kind.value, inAnswer && klass.value == 1, fixed + 10, end)
      case None => None
      case Some(record) => Some((record, end))
  }

  /** One resource record and the offset behind it. */
  function RecordAt(packet: Packet, at: nat, inAnswer: bool): (r: Option<(Record, nat)>)
    ensures r.Some? ==> r.value.1 <= |packet|
  {
    match NameAt(packet, at)
    case None => None
    case Some(owner) => FieldsAt(packet, owner.0, owner.1, inAnswer)
  }

  type Reader = (nat, bool) -> Option<(Record, nat)>

  function RecordReader(packet: Packet): Reader { (at, inAnswer) => RecordAt(packet, at, inAnswer) }

  /** `before` and the records `index` to `total` behind it, the first `answers` of them in the answer section. */
  function RecordsFrom(read: Reader, at: nat, index: nat, answers: nat, total: nat,
                       before: seq<Record>): Option<(seq<Record>, nat)>
    requires index <= total
    decreases total - index
  {
    if index == total then Some((before, at))
    else
      match read(at, index < answers)
      case None => None
      case Some(first) => RecordsFrom(read, first.1, index + 1, answers, total, before + [first.0])
  }

  method ReadData(packet: Packet, owner: Name, kind: nat, relevant: bool, at: nat, end: nat) returns (r: Option<Record>)
    requires at <= end <= |packet|
    ensures r == DataAt(packet, owner, kind, relevant, at, end)
  {
    if !relevant || (kind != 1 && kind != 5) {
      return Some(Ignored);
    }
    if kind == 1 {
      if end - at != 4 {
        return None;
      }
      return Some(Address(owner, Number(packet[at], packet[at + 1], packet[at + 2], packet[at + 3])));
    }
    var target := ReadName(packet, at);
    if target.None? || target.value.1 != end {
      return None;
    }
    return Some(Alias(owner, target.value.0));
  }

  method ReadRecord(packet: Packet, at: nat, inAnswer: bool) returns (r: Option<(Record, nat)>)
    ensures r == RecordAt(packet, at, inAnswer)
  {
    var owner := ReadName(packet, at);
    if owner.None? {
      return None;
    }
    r := ReadFields(packet, owner.value.0, owner.value.1, inAnswer);
  }

  method ReadFields(packet: Packet, owner: Name, fixed: nat, inAnswer: bool) returns (r: Option<(Record, nat)>)
    ensures r == FieldsAt(packet, owner, fixed, inAnswer)
  {
    var kind, klass, length := Word(packet, fixed), Word(packet, fixed + 2), Word(packet, fixed + 8);
    if kind.None? || klass.None? || length.None? {
      return None;
    }
    var end: nat := fixed + 10 + length.value;
    if end > |packet| {
      return None;
    }
    var record := ReadData(packet, owner, kind.value, inAnswer && klass.value == 1, fixed + 10, end);
    r := if record.None? then None else Some((record.value, end));
  }

  method ReadRecords(packet: Packet, start: nat, answers: nat, total: nat) returns (r: Option<(seq<Record>, nat)>)
    ensures r == RecordsFrom(RecordReader(packet), start, 0, answers, total, [])
  {
    var at := start;
    var records: seq<Record> := [];
    for index := 0 to total
      invariant RecordsFrom(RecordReader(packet), start, 0, answers, total, [])
                == RecordsFrom(RecordReader(packet), at, index, answers, total, records)
    {
      var next := ReadRecord(packet, at, index < answers);
      if next.None? {
        return None;
      }
      records := records + [next.value.0];
      at := next.value.1;
    }
    r := Some((records, at));
  }

  // -------------------------------------------------------------------------
  // Responses.

  /** QR set, standard opcode, not truncated, reserved bit clear, no error: mask 0xfa4f of the flags is 0x8000. */
  predicate GoodFlags(high: Byte, low: Byte) {
    high in {0x80, 0x81, 0x84, 0x85} && low % 16 == 0 && (low / 64) % 2 == 0
  }

  predicate HeaderAccepted(packet: Packet, request: Packet) {
    && 12 <= |packet| <= MAX_PACKET && |request| >= 17
    && packet[..2] == request[..2]
    && GoodFlags(packet[2], packet[3])
    && packet[4..6] == [0, 1]
  }

  function Count(packet: Packet, at: nat): nat
    requires at + 2 <= |packet|
  {
    Pair(packet[at], packet[at + 1])
  }

  function TotalRecords(packet: Packet): nat
    requires |packet| >= 12
  {
    Count(packet, 6) + Count(packet, 8) + Count(packet, 10)
  }

  /** The records behind a question that repeats the request's. */
  function RecordsAfter(packet: Packet, request: Packet, question: Option<(Name, nat)>,
                        read: Reader): Option<seq<Record>>
    requires |packet| >= 12 && |request| >= 17
  {
    if question.None? || question.value.0 != request[12..|request| - 4]
        || !Holds(packet, question.value.1, [0, 1, 0, 1]) then None
    else
      match RecordsFrom(read, question.value.1 + 4, 0, Count(packet, 6), TotalRecords(packet), [])
      case None => None
      case Some(records) => if records.1 == |packet| then Some(records.0) else None
  }

  /** The records of an acceptable response to this request. */
  function ResponseRecords(packet: Packet, request: Packet): Option<seq<Record>> {
    ResponseWith(packet, request, NameAt(packet, 12), RecordReader(packet))
  }

  function ResponseWith(packet: Packet, request: Packet, question: Option<(Name, nat)>,
                        read: Reader): Option<seq<Record>> {
    if !HeaderAccepted(packet, request) || TotalRecords(packet) > MAX_RECORDS then None
    else RecordsAfter(packet, request, question, read)
  }

  /**
    * Exactly the sorted, distinct addresses that the response's answer section
    * gives the end of the question's alias chain, between 1 and 32 of them.
    */
  ghost predicate Answers(packet: Packet, request: Packet, result: seq<nat>) {
    && ResponseRecords(packet, request).Some?
    && Resolves(ResponseRecords(packet, request).value, request[12..|request| - 4], result)
  }

  method Answer(packet: Packet, request: Packet) returns (r: Option<seq<nat>>)
    ensures forall result :: r == Some(result) <==> Answers(packet, request, result)
  {
    if !HeaderAccepted(packet, request) || TotalRecords(packet) > MAX_RECORDS {
      return None;
    }
    var question := ReadName(packet, 12);
    if question.None? || question.value.0 != request[12..|request| - 4] {
      return None;
    }
    var at := question.value.1;
    if !Holds(packet, at, [0, 1, 0, 1]) {
      return None;
    }
    var records := ReadRecords(packet, at + 4, Count(packet, 6), TotalRecords(packet));
    if records.None? || records.value.1 != |packet| {
      return None;
    }
    r := Resolve(records.value.0, question.value.0);
  }

  // -------------------------------------------------------------------------
  // The round trip.

  datatype Quad = Quad(a: Byte, b: Byte, c: Byte, d: Byte)
  {
    function Value(): nat { Number(a, b, c, d) }
  }

  /** An A record whose owner is a pointer to the question. */
  function PointerRecord(ip: Quad): seq<Byte> { [192, 12, 0, 1, 0, 1, 0, 0, 0, 60, 0, 4, ip.a, ip.b, ip.c, ip.d] }

  function PointerRecords(ips: seq<Quad>): seq<Byte> {
    if ips == [] then [] else PointerRecord(ips[0]) + PointerRecords(ips[1..])
  }

  function ResponseHeader(id: nat, answers: Byte): (r: seq<Byte>)
    requires id < 65536
    ensures |r| == 12
  {
    IdBytes(id) + [0x81, 0x80, 0, 1, 0, answers, 0, 0, 0, 0]
  }

  function Response(host: seq<Byte>, id: nat, ips: seq<Quad>): Packet
    requires ValidHost(host) && id < 65536 && |ips| <= MAX_RECORDS
  {
    HostLabelsAreWire(host);
    ResponseHeader(id, |ips|) + WireName(HostLabels(host)) + [0, 1, 0, 1] + PointerRecords(ips)
  }

  function Values(ips: seq<Quad>): seq<nat> { seq(|ips|, i requires 0 <= i < |ips| => ips[i].Value()) }

  function AddressRecords(owner: Name, ips: seq<Quad>): seq<Record> {
    seq(|ips|, i requires 0 <= i < |ips| => Address(owner, ips[i].Value()))
  }

  lemma BytesOf(packet: Packet, at: nat, bytes: seq<Byte>, i: nat)
    requires Holds(packet, at, bytes) && i < |bytes|
    ensures packet[at + i] == bytes[i]
  {
    assert packet[at..at + |bytes|][i] == bytes[i];
  }

  lemma RecordBytes(packet: Packet, at: nat, ip: Quad)
    requires Holds(packet, at, PointerRecord(ip))
    ensures packet[at] == 192 && packet[at + 1] == 12
    ensures Word(packet, at + 2) == Some(1) && Word(packet, at + 4) == Some(1) && Word(packet, at + 10) == Some(4)
    ensures Number(packet[at + 12], packet[at + 13], packet[at + 14], packet[at + 15]) == ip.Value()
  {
    forall i | 0 <= i < 16 ensures packet[at + i] == PointerRecord(ip)[i] { BytesOf(packet, at, PointerRecord(ip), i); }
    assert packet[at + 0] == 192 && packet[at + 1] == 12;
    assert packet[at + 2] == 0 && packet[at + 3] == 1 && packet[at + 4] == 0 && packet[at + 5] == 1;
    assert packet[at + 10] == 0 && packet[at + 11] == 4;
    assert packet[at + 12] == ip.a && packet[at + 13] == ip.b && packet[at + 14] == ip.c && packet[at + 15] == ip.d;
  }

  /** The owner of such a record reads as the question exactly when the question has at most 126 labels. */
  lemma PointerOwner(packet: Packet, at: nat, labels: seq<seq<Byte>>)
    requires WireLabels(labels) && |WireName(labels)| <= NAME_BYTES && Holds(packet, 12, WireName(labels))
    requires at + 2 <= |packet| && at > 12 && packet[at] == 192 && packet[at + 1] == 12
    ensures NameAt(packet, at) == if |labels| <= 126 then Some((WireName(labels), at + 2)) else None
  {
    PrintedSpells(packet, 12, labels);
    assert PartsOf(packet)(at) == Pointer(12);
    PointedNameFrom(PartsOf(packet), at, 12, labels);
  }

  lemma PointerRecordReads(packet: Packet, at: nat, labels: seq<seq<Byte>>, ip: Quad)
    requires WireLabels(labels) && |WireName(labels)| <= NAME_BYTES && Holds(packet, 12, WireName(labels))
    requires at > 12 && Holds(packet, at, PointerRecord(ip))
    ensures RecordAt(packet, at, true)
            == if |labels| <= 126 then Some((Address(WireName(labels), ip.Value()), at + 16)) else None
  {
    RecordBytes(packet, at, ip);
    PointerOwner(packet, at, labels);
  }

  predicate ReadsAs(read: Reader, at: nat, record: Record) { read(at, true) == Some((record, at + 16)) }

  /** Readable records of sixteen bytes each, one behind the other. */
  lemma {:induction false} RecordsInARow(read: Reader, at: nat, records: seq<Record>, index: nat, before: seq<Record>)
    requires forall i :: 0 <= i < |records| ==> ReadsAs(read, at + 16 * i, records[i])
    ensures RecordsFrom(read, at, index, index + |records|, index + |records|, before)
            == Some((before + records, at + 16 * |records|))
    decreases |records|
  {
    if records == [] {
      assert before + records == before;
    } else {
      assert ReadsAs(read, at + 16 * 0, records[0]);
      var rest := records[1..];
      forall i | 0 <= i < |rest| ensures ReadsAs(read, at + 16 + 16 * i, rest[i]) {
        assert ReadsAs(read, at + 16 * (i + 1), records[i + 1]);
      }
      RecordsInARow(read, at + 16, rest, index + 1, before + [records[0]]);
      assert before + [records[0]] + rest == before + records;
      assert index + 1 + |rest| == index + |records|;
    }
  }

  lemma {:induction false} RecordHolds(packet: Packet, at: nat, ips: seq<Quad>, i: nat)
    requires Holds(packet, at, PointerRecords(ips)) && i < |ips|
    ensures Holds(packet, at + 16 * i, PointerRecord(ips[i]))
    decreases i
  {
    HoldsParts(packet, at, PointerRecord(ips[0]), PointerRecords(ips[1..]));
    if i > 0 {
      RecordHolds(packet, at + 16, ips[1..], i - 1);
    }
  }

  lemma PointerRecordsRead(packet: Packet, at: nat, labels: seq<seq<Byte>>, ips: seq<Quad>)
    requires WireLabels(labels) && |WireName(labels)| <= NAME_BYTES && Holds(packet, 12, WireName(labels))
    requires at > 12 && Holds(packet, at, PointerRecords(ips)) && |labels| <= 126
    ensures RecordsFrom(RecordReader(packet), at, 0, |ips|, |ips|, [])
            == Some((AddressRecords(WireName(labels), ips), at + 16 * |ips|))
  {
    var records := AddressRecords(WireName(labels), ips);
    forall i | 0 <= i < |ips| ensures ReadsAs(RecordReader(packet), at + 16 * i, records[i]) {
      RecordHolds(packet, at, ips, i);
      PointerRecordReads(packet, at + 16 * i, labels, ips[i]);
    }
    RecordsInARow(RecordReader(packet), at, records, 0, []);
    assert [] + records == records;
  }

  lemma LongNameUnreadable(packet: Packet, at: nat, labels: seq<seq<Byte>>, ips: seq<Quad>)
    requires WireLabels(labels) && |WireName(labels)| <= NAME_BYTES && Holds(packet, 12, WireName(labels))
    requires at > 12 && Holds(packet, at, PointerRecords(ips)) && |labels| > 126 && ips != []
    ensures RecordsFrom(RecordReader(packet), at, 0, |ips|, |ips|, []).None?
  {
    RecordHolds(packet, at, ips, 0);
    PointerRecordReads(packet, at, labels, ips[0]);
    FirstUnreadable(RecordReader(packet), at, |ips|);
  }

  lemma FirstUnreadable(read: Reader, at: nat, total: nat)
    requires read(at, true).None? && total > 0
    ensures RecordsFrom(read, at, 0, total, total, []).None?
  {}

  lemma {:induction false} AddressesOfRecords(owner: Name, ips: seq<Quad>)
    ensures AddressesOf(AddressRecords(owner, ips), owner) == Values(ips)
  {
    if ips != [] {
      var init := ips[..|ips| - 1];
      AddressesOfRecords(owner, init);
      assert AddressRecords(owner, ips)[..|ips| - 1] == AddressRecords(owner, init);
      assert Values(ips) == Values(init) + [ips[|ips| - 1].Value()];
    } else {
      assert Values(ips) == [];
    }
  }

  lemma {:induction false} PointerRecordsLength(ips: seq<Quad>)
    ensures |PointerRecords(ips)| == 16 * |ips|
  {
    if ips != [] {
      PointerRecordsLength(ips[1..]);
    }
  }

  /** The layout of the response: question and records where they are expected. */
  lemma ResponseLayout(host: seq<Byte>, id: nat, ips: seq<Quad>)
    requires ValidHost(host) && id < 65536 && |ips| <= MAX_RECORDS
    ensures WireLabels(HostLabels(host))
    ensures var packet, name := Response(host, id, ips), WireName(HostLabels(host));
            && Holds(packet, 12, name) && Holds(packet, 12 + |name|, [0, 1, 0, 1])
            && Holds(packet, 16 + |name|, PointerRecords(ips)) && |packet| == 16 + |name| + 16 * |ips|
            && Holds(packet, 0, ResponseHeader(id, |ips|))
  {
    HostLabelsAreWire(host);
    PointerRecordsLength(ips);
    FourParts(ResponseHeader(id, |ips|), WireName(HostLabels(host)), [0, 1, 0, 1], PointerRecords(ips));
  }

  lemma FourParts(a: Packet, b: seq<Byte>, c: seq<Byte>, d: seq<Byte>)
    ensures var whole := a + b + c + d;
            && |whole| == |a| + |b| + |c| + |d|
            && Holds(whole, 0, a) && Holds(whole, |a|, b) && Holds(whole, |a| + |b|, c)
            && Holds(whole, |a| + |b| + |c|, d)
  {
    var whole := a + b + c + d;
    assert whole == [] + a + (b + c + d) && whole == a + b + (c + d) && whole == (a + b) + c + d
        && whole == (a + b + c) + d + [];
    SliceHolds([], a, b + c + d);
    SliceHolds(a, b, c + d);
    SliceHolds(a + b, c, d);
    SliceHolds(a + b + c, d, []);
  }

  lemma HeaderFields(packet: Packet, request: Packet, id: nat, answers: Byte)
    requires id < 65536 && 12 <= |packet| <= MAX_PACKET && |request| >= 17 && request[..2] == IdBytes(id)
    requires Holds(packet, 0, ResponseHeader(id, answers))
    ensures HeaderAccepted(packet, request)
    ensures Count(packet, 6) == answers == TotalRecords(packet)
  {
    var header := ResponseHeader(id, answers);
    assert packet[0..12] == header;
    forall i | 0 <= i < 12 ensures packet[i] == header[i] { BytesOf(packet, 0, header, i); }
    assert packet[..2] == IdBytes(id) && packet[4..6] == [0, 1];
  }

  /** The part of the layout behind the header. */
  predicate Body(packet: Packet, request: Packet, labels: seq<seq<Byte>>, ips: seq<Quad>)
    requires WireLabels(labels)
  {
    var name := WireName(labels);
    && ips != [] && |name| <= NAME_BYTES
    && Holds(packet, 12, name) && Holds(packet, 12 + |name|, [0, 1, 0, 1])
    && Holds(packet, 16 + |name|, PointerRecords(ips)) && |packet| == 16 + |name| + 16 * |ips|
    && |request| >= 17 && request[12..|request| - 4] == name
  }

  /** Everything about the response that reading it depends on. */
  predicate LaidOut(packet: Packet, request: Packet, id: nat, labels: seq<seq<Byte>>, ips: seq<Quad>)
    requires WireLabels(labels)
  {
    && Body(packet, request, labels, ips)
    && id < 65536 && |ips| <= MAX_RECORDS && |labels| <= 127
    && Holds(packet, 0, ResponseHeader(id, |ips|)) && request[..2] == IdBytes(id)
  }

  /** The records behind the question, and that they end the packet. */
  predicate Found(read: Reader, at: nat, count: nat, size: nat, records: Option<seq<Record>>) {
    var r := RecordsFrom(read, at, 0, count, count, []);
    r.Some? == records.Some? && (r.Some? ==> r.value.0 == records.value && r.value.1 == size)
  }

  lemma RecordsAfterQuestion(packet: Packet, request: Packet, question: Option<(Name, nat)>, at: nat, count: nat,
                             read: Reader, records: Option<seq<Record>>)
    requires |packet| >= 12 && |request| >= 17 && question.Some? && question.value.0 == request[12..|request| - 4]
    requires Holds(packet, question.value.1, [0, 1, 0, 1]) && Count(packet, 6) == count == TotalRecords(packet)
    requires at == question.value.1 + 4 && Found(read, at, count, |packet|, records)
    ensures RecordsAfter(packet, request, question, read) == records
  {}

  lemma LaidOutWith(packet: Packet, request: Packet, id: nat, labels: seq<seq<Byte>>, ips: seq<Quad>,
                    question: Option<(Name, nat)>, read: Reader, at: nat, records: Option<seq<Record>>)
    requires WireLabels(labels) && LaidOut(packet, request, id, labels, ips) && at == 16 + |WireName(labels)|
    requires question.Some? && question.value.0 == WireName(labels) && question.value.1 == 12 + |WireName(labels)|
    requires Found(read, at, |ips|, |packet|, records)
    ensures ResponseWith(packet, request, question, read) == records
  {
    HeaderFields(packet, request, id, |ips|);
    RecordsAfterQuestion(packet, request, question, at, |ips|, read, records);
  }

  lemma RecordsFound(packet: Packet, at: nat, labels: seq<seq<Byte>>, ips: seq<Quad>)
    requires WireLabels(labels) && |WireName(labels)| <= NAME_BYTES && Holds(packet, 12, WireName(labels))
    requires at > 12 && Holds(packet, at, PointerRecords(ips)) && ips != [] && |packet| == at + 16 * |ips|
    ensures Found(RecordReader(packet), at, |ips|, |packet|,
                  if |labels| <= 126 then Some(AddressRecords(WireName(labels), ips)) else None)
  {
    if |labels| <= 126 {
      PointerRecordsRead(packet, at, labels, ips);
    } else {
      LongNameUnreadable(packet, at, labels, ips);
    }
  }

  lemma LaidOutReads(packet: Packet, request: Packet, id: nat, labels: seq<seq<Byte>>, ips: seq<Quad>, at: nat)
    requires WireLabels(labels) && LaidOut(packet, request, id, labels, ips) && at == 16 + |WireName(labels)|
    ensures ResponseRecords(packet, request)
            == if |labels| <= 126 then Some(AddressRecords(WireName(labels), ips)) else None
  {
    PrintedNameAt(packet, 12, labels);
    RecordsFound(packet, at, labels, ips);
    LaidOutWith(packet, request, id, labels, ips, NameAt(packet, 12), RecordReader(packet), at,
                if |labels| <= 126 then Some(AddressRecords(WireName(labels), ips)) else None);
  }

  lemma ResponseReads(host: seq<Byte>, id: nat, ips: seq<Quad>)
    requires ValidHost(host) && id < 65536 && 1 <= |ips| <= MAX_RECORDS
    ensures WireLabels(HostLabels(host))
    ensures LaidOut(Response(host, id, ips), QueryPacket(host, id), id, HostLabels(host), ips)
  {
    HostFits(host);
    ResponseLayout(host, id, ips);
    QueryNameRoundTrip(host, id);
    assert QueryPacket(host, id)[..2] == IdBytes(id);
  }

  lemma AddressRecordsResolve(name: Name, ips: seq<Quad>, result: seq<nat>)
    requires ips != []
    ensures Resolves(AddressRecords(name, ips), name, result)
            <==> result == SortedDistinct(Values(ips)) && |result| <= MAX_ADDRESSES
  {
    var records := AddressRecords(name, ips);
    assert Chain(records, name, [name]);
    assert Walked(records, name, [], name);
    assert [] + [name] == [name];
    EndIsUnique(records, name, [], name, result);
    AddressesOfRecords(name, ips);
    assert ips[0].Value() == Values(ips)[0];
    assert Values(ips)[0] in SortedDistinct(Values(ips));
  }

  /**
    * A response that answers the query with pointer-compressed A records gives
    * back its addresses for hosts of at most 126 labels, and nothing for 127: the
    * pointer is the one step too many.
    */
  lemma ResponseRoundTrip(host: seq<Byte>, id: nat, ips: seq<Quad>, result: seq<nat>)
    requires ValidHost(host) && id < 65536 && 1 <= |ips| <= MAX_RECORDS
    ensures Answers(Response(host, id, ips), QueryPacket(host, id), result)
            <==> |HostLabels(host)| <= 126 && result == SortedDistinct(Values(ips)) && |result| <= MAX_ADDRESSES
  {
    ResponseReads(host, id, ips);
    LaidOutReads(Response(host, id, ips), QueryPacket(host, id), id, HostLabels(host), ips,
                 16 + |WireName(HostLabels(host))|);
    AddressRecordsResolve(WireName(HostLabels(host)), ips, result);
  }
}
