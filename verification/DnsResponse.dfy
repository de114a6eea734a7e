/**
  * Printed responses (sections 3.2.1, 3.3.1, 3.4.1 and 4.1 of RFC 1035): any
  * records, in any section, behind a query's question, and what reading them gives.
  */
module DnsResponse {
  import opened Selection
  import opened DnsName
  import opened RoutedDns
  import opened DnsAnswer

  type Labels = seq<seq<Byte>>

  /** What a record carries: an address, an alias, a broken one of these, or any other type or class. */
  datatype Content =
    | A(ip: Quad)
    | Cname(target: Labels)
    | BrokenA(bytes: seq<Byte>)
    | BrokenCname(target: Labels, extra: seq<Byte>)
    | Other(kind: nat, klass: nat, bytes: seq<Byte>)

  datatype WireRecord = WireRecord(owner: Labels, ttl: Quad, content: Content)

  /** A name that the reader's bounds admit. */
  predicate Readable(labels: Labels) {
    WireLabels(labels) && |labels| < NAME_STEPS && |WireName(labels)| <= NAME_BYTES
  }

  predicate Printable(r: WireRecord) {
    && Readable(r.owner)
    && match r.content
       case A(_) => true
       case Cname(target) => Readable(target)
       case BrokenA(bytes) => |bytes| != 4 && |bytes| < 65536
       case BrokenCname(target, extra) => Readable(target) && 1 <= |extra| < 65000
       case Other(kind, klass, bytes) =>
         kind < 65536 && klass < 65536 && |bytes| < 65536 && !(klass == 1 && kind in {1, 5})
  }

  predicate Broken(r: WireRecord) { r.content.BrokenA? || r.content.BrokenCname? }

  function Kind(c: Content): nat {
    match c
    case A(_) => 1
    case BrokenA(_) => 1
    case Cname(_) => 5
    case BrokenCname(_, _) => 5
    case Other(kind, _, _) => kind
  }

  function Klass(c: Content): nat { if c.Other? then c.klass else 1 }

  function Data(r: WireRecord): (bytes: seq<Byte>)
    requires Printable(r)
    ensures |bytes| < 65536
  {
    match r.content
    case A(ip) => [ip.a, ip.b, ip.c, ip.d]
    case Cname(target) => WireName(target)
    case BrokenA(bytes) => bytes
    case BrokenCname(target, extra) => WireName(target) + extra
    case Other(_, _, bytes) => bytes
  }

  function TwoBytes(n: nat): seq<Byte>
    requires n < 65536
  {
    [n / 256, n % 256]
  }

  /** Type, class, time to live and data length. */
  function FixedFields(kind: nat, klass: nat, ttl: Quad, length: nat): (bytes: seq<Byte>)
    requires kind < 65536 && klass < 65536 && length < 65536
    ensures |bytes| == 10
  {
    TwoBytes(kind) + TwoBytes(klass) + [ttl.a, ttl.b, ttl.c, ttl.d] + TwoBytes(length)
  }

  function Printed(r: WireRecord): seq<Byte>
    requires Printable(r)
  {
    WireName(r.owner) + (FixedFields(Kind(r.content), Klass(r.content), r.ttl, |Data(r)|) + Data(r))
  }

  predicate AllPrintable(rs: seq<WireRecord>) { forall i :: 0 <= i < |rs| ==> Printable(rs[i]) }

  function PrintedAll(rs: seq<WireRecord>): seq<Byte>
    requires AllPrintable(rs)
  {
    if rs == [] then [] else Printed(rs[0]) + PrintedAll(rs[1..])
  }

  /** What one record says in the answer section. */
  function Says(r: WireRecord): Record
    requires Printable(r)
  {
    match r.content
    case A(ip) => Address(WireName(r.owner), ip.Value())
    case Cname(target) => Alias(WireName(r.owner), WireName(target))
    case _ => Ignored
  }

  /** What a list of records says, the first `answers` of them in the answer section. */
  function Said(rs: seq<WireRecord>, answers: nat): seq<Record>
    requires AllPrintable(rs)
  {
    seq(|rs|, i requires 0 <= i < |rs| => if i < answers then Says(rs[i]) else Ignored)
  }

  // -------------------------------------------------------------------------
  // One record.

  lemma TwoBytesAt(packet: Packet, at: nat, n: nat)
    requires n < 65536 && Holds(packet, at, TwoBytes(n))
    ensures Word(packet, at) == Some(n)
  {
    BytesOf(packet, at, TwoBytes(n), 0);
    BytesOf(packet, at, TwoBytes(n), 1);
  }

  lemma FixedFieldsAt(packet: Packet, at: nat, kind: nat, klass: nat, ttl: Quad, length: nat)
    requires kind < 65536 && klass < 65536 && length < 65536
    requires Holds(packet, at, FixedFields(kind, klass, ttl, length))
    ensures Word(packet, at) == Some(kind) && Word(packet, at + 2) == Some(klass)
    ensures Word(packet, at + 8) == Some(length)
  {
    var time := [ttl.a, ttl.b, ttl.c, ttl.d];
    HoldsParts(packet, at, TwoBytes(kind) + TwoBytes(klass) + time, TwoBytes(length));
    HoldsParts(packet, at, TwoBytes(kind) + TwoBytes(klass), time);
    HoldsParts(packet, at, TwoBytes(kind), TwoBytes(klass));
    TwoBytesAt(packet, at, kind);
    TwoBytesAt(packet, at + 2, klass);
    TwoBytesAt(packet, at + 8, length);
  }

  lemma DataReads(packet: Packet, at: nat, r: WireRecord, inAnswer: bool)
    requires Printable(r) && Holds(packet, at, Data(r))
    ensures DataAt(packet, WireName(r.owner), Kind(r.content), inAnswer && Klass(r.content) == 1, at, at + |Data(r)|)
            == if !inAnswer then Some(Ignored) else if Broken(r) then None else Some(Says(r))
  {
    match r.content
    case A(ip) =>
      forall i | 0 <= i < 4 ensures packet[at + i] == Data(r)[i] { BytesOf(packet, at, Data(r), i); }
      assert packet[at + 0] == ip.a && packet[at + 1] == ip.b && packet[at + 2] == ip.c && packet[at + 3] == ip.d;
    case Cname(target) => PrintedNameAt(packet, at, target);
    case BrokenA(_) =>
    case BrokenCname(target, extra) =>
      HoldsParts(packet, at, WireName(target), extra);
      PrintedNameAt(packet, at, target);
    case Other(_, _, _) =>
  }

  lemma FieldsRead(packet: Packet, at: nat, r: WireRecord, inAnswer: bool)
    requires Printable(r)
    requires Holds(packet, at, FixedFields(Kind(r.content), Klass(r.content), r.ttl, |Data(r)|))
    requires Holds(packet, at + 10, Data(r))
    ensures FieldsAt(packet, WireName(r.owner), at, inAnswer) == Read(r, inAnswer, at + 10 + |Data(r)|)
  {
    FixedFieldsAt(packet, at, Kind(r.content), Klass(r.content), r.ttl, |Data(r)|);
    DataReads(packet, at + 10, r, inAnswer);
    FieldsFrom(packet, WireName(r.owner), at, inAnswer, Kind(r.content), Klass(r.content), |Data(r)|,
               if !inAnswer then Some(Ignored) else if Broken(r) then None else Some(Says(r)));
  }

  lemma FieldsFrom(packet: Packet, owner: Name, at: nat, inAnswer: bool, kind: nat, klass: nat, length: nat,
                   record: Option<Record>)
    requires Word(packet, at) == Some(kind) && Word(packet, at + 2) == Some(klass)
    requires Word(packet, at + 8) == Some(length)
    requires at + 10 + length <= |packet|
    requires DataAt(packet, owner, kind, inAnswer && klass == 1, at + 10, at + 10 + length) == record
    ensures FieldsAt(packet, owner, at, inAnswer)
            == if record.None? then None else Some((record.value, at + 10 + length))
  {}

  lemma RecordFrom(packet: Packet, at: nat, inAnswer: bool, owner: Name, fixed: nat, r: Option<(Record, nat)>)
    requires NameAt(packet, at) == Some((owner, fixed)) && FieldsAt(packet, owner, fixed, inAnswer) == r
    ensures RecordAt(packet, at, inAnswer) == r
  {}

  lemma PrintedParts(packet: Packet, at: nat, r: WireRecord)
    requires Printable(r) && Holds(packet, at, Printed(r))
    ensures Holds(packet, at, WireName(r.owner))
    ensures Holds(packet, at + |WireName(r.owner)|,
                  FixedFields(Kind(r.content), Klass(r.content), r.ttl, |Data(r)|))
    ensures Holds(packet, at + |WireName(r.owner)| + 10, Data(r))
    ensures |Printed(r)| == |WireName(r.owner)| + 10 + |Data(r)|
  {
    var name := WireName(r.owner);
    var fixed := FixedFields(Kind(r.content), Klass(r.content), r.ttl, |Data(r)|);
    HoldsParts(packet, at, name, fixed + Data(r));
    HoldsParts(packet, at + |name|, fixed, Data(r));
  }

  /** What reading a printed record gives: what it says, nothing of note outside the answers, a refusal if broken. */
  function Read(r: WireRecord, inAnswer: bool, end: nat): Option<(Record, nat)>
    requires Printable(r)
  {
    if !inAnswer then Some((Ignored, end)) else if Broken(r) then None else Some((Says(r), end))
  }

  lemma RecordReads(packet: Packet, at: nat, r: WireRecord, inAnswer: bool)
    requires Printable(r) && Holds(packet, at, Printed(r))
    ensures RecordAt(packet, at, inAnswer) == Read(r, inAnswer, at + |Printed(r)|)
  {
    PrintedParts(packet, at, r);
    NamedRecordReads(packet, at, at + |WireName(r.owner)|, r, inAnswer, at + |Printed(r)|);
  }

  lemma NamedRecordReads(packet: Packet, at: nat, fixed: nat, r: WireRecord, inAnswer: bool, end: nat)
    requires Printable(r) && Holds(packet, at, WireName(r.owner)) && fixed == at + |WireName(r.owner)|
    requires Holds(packet, fixed, FixedFields(Kind(r.content), Klass(r.content), r.ttl, |Data(r)|))
    requires Holds(packet, fixed + 10, Data(r)) && end == fixed + 10 + |Data(r)|
    ensures RecordAt(packet, at, inAnswer) == Read(r, inAnswer, end)
  {
    NameReads(packet, at, r.owner, fixed);
    FieldsRead(packet, fixed, r, inAnswer);
    RecordFrom(packet, at, inAnswer, WireName(r.owner), fixed, Read(r, inAnswer, end));
  }

  lemma NameReads(packet: Packet, at: nat, labels: Labels, end: nat)
    requires Readable(labels) && Holds(packet, at, WireName(labels)) && end == at + |WireName(labels)|
    ensures NameAt(packet, at) == Some((WireName(labels), end))
  {
    PrintedSpells(packet, at, labels);
    SpelledNameFrom(PartsOf(packet), at, labels);
  }

  // -------------------------------------------------------------------------
  // All records.

  /** One of the first `answers` records is broken. */
  predicate BrokenAnswer(rs: seq<WireRecord>, answers: nat) {
    exists i :: 0 <= i < |rs| && i < answers && Broken(rs[i])
  }

  function Remaining(answers: nat, index: nat): nat { if index < answers then answers - index else 0 }

  lemma SaidFirst(rs: seq<WireRecord>, answers: nat, before: seq<Record>)
    requires AllPrintable(rs) && rs != []
    ensures var first := if 0 < answers then Says(rs[0]) else Ignored;
            before + Said(rs, answers) == before + [first] + Said(rs[1..], Remaining(answers, 1))
    ensures BrokenAnswer(rs, answers)
            <==> (0 < answers && Broken(rs[0])) || BrokenAnswer(rs[1..], Remaining(answers, 1))
  {
    var first := if 0 < answers then Says(rs[0]) else Ignored;
    assert Said(rs, answers) == [first] + Said(rs[1..], Remaining(answers, 1));
    if BrokenAnswer(rs, answers) {
      var i :| 0 <= i < |rs| && i < answers && Broken(rs[i]);
      if i > 0 { assert rs[1..][i - 1] == rs[i]; }
    }
    if BrokenAnswer(rs[1..], Remaining(answers, 1)) {
      var i :| 0 <= i < |rs[1..]| && i < Remaining(answers, 1) && Broken(rs[1..][i]);
      assert rs[i + 1] == rs[1..][i];
    }
  }

  /** The reader finds these records one behind the other. */
  predicate Follows(read: Reader, at: nat, rs: seq<WireRecord>, index: nat, answers: nat)
    requires AllPrintable(rs)
    decreases |rs|
  {
    rs != [] ==>
      var end := at + |Printed(rs[0])|;
      read(at, index < answers) == Read(rs[0], index < answers, end) && Follows(read, end, rs[1..], index + 1, answers)
  }

  lemma ReaderReads(packet: Packet, at: nat, r: WireRecord, inAnswer: bool)
    requires Printable(r) && Holds(packet, at, Printed(r))
    ensures RecordReader(packet)(at, inAnswer) == Read(r, inAnswer, at + |Printed(r)|)
  {
    RecordReads(packet, at, r, inAnswer);
  }

  lemma {:induction false} PrintedFollows(packet: Packet, at: nat, rs: seq<WireRecord>, index: nat, answers: nat)
    requires AllPrintable(rs) && Holds(packet, at, PrintedAll(rs))
    ensures Follows(RecordReader(packet), at, rs, index, answers)
    decreases |rs|
  {
    if rs != [] {
      HoldsParts(packet, at, Printed(rs[0]), PrintedAll(rs[1..]));
      ReaderReads(packet, at, rs[0], index < answers);
      PrintedFollows(packet, at + |Printed(rs[0])|, rs[1..], index + 1, answers);
    }
  }

  /** Records one behind the other read as what they say, or not at all if an answer is broken. */
  lemma {:induction false} RecordsRead(read: Reader, at: nat, rs: seq<WireRecord>, index: nat, answers: nat,
                                       before: seq<Record>)
    requires AllPrintable(rs) && Follows(read, at, rs, index, answers)
    ensures RecordsFrom(read, at, index, answers, index + |rs|, before)
            == if BrokenAnswer(rs, Remaining(answers, index)) then None
               else Some((before + Said(rs, Remaining(answers, index)), at + |PrintedAll(rs)|))
    decreases |rs|
  {
    if rs == [] {
      assert before + Said(rs, Remaining(answers, index)) == before;
    } else {
      var left := Remaining(answers, index);
      SaidFirst(rs, left, before);
      var end := at + |Printed(rs[0])|;
      var first := if index < answers then Says(rs[0]) else Ignored;
      RecordsRead(read, end, rs[1..], index + 1, answers, before + [first]);
      FirstRead(read, at, index, answers, index + |rs|, before, Read(rs[0], index < answers, end));
      assert Remaining(answers, index + 1) == Remaining(left, 1);
      assert index + 1 + |rs[1..]| == index + |rs|;
    }
  }

  lemma FirstRead(read: Reader, at: nat, index: nat, answers: nat, total: nat, before: seq<Record>,
                  first: Option<(Record, nat)>)
    requires index < total && read(at, index < answers) == first
    ensures RecordsFrom(read, at, index, answers, total, before)
            == if first.None? then None
               else RecordsFrom(read, first.value.1, index + 1, answers, total, before + [first.value.0])
  {}

  // -------------------------------------------------------------------------
  // The flags and the whole response.

  /** The second header line (section 4.1.1 of RFC 1035), with the bits that RFC 2535 took from the reserved field. */
  datatype Flags = Flags(qr: nat, opcode: nat, aa: nat, tc: nat, rd: nat, ra: nat, z: nat, ad: nat, cd: nat, rcode: nat)

  predicate ValidFlags(f: Flags) {
    && f.qr < 2 && f.opcode < 16 && f.aa < 2 && f.tc < 2 && f.rd < 2
    && f.ra < 2 && f.z < 2 && f.ad < 2 && f.cd < 2 && f.rcode < 16
  }

  function HighByte(f: Flags): Byte
    requires ValidFlags(f)
  {
    128 * f.qr + 8 * f.opcode + 4 * f.aa + 2 * f.tc + f.rd
  }

  function LowByte(f: Flags): Byte
    requires ValidFlags(f)
  {
    128 * f.ra + 64 * f.z + 32 * f.ad + 16 * f.cd + f.rcode
  }

  /** Accepted are exactly untruncated standard responses without an error and with a clear reserved bit. */
  lemma FlagsAccepted(f: Flags)
    requires ValidFlags(f)
    ensures GoodFlags(HighByte(f), LowByte(f)) <==> f.qr == 1 && f.opcode == 0 && f.tc == 0 && f.z == 0 && f.rcode == 0
  {
    HighAccepted(f);
    LowAccepted(f);
  }

  lemma HighAccepted(f: Flags)
    requires ValidFlags(f)
    ensures HighByte(f) in {0x80, 0x81, 0x84, 0x85} <==> f.qr == 1 && f.opcode == 0 && f.tc == 0
  {}

  lemma LowAccepted(f: Flags)
    requires ValidFlags(f)
    ensures LowByte(f) % 16 == 0 && (LowByte(f) / 64) % 2 == 0 <==> f.z == 0 && f.rcode == 0
  {
    assert LowByte(f) % 16 == f.rcode;
    assert LowByte(f) / 64 == 2 * f.ra + f.z;
  }

  function Header(id: nat, f: Flags, answers: Byte, authority: Byte, additional: Byte): (r: seq<Byte>)
    requires id < 65536 && ValidFlags(f)
    ensures |r| == 12
  {
    IdBytes(id) + [HighByte(f), LowByte(f), 0, 1, 0, answers, 0, authority, 0, additional]
  }

  /** The three sections of a response. */
  datatype Sections = Sections(answers: seq<WireRecord>, authority: seq<WireRecord>, additional: seq<WireRecord>)
  {
    function All(): seq<WireRecord> { answers + authority + additional }
    predicate Countable() { |answers| < 256 && |authority| < 256 && |additional| < 256 }
  }

  function PrintedResponse(host: seq<Byte>, id: nat, f: Flags, s: Sections): Packet
    requires ValidHost(host) && id < 65536 && ValidFlags(f) && s.Countable() && AllPrintable(s.All())
  {
    HostLabelsAreWire(host);
    Header(id, f, |s.answers|, |s.authority|, |s.additional|)
    + WireName(HostLabels(host)) + [0, 1, 0, 1] + PrintedAll(s.All())
  }

  lemma HeaderReads(packet: Packet, request: Packet, id: nat, f: Flags, s: Sections)
    requires id < 65536 && ValidFlags(f) && s.Countable() && |request| >= 17 && request[..2] == IdBytes(id)
    requires Holds(packet, 0, Header(id, f, |s.answers|, |s.authority|, |s.additional|))
    ensures HeaderAccepted(packet, request) <==> |packet| <= MAX_PACKET && GoodFlags(HighByte(f), LowByte(f))
    ensures Count(packet, 6) == |s.answers| && TotalRecords(packet) == |s.All()|
  {
    var header := Header(id, f, |s.answers|, |s.authority|, |s.additional|);
    forall i | 0 <= i < 12 ensures packet[i] == header[i] { BytesOf(packet, 0, header, i); }
    assert packet[..2] == IdBytes(id) && packet[4..6] == [0, 1];
    assert packet[2] == HighByte(f) && packet[3] == LowByte(f);
  }

  /** The response is acceptable: within the limits, good flags, and every answer whole. */
  predicate Acceptable(packet: Packet, f: Flags, s: Sections)
    requires ValidFlags(f)
  {
    && |packet| <= MAX_PACKET && |s.All()| <= MAX_RECORDS && !BrokenAnswer(s.All(), |s.answers|)
    && f.qr == 1 && f.opcode == 0 && f.tc == 0 && f.z == 0 && f.rcode == 0
  }

  lemma ReadsWith(packet: Packet, request: Packet, good: bool, answers: nat, total: nat,
                  question: Option<(Name, nat)>, read: Reader, records: Option<(seq<Record>, nat)>)
    requires 12 <= |packet| && |request| >= 17 && (HeaderAccepted(packet, request) <==> good)
    requires Count(packet, 6) == answers <= total == TotalRecords(packet)
    requires question.Some? && question.value.0 == request[12..|request| - 4]
    requires Holds(packet, question.value.1, [0, 1, 0, 1])
    requires RecordsFrom(read, question.value.1 + 4, 0, answers, total, []) == records
    requires records.Some? ==> records.value.1 == |packet|
    ensures ResponseWith(packet, request, question, read)
            == if good && total <= MAX_RECORDS && records.Some? then Some(records.value.0) else None
  {}

  /**
    * The round trip: a printed response reads exactly when it is acceptable, and
    * then as what its answers say, with the other sections' records ignored.
    */
  lemma PrintedResponseReads(host: seq<Byte>, id: nat, f: Flags, s: Sections)
    requires ValidHost(host) && id < 65536 && ValidFlags(f) && s.Countable() && AllPrintable(s.All())
    ensures var packet := PrintedResponse(host, id, f, s);
            ResponseRecords(packet, QueryPacket(host, id))
            == if Acceptable(packet, f, s) then Some(Said(s.All(), |s.answers|)) else None
  {
    QueryLayout(host, id);
    var labels := HostLabels(host);
    var end := 12 + |WireName(labels)|;
    ResponseLaidOut(host, id, f, s, end);
    LaidOutResponse(PrintedResponse(host, id, f, s), QueryPacket(host, id), id, f, s, labels, end);
  }

  lemma QueryLayout(host: seq<Byte>, id: nat)
    requires ValidHost(host) && id < 65536
    ensures Readable(HostLabels(host))
    ensures var request := QueryPacket(host, id);
            |request| >= 17 && request[..2] == IdBytes(id) && request[12..|request| - 4] == WireName(HostLabels(host))
  {
    HostFits(host);
    QueryNameRoundTrip(host, id);
  }

  lemma ResponseLaidOut(host: seq<Byte>, id: nat, f: Flags, s: Sections, end: nat)
    requires ValidHost(host) && id < 65536 && ValidFlags(f) && s.Countable() && AllPrintable(s.All())
    requires WireLabels(HostLabels(host)) && end == 12 + |WireName(HostLabels(host))|
    ensures var packet := PrintedResponse(host, id, f, s);
            && Holds(packet, 0, Header(id, f, |s.answers|, |s.authority|, |s.additional|))
            && Holds(packet, 12, WireName(HostLabels(host))) && Holds(packet, end, [0, 1, 0, 1])
            && Holds(packet, end + 4, PrintedAll(s.All())) && |packet| == end + 4 + |PrintedAll(s.All())|
  {
    FourParts(Header(id, f, |s.answers|, |s.authority|, |s.additional|), WireName(HostLabels(host)), [0, 1, 0, 1],
              PrintedAll(s.All()));
  }

  lemma LaidOutResponse(packet: Packet, request: Packet, id: nat, f: Flags, s: Sections, labels: Labels, end: nat)
    requires id < 65536 && ValidFlags(f) && s.Countable() && AllPrintable(s.All()) && Readable(labels)
    requires |request| >= 17 && request[..2] == IdBytes(id) && request[12..|request| - 4] == WireName(labels)
    requires Holds(packet, 0, Header(id, f, |s.answers|, |s.authority|, |s.additional|))
    requires Holds(packet, 12, WireName(labels)) && end == 12 + |WireName(labels)| && Holds(packet, end, [0, 1, 0, 1])
    requires Holds(packet, end + 4, PrintedAll(s.All())) && |packet| == end + 4 + |PrintedAll(s.All())|
    ensures ResponseRecords(packet, request)
            == if Acceptable(packet, f, s) then Some(Said(s.All(), |s.answers|)) else None
  {
    NameReads(packet, 12, labels, end);
    PrintedFollows(packet, end + 4, s.All(), 0, |s.answers|);
    FollowedResponse(packet, request, id, f, s, Some((WireName(labels), end)), RecordReader(packet));
  }

  lemma FollowedResponse(packet: Packet, request: Packet, id: nat, f: Flags, s: Sections,
                         question: Option<(Name, nat)>, read: Reader)
    requires id < 65536 && ValidFlags(f) && s.Countable() && AllPrintable(s.All())
    requires |request| >= 17 && request[..2] == IdBytes(id)
    requires Holds(packet, 0, Header(id, f, |s.answers|, |s.authority|, |s.additional|))
    requires question.Some? && question.value.0 == request[12..|request| - 4]
    requires Holds(packet, question.value.1, [0, 1, 0, 1])
    requires |packet| == question.value.1 + 4 + |PrintedAll(s.All())|
    requires Follows(read, question.value.1 + 4, s.All(), 0, |s.answers|)
    ensures ResponseWith(packet, request, question, read)
            == if Acceptable(packet, f, s) then Some(Said(s.All(), |s.answers|)) else None
  {
    var good := |packet| <= MAX_PACKET && GoodFlags(HighByte(f), LowByte(f));
    var records := if BrokenAnswer(s.All(), |s.answers|) then None else Some((Said(s.All(), |s.answers|), |packet|));
    HeaderReads(packet, request, id, f, s);
    FollowedRecords(read, question.value.1 + 4, s, |packet|);
    ReadsWith(packet, request, good, |s.answers|, |s.All()|, question, read, records);
    AcceptableMeans(packet, f, s);
  }

  lemma FollowedRecords(read: Reader, at: nat, s: Sections, size: nat)
    requires AllPrintable(s.All()) && Follows(read, at, s.All(), 0, |s.answers|) && size == at + |PrintedAll(s.All())|
    ensures RecordsFrom(read, at, 0, |s.answers|, |s.All()|, [])
            == if BrokenAnswer(s.All(), |s.answers|) then None else Some((Said(s.All(), |s.answers|), size))
  {
    RecordsRead(read, at, s.All(), 0, |s.answers|, []);
    assert [] + Said(s.All(), |s.answers|) == Said(s.All(), |s.answers|);
  }

  lemma AcceptableMeans(packet: Packet, f: Flags, s: Sections)
    requires ValidFlags(f)
    ensures Acceptable(packet, f, s) <==>
            && |packet| <= MAX_PACKET && GoodFlags(HighByte(f), LowByte(f))
            && |s.All()| <= MAX_RECORDS && !BrokenAnswer(s.All(), |s.answers|)
  {
    FlagsAccepted(f);
  }

  /** So the answer is what the printed records resolve the question to. */
  lemma PrintedAnswer(host: seq<Byte>, id: nat, f: Flags, s: Sections, result: seq<nat>)
    requires ValidHost(host) && id < 65536 && ValidFlags(f) && s.Countable() && AllPrintable(s.All())
    ensures WireLabels(HostLabels(host))
    ensures var packet := PrintedResponse(host, id, f, s);
            Answers(packet, QueryPacket(host, id), result)
            <==> Acceptable(packet, f, s)
                 && Resolves(Said(s.All(), |s.answers|), WireName(HostLabels(host)), result)
  {
    HostLabelsAreWire(host);
    QueryNameRoundTrip(host, id);
    PrintedResponseReads(host, id, f, s);
  }

  // -------------------------------------------------------------------------
  // An aliased host.

  /** Distinct names, each an alias of the next. */
  predicate AliasPath(names: seq<Labels>) {
    && names != [] && (forall i :: 0 <= i < |names| ==> Readable(names[i]))
    && forall i, j :: 0 <= i < j < |names| ==> WireName(names[i]) != WireName(names[j])
  }

  function AliasRecords(names: seq<Labels>, ttl: Quad): seq<WireRecord>
    requires names != []
  {
    seq(|names| - 1, i requires 0 <= i < |names| - 1 => WireRecord(names[i], ttl, Cname(names[i + 1])))
  }

  function HostRecords(name: Labels, ttl: Quad, ips: seq<Quad>): seq<WireRecord> {
    seq(|ips|, i requires 0 <= i < |ips| => WireRecord(name, ttl, A(ips[i])))
  }

  function PathRecords(names: seq<Labels>, ttl: Quad, ips: seq<Quad>): seq<WireRecord>
    requires names != []
  {
    AliasRecords(names, ttl) + HostRecords(names[|names| - 1], ttl, ips)
  }

  function WireNames(names: seq<Labels>): seq<Name>
    requires forall i :: 0 <= i < |names| ==> Readable(names[i])
  {
    seq(|names|, i requires 0 <= i < |names| && Readable(names[i]) => WireName(names[i]))
  }

  /** From an index on the records are these addresses of one owner. */
  predicate AddressesFrom(records: seq<Record>, at: nat, owner: Name, ips: seq<Quad>) {
    |records| == at + |ips| && forall i :: at <= i < |records| ==> records[i] == Address(owner, ips[i - at].Value())
  }

  /** What the records of a path say: one alias per name but the last, then the last one's addresses. */
  predicate PathSaid(records: seq<Record>, names: seq<Name>, ips: seq<Quad>) {
    && names != [] && |records| == |names| - 1 + |ips|
    && (forall i, j :: 0 <= i < j < |names| ==> names[i] != names[j])
    && (forall i {:trigger records[i]} :: 0 <= i < |names| - 1 ==> records[i] == Alias(names[i], names[i + 1]))
    && AddressesFrom(records, |names| - 1, names[|names| - 1], ips)
  }

  lemma PathPrints(names: seq<Labels>, ttl: Quad, ips: seq<Quad>)
    requires AliasPath(names)
    ensures AllPrintable(PathRecords(names, ttl, ips))
    ensures !BrokenAnswer(PathRecords(names, ttl, ips), |PathRecords(names, ttl, ips)|)
  {
    var rs := PathRecords(names, ttl, ips);
    forall i | 0 <= i < |rs| ensures Printable(rs[i]) && !Broken(rs[i]) {
      if i < |names| - 1 { assert Readable(names[i]) && Readable(names[i + 1]); }
    }
  }

  lemma PathSays(names: seq<Labels>, ttl: Quad, ips: seq<Quad>)
    requires AliasPath(names) && AllPrintable(PathRecords(names, ttl, ips))
    ensures PathSaid(Said(PathRecords(names, ttl, ips), |PathRecords(names, ttl, ips)|), WireNames(names), ips)
  {
    var rs, wires, at := PathRecords(names, ttl, ips), WireNames(names), |names| - 1;
    var said := Said(rs, |rs|);
    forall i | 0 <= i < at ensures said[i] == Alias(wires[i], wires[i + 1]) {
      assert rs[i] == AliasRecords(names, ttl)[i];
    }
    forall i | at <= i < |said| ensures said[i] == Address(wires[at], ips[i - at].Value()) {
      assert rs[i] == HostRecords(names[at], ttl, ips)[i - at];
    }
  }

  lemma HopOfPath(records: seq<Record>, names: seq<Name>, ips: seq<Quad>, k: nat)
    requires PathSaid(records, names, ips) && k < |names|
    ensures HasAlias(records, names[k]) <==> k < |names| - 1
    ensures k < |names| - 1 ==> forall target :: Hop(records, names[k], target) <==> target == names[k + 1]
  {
    if k < |names| - 1 { assert records[k] == Alias(names[k], names[k + 1]); }
    forall i | 0 <= i < |records| && !records[i].Ignored? && records[i].owner == names[k]
      ensures if k < |names| - 1 then records[i] == Alias(names[k], names[k + 1]) else records[i].Address?
    {}
  }

  lemma PathIsChain(records: seq<Record>, names: seq<Name>, ips: seq<Quad>)
    requires PathSaid(records, names, ips) && |names| <= CHAIN_NAMES
    ensures Chain(records, names[0], names)
  {
    forall k | 0 <= k < |names| - 1 ensures Hop(records, names[k], names[k + 1]) { HopOfPath(records, names, ips, k); }
    HopOfPath(records, names, ips, |names| - 1);
  }

  lemma OnlyThePath(records: seq<Record>, names: seq<Name>, ips: seq<Quad>, chain: seq<Name>)
    requires PathSaid(records, names, ips) && Chain(records, names[0], chain)
    ensures chain == names
  {
    var last := |chain| - 1;
    ChainFollows(records, names, ips, chain, last);
    assert chain[..last + 1] == chain && chain[last] == names[..last + 1][last];
    HopOfPath(records, names, ips, last);
    assert names[..last + 1] == names;
  }

  /** The only alias chain is the path itself. */
  lemma ChainIsPath(records: seq<Record>, names: seq<Name>, ips: seq<Quad>, chain: seq<Name>)
    requires PathSaid(records, names, ips)
    ensures Chain(records, names[0], chain) <==> chain == names && |names| <= CHAIN_NAMES
  {
    if Chain(records, names[0], chain) { OnlyThePath(records, names, ips, chain); }
    if |names| <= CHAIN_NAMES { PathIsChain(records, names, ips); }
  }

  lemma {:induction false} ChainFollows(records: seq<Record>, names: seq<Name>, ips: seq<Quad>, chain: seq<Name>,
                                        k: nat)
    requires PathSaid(records, names, ips) && Chain(records, names[0], chain) && k < |chain|
    ensures k < |names| && chain[..k + 1] == names[..k + 1]
  {
    if k == 0 {
      assert chain[..1] == [chain[0]] && names[..1] == [names[0]];
    } else {
      ChainFollows(records, names, ips, chain, k - 1);
      assert chain[k - 1] == chain[..k][k - 1] == names[..k][k - 1];
      assert Hop(records, chain[k - 1], chain[k - 1 + 1]);
      HopOfPath(records, names, ips, k - 1);
      assert chain[..k + 1] == chain[..k] + [chain[k]] && names[..k + 1] == names[..k] + [names[k]];
    }
  }

  lemma {:induction false} AddressesOfPath(records: seq<Record>, owner: Name, ips: seq<Quad>, aliases: nat)
    requires AddressesFrom(records, aliases, owner, ips) && forall i :: 0 <= i < aliases ==> records[i].Alias?
    ensures AddressesOf(records, owner) == Values(ips)
    decreases |records|
  {
    if ips != [] {
      var init := ips[..|ips| - 1];
      AddressesOfPath(records[..|records| - 1], owner, init, aliases);
      assert Values(ips) == Values(init) + [ips[|ips| - 1].Value()];
    } else if records != [] {
      AddressesOfPath(records[..|records| - 1], owner, [], aliases - 1);
    } else {
      assert Values(ips) == [];
    }
  }

  lemma PathResolves(records: seq<Record>, names: seq<Name>, ips: seq<Quad>, result: seq<nat>)
    requires PathSaid(records, names, ips)
    ensures Resolves(records, names[0], result)
            <==> |names| <= CHAIN_NAMES && result == SortedDistinct(Values(ips)) && 1 <= |result| <= MAX_ADDRESSES
  {
    AddressesOfPath(records, names[|names| - 1], ips, |names| - 1);
    forall chain ensures Chain(records, names[0], chain) <==> chain == names && |names| <= CHAIN_NAMES {
      ChainIsPath(records, names, ips, chain);
    }
  }

  /**
    * An aliased host: the path's aliases and the last name's addresses are
    * answered with those addresses, up to eight aliases and not beyond.
    */
  lemma AliasedHostAnswers(host: seq<Byte>, id: nat, f: Flags, names: seq<Labels>, ttl: Quad, ips: seq<Quad>,
                           result: seq<nat>)
    requires ValidHost(host) && id < 65536 && ValidFlags(f) && AliasPath(names) && names[0] == HostLabels(host)
    requires |PathRecords(names, ttl, ips)| < 256
    ensures var s := Sections(PathRecords(names, ttl, ips), [], []);
            && AllPrintable(s.All())
            && var packet := PrintedResponse(host, id, f, s);
               Answers(packet, QueryPacket(host, id), result)
               <==> && Acceptable(packet, f, s) && |names| <= CHAIN_NAMES
                    && result == SortedDistinct(Values(ips)) && 1 <= |result| <= MAX_ADDRESSES
  {
    var rs := PathRecords(names, ttl, ips);
    var s := Sections(rs, [], []);
    assert s.All() == rs;
    PathPrints(names, ttl, ips);
    PathSays(names, ttl, ips);
    PrintedAnswer(host, id, f, s, result);
    PathResolves(Said(rs, |rs|), WireNames(names), ips, result);
  }
}
