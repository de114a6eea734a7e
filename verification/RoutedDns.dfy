/**
  * The route-owned resolver's codec: the query printer, the response reader and
  * the alias resolver (sections 3.3.1, 3.4.1 and 4.1.1 to 4.1.4 of RFC 1035).
  */
module RoutedDns {
  import opened Selection
  import opened DnsName

  const MAX_PACKET: nat := 4096
  const MAX_RECORDS: nat := 64
  const MAX_ADDRESSES: nat := 32
  const CHAIN_NAMES: nat := 9
  const DOT: Byte := 46
  const HYPHEN: Byte := 45

  // -------------------------------------------------------------------------
  // Queries.

  function Split(host: seq<Byte>): (r: seq<seq<Byte>>)
    ensures r != []
  {
    if host == [] then [[]]
    else
      var rest := Split(host[1..]);
      if host[0] == DOT then [[]] + rest else [[host[0]] + rest[0]] + rest[1..]
  }

  function WithoutRootDot(host: seq<Byte>): seq<Byte> {
    if host != [] && host[|host| - 1] == DOT then host[..|host| - 1] else host
  }

  predicate LabelByte(b: Byte) {
    48 <= b <= 57 || 65 <= b <= 90 || 97 <= b <= 122 || b == HYPHEN || b == 95
  }

  predicate HostLabel(text: seq<Byte>) {
    && 1 <= |text| <= 63 && text[0] != HYPHEN && text[|text| - 1] != HYPHEN
    && forall b :: b in text ==> LabelByte(b)
  }

  predicate ValidHost(host: seq<Byte>) {
    var name := WithoutRootDot(host);
    && 1 <= |name| <= 253
    && forall i :: 0 <= i < |Split(name)| ==> HostLabel(Split(name)[i])
  }

  function LoweredParts(parts: seq<seq<Byte>>): seq<seq<Byte>> {
    seq(|parts|, i requires 0 <= i < |parts| => Lowered(parts[i]))
  }

  function HostLabels(host: seq<Byte>): seq<seq<Byte>> { LoweredParts(Split(WithoutRootDot(host))) }

  function LabelBytes(labels: seq<seq<Byte>>): seq<Byte>
    requires WireLabels(labels)
  {
    if labels == [] then []
    else LabelBytes(labels[..|labels| - 1]) + LengthAnd(labels[|labels| - 1])
  }

  lemma {:induction false} LabelBytesFront(labels: seq<seq<Byte>>)
    requires WireLabels(labels) && labels != []
    ensures LabelBytes(labels) == LengthAnd(labels[0]) + LabelBytes(labels[1..])
  {
    var init, last := labels[..|labels| - 1], labels[|labels| - 1];
    if init != [] {
      LabelBytesFront(init);
      assert labels[1..][..|labels[1..]| - 1] == init[1..];
      assert labels[1..][|labels[1..]| - 1] == last;
      calc {
        LabelBytes(labels);
        LabelBytes(init) + LengthAnd(last);
        LengthAnd(labels[0]) + LabelBytes(init[1..]) + LengthAnd(last);
        LengthAnd(labels[0]) + (LabelBytes(init[1..]) + LengthAnd(last));
      }
    } else {
      assert LabelBytes(init) == [] && LabelBytes(labels[1..]) == [];
    }
  }

  lemma {:induction false} WireNameIsLabelsAndRoot(labels: seq<seq<Byte>>)
    requires WireLabels(labels)
    ensures WireName(labels) == LabelBytes(labels) + [0]
  {
    if labels != [] {
      LabelBytesFront(labels);
      WireNameIsLabelsAndRoot(labels[1..]);
    }
  }

  lemma LoweredIsWireLabel(text: seq<Byte>)
    requires 1 <= |text| <= 63
    ensures WireLabel(Lowered(text))
  {}

  lemma HostLabelsAreWire(host: seq<Byte>)
    requires ValidHost(host)
    ensures WireLabels(HostLabels(host))
  {
    var parts := Split(WithoutRootDot(host));
    forall i | 0 <= i < |parts| ensures WireLabel(HostLabels(host)[i]) {
      assert HostLabel(parts[i]);
      LoweredIsWireLabel(parts[i]);
    }
  }

  function IdBytes(id: nat): seq<Byte>
    requires id < 65536
  {
    [id / 256, id % 256]
  }

  function QueryPacket(host: seq<Byte>, id: nat): Packet
    requires ValidHost(host) && id < 65536
  {
    HostLabelsAreWire(host);
    IdBytes(id) + [1, 0, 0, 1, 0, 0, 0, 0, 0, 0] + WireName(HostLabels(host)) + [0, 1, 0, 1]
  }

  /** The printer: the header, then one length and label after another. */
  method Query(host: seq<Byte>, id: nat) returns (r: Option<Packet>)
    requires id < 65536
    ensures r == if ValidHost(host) then Some(QueryPacket(host, id)) else None
  {
    var name := WithoutRootDot(host);
    if name == [] || |name| > 253 {
      return None;
    }
    var parts := Split(name);
    var labels := PrintLabels(parts);
    if labels.None? {
      return None;
    }
    ghost var wire := HostLabels(host);
    HostLabelsAreWire(host);
    WireNameIsLabelsAndRoot(wire);
    var header: Packet := IdBytes(id) + [1, 0, 0, 1, 0, 0, 0, 0, 0, 0];
    var packet := header + labels.value + [0, 0, 1, 0, 1];
    assert packet == header + (LabelBytes(wire) + [0]) + [0, 1, 0, 1];
    r := Some(packet);
  }

  /** Each label checked, then its length and its lower-case bytes appended. */
  method PrintLabels(parts: seq<seq<Byte>>) returns (r: Option<seq<Byte>>)
    ensures r.Some? <==> forall i :: 0 <= i < |parts| ==> HostLabel(parts[i])
    ensures r.Some? ==> WireLabels(LoweredParts(parts)) && r.value == LabelBytes(LoweredParts(parts))
  {
    var bytes: seq<Byte> := [];
    var i := 0;
    while i < |parts|
      invariant 0 <= i <= |parts|
      invariant forall j :: 0 <= j < i ==> HostLabel(parts[j])
      invariant WireLabels(LoweredParts(parts[..i])) && bytes == LabelBytes(LoweredParts(parts[..i]))
    {
      var text := parts[i];
      if !HostLabel(text) {
        return None;
      }
      LoweredIsWireLabel(text);
      assert LoweredParts(parts[..i + 1]) == LoweredParts(parts[..i]) + [Lowered(text)];
      LabelBytesAppend(LoweredParts(parts[..i]), Lowered(text));
      bytes := bytes + [|text|];
      bytes := bytes + Lowered(text);
      i := i + 1;
    }
    assert parts[..i] == parts;
    r := Some(bytes);
  }

  lemma LabelBytesAppend(labels: seq<seq<Byte>>, text: seq<Byte>)
    requires WireLabels(labels) && WireLabel(text)
    ensures WireLabels(labels + [text]) && LabelBytes(labels + [text]) == LabelBytes(labels) + [|text|] + text
  {
    var longer := labels + [text];
    assert longer[..|longer| - 1] == labels;
    assert LabelBytes(labels) + LengthAnd(text) == LabelBytes(labels) + [|text|] + text;
  }

  /** The labels and their separators are the whole host: the printed name is two bytes longer. */
  function Total(parts: seq<seq<Byte>>): nat {
    if parts == [] then 0 else |parts[0]| + 1 + Total(parts[1..])
  }

  lemma {:induction false} SplitLength(host: seq<Byte>)
    ensures Total(Split(host)) == |host| + 1
  {
    if host != [] {
      SplitLength(host[1..]);
      var rest := Split(host[1..]);
      if host[0] == DOT {
        assert Split(host)[1..] == rest;
      } else {
        assert Split(host)[1..] == rest[1..];
      }
    }
  }

  lemma {:induction false} PrintedLength(parts: seq<seq<Byte>>, labels: seq<seq<Byte>>)
    requires WireLabels(labels) && |labels| == |parts|
    requires forall i :: 0 <= i < |parts| ==> |labels[i]| == |parts[i]|
    ensures |WireName(labels)| == Total(parts) + 1
    ensures 2 * |labels| <= Total(parts)
    decreases |parts|
  {
    if parts != [] {
      assert WireLabel(labels[0]);
      PrintedLength(parts[1..], labels[1..]);
    }
  }

  /** A printable host is a name of at most 255 bytes and 127 labels. */
  lemma HostFits(host: seq<Byte>)
    requires ValidHost(host)
    ensures WireLabels(HostLabels(host))
    ensures |WireName(HostLabels(host))| == |WithoutRootDot(host)| + 2 <= NAME_BYTES
    ensures 1 <= |HostLabels(host)| <= 127
  {
    HostLabelsAreWire(host);
    var parts := Split(WithoutRootDot(host));
    SplitLength(WithoutRootDot(host));
    PrintedLength(parts, HostLabels(host));
  }

  lemma SliceHolds(before: Packet, bytes: seq<Byte>, after: seq<Byte>)
    ensures Holds(before + bytes + after, |before|, bytes)
  {}

  /** Every printed query name reads back as itself, and the reader stops right behind it. */
  lemma QueryNameRoundTrip(host: seq<Byte>, id: nat)
    requires ValidHost(host) && id < 65536
    ensures var packet := QueryPacket(host, id);
            && WireLabels(HostLabels(host)) && |packet| >= 17
            && packet[12..|packet| - 4] == WireName(HostLabels(host))
            && NameAt(packet, 12) == Some((WireName(HostLabels(host)), |packet| - 4))
  {
    HostFits(host);
    var name := WireName(HostLabels(host));
    var header: Packet := IdBytes(id) + [1, 0, 0, 1, 0, 0, 0, 0, 0, 0];
    SliceHolds(header, name, [0, 1, 0, 1]);
    assert QueryPacket(host, id) == header + name + [0, 1, 0, 1];
    PrintedNameAt(QueryPacket(host, id), 12, HostLabels(host));
  }
}
