/**
  * Domain names on the wire (sections 3.1, 2.3.4 and 4.1.4 of RFC 1035): the
  * bounded, backward-only reader of compressed names against the recursive
  * expansion, and the printer it undoes.
  */
module DnsName {
  import opened Selection

  type Packet = seq<Byte>

  const NAME_STEPS: nat := 128
  const NAME_BYTES: nat := 255

  function Lower(b: Byte): Byte { if 65 <= b <= 90 then b + 32 else b }
  function Lowered(s: seq<Byte>): seq<Byte> { seq(|s|, i requires 0 <= i < |s| => Lower(s[i])) }

  /** What the byte at an offset starts. */
  datatype Part = Root | Label(text: seq<Byte>, next: nat) | Pointer(target: nat) | Malformed

  function PartAt(packet: Packet, at: nat): Part {
    if at >= |packet| then Malformed
    else
      var size: nat := packet[at];
      if size >= 192 then
        if at + 1 >= |packet| then Malformed
        else
          var target := (size - 192) * 256 + packet[at + 1];
          if target < 12 || target >= at then Malformed else Pointer(target)
      else if size > 63 || at + 1 + size > |packet| then Malformed
      else if size == 0 then Root
      else Label(Lowered(packet[at + 1..at + 1 + size]), at + 1 + size)
  }

  /** The parts of a packet by offset: all that reading a name depends on. */
  type Parts = nat -> Part

  function PartsOf(packet: Packet): Parts { (at: nat) => PartAt(packet, at) }

  /** A name's expansion in at most `steps` parts: each label with its length in front, then the root. */
  function Expansion(parts: Parts, at: nat, steps: nat): Option<seq<Byte>>
    decreases steps, at
  {
    if steps == 0 then None
    else
      match parts(at)
      case Malformed => None
      case Root => Some([0])
      case Pointer(target) => Expansion(parts, target, steps - 1)
      case Label(text, next) => Prefixed(LengthAnd(text), Expansion(parts, next, steps - 1))
  }

  /** A label's bytes behind its length; only labels of at most 63 bytes are ever read. */
  function LengthAnd(text: seq<Byte>): seq<Byte> { [if |text| < 256 then |text| else 0] + text }

  function Prefixed(prefix: seq<Byte>, rest: Option<seq<Byte>>): Option<seq<Byte>> {
    match rest case None => None case Some(text) => Some(prefix + text)
  }

  /** Where the name's own bytes end: after the root or the first pointer. */
  function NameEnd(parts: Parts, at: nat, steps: nat): nat
    decreases steps, at
  {
    if steps == 0 then at
    else
      match parts(at)
      case Malformed => at
      case Root => at + 1
      case Pointer(_) => at + 2
      case Label(_, next) => NameEnd(parts, next, steps - 1)
  }

  /** The whole contract of reading one name: its text and the cursor behind it. */
  function NameFrom(parts: Parts, cursor: nat): Option<(seq<Byte>, nat)> {
    match Expansion(parts, cursor, NAME_STEPS)
    case None => None
    case Some(text) => if |text| <= NAME_BYTES then Some((text, NameEnd(parts, cursor, NAME_STEPS))) else None
  }

  function NameAt(packet: Packet, cursor: nat): Option<(seq<Byte>, nat)> { NameFrom(PartsOf(packet), cursor) }

  lemma PrefixedTwice(a: seq<Byte>, b: seq<Byte>, rest: Option<seq<Byte>>)
    ensures Prefixed(a, Prefixed(b, rest)) == Prefixed(a + b, rest)
  {
    if rest.Some? {
      assert a + (b + rest.value) == a + b + rest.value;
    }
  }

  lemma PrefixedNothing(rest: Option<seq<Byte>>)
    ensures Prefixed([], rest) == rest
  {
    if rest.Some? {
      assert [] + rest.value == rest.value;
    }
  }

  /** The reader: one cursor, one growing result, and an early stop once the name is too long. */
  method ReadParts(parts: Parts, start: nat) returns (r: Option<(seq<Byte>, nat)>)
    ensures r == NameFrom(parts, start)
  {
    var at: nat, cursor: nat, jumped := start, start, false;
    var result: seq<Byte> := [];
    PrefixedNothing(Expansion(parts, start, NAME_STEPS));
    for step := 0 to NAME_STEPS
      invariant |result| <= NAME_BYTES
      invariant Expansion(parts, start, NAME_STEPS) == Prefixed(result, Expansion(parts, at, NAME_STEPS - step))
      invariant jumped ==> cursor == NameEnd(parts, start, NAME_STEPS)
      invariant !jumped ==> cursor == at && NameEnd(parts, start, NAME_STEPS) == NameEnd(parts, at, NAME_STEPS - step)
    {
      match parts(at)
      case Malformed =>
        return None;
      case Pointer(target) =>
        if !jumped {
          cursor := at + 2;
        }
        jumped := true;
        at := target;
      case Root =>
        if |result| + 1 > NAME_BYTES {
          return None;
        }
        result := result + [0];
        if !jumped {
          cursor := at + 1;
        }
        return Some((result, cursor));
      case Label(text, next) =>
        if |result| + |text| + 1 > NAME_BYTES {
          return None;
        }
        PrefixedTwice(result, LengthAnd(text), Expansion(parts, next, NAME_STEPS - step - 1));
        result := result + LengthAnd(text);
        at := next;
        if !jumped {
          cursor := at;
        }
    }
    r := None;
  }

  method ReadName(packet: Packet, start: nat) returns (r: Option<(seq<Byte>, nat)>)
    ensures r == NameAt(packet, start)
  {
    r := ReadParts(PartsOf(packet), start);
  }

  // -------------------------------------------------------------------------
  // A successful walk is finite on its own account: it never repeats an offset.

  function Visited(parts: Parts, at: nat, steps: nat): seq<nat>
    decreases steps
  {
    if steps == 0 then []
    else
      match parts(at)
      case Malformed => [at]
      case Root => [at]
      case Pointer(target) => [at] + Visited(parts, target, steps - 1)
      case Label(_, next) => [at] + Visited(parts, next, steps - 1)
  }

  /** How a walk ends depends only on where it is. */
  lemma {:induction false} WalkLength(parts: Parts, at: nat, steps: nat, more: nat)
    requires Expansion(parts, at, steps).Some? && Expansion(parts, at, more).Some?
    ensures |Visited(parts, at, steps)| == |Visited(parts, at, more)|
    ensures Expansion(parts, at, steps) == Expansion(parts, at, more)
    decreases steps
  {
    match parts(at)
    case Root =>
    case Pointer(target) => WalkLength(parts, target, steps - 1, more - 1);
    case Label(_, next) => WalkLength(parts, next, steps - 1, more - 1);
  }

  lemma {:induction false} WalkTail(parts: Parts, at: nat, steps: nat, i: nat)
    requires Expansion(parts, at, steps).Some? && i < |Visited(parts, at, steps)|
    ensures i < steps && Expansion(parts, Visited(parts, at, steps)[i], steps - i).Some?
    ensures |Visited(parts, Visited(parts, at, steps)[i], steps - i)| == |Visited(parts, at, steps)| - i
    decreases steps
  {
    if i > 0 {
      match parts(at)
      case Root =>
      case Pointer(target) => WalkTail(parts, target, steps - 1, i - 1);
      case Label(_, next) => WalkTail(parts, next, steps - 1, i - 1);
    }
  }

  lemma NoOffsetTwice(parts: Parts, at: nat, steps: nat, i: nat, j: nat)
    requires Expansion(parts, at, steps).Some?
    requires i < j < |Visited(parts, at, steps)|
    ensures Visited(parts, at, steps)[i] != Visited(parts, at, steps)[j]
  {
    WalkTail(parts, at, steps, i);
    WalkTail(parts, at, steps, j);
    if Visited(parts, at, steps)[i] == Visited(parts, at, steps)[j] {
      WalkLength(parts, Visited(parts, at, steps)[i], steps - i, steps - j);
    }
  }

  /** The labels of a packet's parts are lower case and 1 to 63 bytes long, and pointers go backwards. */
  lemma PartsAreWellFormed(packet: Packet, at: nat)
    ensures PartsOf(packet)(at).Label? ==> WireLabel(PartsOf(packet)(at).text)
    ensures PartsOf(packet)(at).Pointer? ==> 12 <= PartsOf(packet)(at).target < at
  {}

  /** A name that can be read is a sequence of such labels and one root. */
  lemma {:induction false} ExpansionIsWireName(packet: Packet, at: nat, steps: nat) returns (labels: seq<seq<Byte>>)
    requires Expansion(PartsOf(packet), at, steps).Some?
    ensures WireLabels(labels) && WireName(labels) == Expansion(PartsOf(packet), at, steps).value
    ensures |labels| < steps
    decreases steps
  {
    PartsAreWellFormed(packet, at);
    match PartsOf(packet)(at)
    case Root => labels := [];
    case Pointer(target) => labels := ExpansionIsWireName(packet, target, steps - 1);
    case Label(text, next) =>
      var rest := ExpansionIsWireName(packet, next, steps - 1);
      labels := [text] + rest;
  }

  // -------------------------------------------------------------------------
  // Printing.

  predicate WireLabel(text: seq<Byte>) { 1 <= |text| <= 63 && forall b :: b in text ==> Lower(b) == b }

  predicate WireLabels(labels: seq<seq<Byte>>) { forall i :: 0 <= i < |labels| ==> WireLabel(labels[i]) }

  function WireName(labels: seq<seq<Byte>>): seq<Byte>
    requires WireLabels(labels)
  {
    if labels == [] then [0] else LengthAnd(labels[0]) + WireName(labels[1..])
  }

  predicate Holds(packet: Packet, at: nat, bytes: seq<Byte>) {
    at + |bytes| <= |packet| && packet[at..at + |bytes|] == bytes
  }

  lemma HoldsParts(packet: Packet, at: nat, first: seq<Byte>, rest: seq<Byte>)
    requires Holds(packet, at, first + rest)
    ensures Holds(packet, at, first) && Holds(packet, at + |first|, rest)
  {
    var whole := packet[at..at + |first + rest|];
    assert whole[..|first|] == first && whole[|first|..] == rest;
    assert packet[at..at + |first|] == whole[..|first|];
    assert packet[at + |first|..at + |first| + |rest|] == whole[|first|..];
  }

  lemma LabelPart(packet: Packet, at: nat, text: seq<Byte>)
    requires WireLabel(text) && Holds(packet, at, LengthAnd(text))
    ensures PartsOf(packet)(at) == Label(text, at + 1 + |text|)
  {
    HoldsParts(packet, at, [|text|], text);
    assert packet[at] == packet[at..at + 1][0] == |text|;
    assert Lowered(text) == text by {
      assert forall i :: 0 <= i < |text| ==> text[i] in text;
    }
  }

  /** The parts from an offset on are these labels and the root. */
  predicate Spells(parts: Parts, at: nat, labels: seq<seq<Byte>>)
    decreases |labels|
  {
    if labels == [] then parts(at) == Root
    else parts(at) == Label(labels[0], at + 1 + |labels[0]|) && Spells(parts, at + 1 + |labels[0]|, labels[1..])
  }

  lemma {:induction false} PrintedSpells(packet: Packet, at: nat, labels: seq<seq<Byte>>)
    requires WireLabels(labels) && Holds(packet, at, WireName(labels))
    ensures Spells(PartsOf(packet), at, labels)
    decreases |labels|
  {
    if labels == [] {
      assert packet[at] == packet[at..at + 1][0] == 0;
    } else {
      HoldsParts(packet, at, LengthAnd(labels[0]), WireName(labels[1..]));
      LabelPart(packet, at, labels[0]);
      PrintedSpells(packet, at + 1 + |labels[0]|, labels[1..]);
    }
  }

  /** Reading spelled labels gives them back, in one step per label and one for the root. */
  lemma {:induction false} SpelledNameReads(parts: Parts, at: nat, labels: seq<seq<Byte>>, steps: nat)
    requires WireLabels(labels) && Spells(parts, at, labels)
    ensures Expansion(parts, at, steps) == if |labels| < steps then Some(WireName(labels)) else None
    ensures |labels| < steps ==> NameEnd(parts, at, steps) == at + |WireName(labels)|
    decreases |labels|
  {
    if labels != [] && steps > 0 {
      SpelledNameReads(parts, at + 1 + |labels[0]|, labels[1..], steps - 1);
    }
  }

  /** A printed name of up to 127 labels and 255 bytes is read whole. */
  lemma PrintedNameAt(packet: Packet, at: nat, labels: seq<seq<Byte>>)
    requires WireLabels(labels) && Holds(packet, at, WireName(labels))
    requires |labels| < NAME_STEPS && |WireName(labels)| <= NAME_BYTES
    ensures NameAt(packet, at).Some? && NameAt(packet, at).value.0 == WireName(labels)
    ensures NameAt(packet, at).value.1 == at + |WireName(labels)|
  {
    PrintedSpells(packet, at, labels);
    SpelledNameFrom(PartsOf(packet), at, labels);
  }

  lemma SpelledNameFrom(parts: Parts, at: nat, labels: seq<seq<Byte>>)
    requires WireLabels(labels) && Spells(parts, at, labels)
    requires |labels| < NAME_STEPS && |WireName(labels)| <= NAME_BYTES
    ensures NameFrom(parts, at) == Some((WireName(labels), at + |WireName(labels)|))
  {
    SpelledNameReads(parts, at, labels, NAME_STEPS);
  }

  /** Behind a pointer one label less fits. */
  lemma PointedNameFrom(parts: Parts, at: nat, target: nat, labels: seq<seq<Byte>>)
    requires parts(at) == Pointer(target) && WireLabels(labels) && Spells(parts, target, labels)
    requires |WireName(labels)| <= NAME_BYTES
    ensures NameFrom(parts, at) == if |labels| < NAME_STEPS - 1 then Some((WireName(labels), at + 2)) else None
  {
    SpelledNameReads(parts, target, labels, NAME_STEPS - 1);
  }
}
