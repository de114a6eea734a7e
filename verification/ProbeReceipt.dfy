/**
  * The text of a lease receipt and the reserved group pool: which text names a
  * generation, why a torn write never does, and when an account database
  * reserves all slots.
  */
module ProbeReceipt {
  import opened Selection

  const HEADER := "cake-probe-owner-v1\n"

  function Decimal(n: nat): string {
    if n < 10 then [DIGITS[n]] else Decimal(n / 10) + [DIGITS[n % 10]]
  }

  const DIGITS := "0123456789"

  predicate IsDigit(c: char) { '0' <= c <= '9' }

  predicate ValidGeneration(generation: string) {
    |generation| == 64 && forall c :: c in generation ==> IsDigit(c) || 'a' <= c <= 'f'
  }

  function Receipt(gid: nat, generation: string): string { HEADER + Decimal(gid) + "\n" + generation + "\n" }

  function StripPrefix(s: string, prefix: string): Option<string> {
    if prefix <= s then Some(s[|prefix|..]) else None
  }

  function StripSuffix(s: string, suffix: char): Option<string> {
    if s != "" && s[|s| - 1] == suffix then Some(s[..|s| - 1]) else None
  }

  /** Before and after the first separator. */
  function SplitOnce(s: string, separator: char): (r: Option<(string, string)>)
    ensures r.Some? ==> s == r.value.0 + [separator] + r.value.1 && separator !in r.value.0
    ensures r.None? ==> separator !in s
  {
    if s == "" then None
    else if s[0] == separator then Some(("", s[1..]))
    else
      match SplitOnce(s[1..], separator)
      case None => None
      case Some(parts) => Some(([s[0]] + parts.0, parts.1))
  }

  /** The generation of an exact receipt for this slot; anything else is unknown ownership. */
  function StaleReceiptGeneration(receipt: string, gid: nat): Option<string> {
    match StripPrefix(receipt, HEADER)
    case None => None
    case Some(rest) =>
      match SplitOnce(rest, '\n')
      case None => None
      case Some(parts) =>
        match StripSuffix(parts.1, '\n')
        case None => None
        case Some(generation) =>
          if parts.0 == Decimal(gid) && ValidGeneration(generation) then Some(generation) else None
  }

  lemma DigitAt(d: nat)
    requires d < 10
    ensures IsDigit(DIGITS[d])
  {}

  lemma DigitsDiffer(d: nat, e: nat)
    requires d < 10 && e < 10 && DIGITS[d] == DIGITS[e]
    ensures d == e
  {}

  lemma {:induction false} DecimalIsDigits(n: nat)
    ensures Decimal(n) != "" && forall c :: c in Decimal(n) ==> IsDigit(c)
  {
    DigitAt(n % 10);
    if n >= 10 {
      DecimalIsDigits(n / 10);
    }
  }

  lemma {:induction false} DecimalInjective(m: nat, n: nat)
    requires Decimal(m) == Decimal(n)
    ensures m == n
  {
    var s := Decimal(m);
    DecimalIsDigits(m / 10);
    DecimalIsDigits(n / 10);
    if m < 10 && n < 10 {
      assert s[0] == DIGITS[m] == DIGITS[n];
      DigitsDiffer(m, n);
    } else if m >= 10 && n >= 10 {
      assert s[|s| - 1] == DIGITS[m % 10] == DIGITS[n % 10];
      DigitsDiffer(m % 10, n % 10);
      assert s[..|s| - 1] == Decimal(m / 10) == Decimal(n / 10);
      DecimalInjective(m / 10, n / 10);
    }
  }

  /** Splitting at the first separator undoes joining with it. */
  lemma {:induction false} SplitJoined(a: string, b: string, separator: char)
    requires separator !in a
    ensures SplitOnce(a + [separator] + b, separator) == Some((a, b))
  {
    var s := a + [separator] + b;
    if a != "" {
      assert s[1..] == a[1..] + [separator] + b;
      SplitJoined(a[1..], b, separator);
      assert [a[0]] + a[1..] == a;
    } else {
      assert s[1..] == b;
    }
  }

  /** Exactly the published text of a slot is a receipt for it. */
  lemma ReceiptIsExact(receipt: string, gid: nat, generation: string)
    ensures StaleReceiptGeneration(receipt, gid) == Some(generation)
            <==> receipt == Receipt(gid, generation) && ValidGeneration(generation)
  {
    DecimalIsDigits(gid);
    if receipt == Receipt(gid, generation) {
      var rest := Decimal(gid) + "\n" + (generation + "\n");
      assert receipt == HEADER + rest;
      assert receipt[|HEADER|..] == rest;
      SplitJoined(Decimal(gid), generation + "\n", '\n');
      assert (generation + "\n")[..|generation|] == generation;
    }
    if StaleReceiptGeneration(receipt, gid) == Some(generation) {
      var rest := receipt[|HEADER|..];
      var parts := SplitOnce(rest, '\n').value;
      assert parts.1 == generation + "\n";
      assert receipt == HEADER + rest;
      assert rest == Decimal(gid) + "\n" + (generation + "\n");
    }
  }

  /** A receipt names its slot: no text is a receipt for two of them. */
  lemma OneSlotPerReceipt(receipt: string, gid: nat, other: nat)
    requires StaleReceiptGeneration(receipt, gid).Some? && StaleReceiptGeneration(receipt, other).Some?
    ensures gid == other
  {
    DecimalInjective(gid, other);
  }

  /** No receipt continues another: the text is self-delimiting. */
  lemma ReceiptEndsItself(gid: nat, generation: string, other: nat, g: string, tail: string)
    requires ValidGeneration(generation) && ValidGeneration(g)
    requires Receipt(gid, generation) == Receipt(other, g) + tail
    ensures tail == ""
  {
    DecimalIsDigits(gid);
    DecimalIsDigits(other);
    var rest := Receipt(gid, generation)[|HEADER|..];
    assert rest == Decimal(gid) + "\n" + (generation + "\n");
    assert rest == Decimal(other) + "\n" + (g + "\n" + tail);
    SplitJoined(Decimal(gid), generation + "\n", '\n');
    SplitJoined(Decimal(other), g + "\n" + tail, '\n');
    assert |generation + "\n"| == |g + "\n" + tail|;
  }

  /** A write torn after any strict prefix leaves unknown ownership for every slot. */
  lemma TornReceiptIsUnknown(gid: nat, generation: string, k: nat, other: nat)
    requires ValidGeneration(generation) && k < |Receipt(gid, generation)|
    ensures StaleReceiptGeneration(Receipt(gid, generation)[..k], other).None?
  {
    var full := Receipt(gid, generation);
    var parsed := StaleReceiptGeneration(full[..k], other);
    assert full == full[..k] + full[k..];
    if parsed.Some? {
      ReceiptIsExact(full[..k], other, parsed.value);
      ReceiptEndsItself(gid, generation, other, parsed.value, full[k..]);
    }
  }

  lemma {:induction false} DecimalLength(n: nat, digits: nat)
    requires digits > 0 && n < Pow10(digits)
    ensures |Decimal(n)| <= digits
  {
    if n >= 10 {
      DecimalLength(n / 10, digits - 1);
    }
  }

  function Pow10(n: nat): nat { if n == 0 then 1 else 10 * Pow10(n - 1) }

  /** Every receipt of a 32-bit group fits the 128-byte limit applied before it is read. */
  lemma ReceiptFits(gid: nat, generation: string)
    requires gid < 0x1_0000_0000 && ValidGeneration(generation)
    ensures |Receipt(gid, generation)| <= 128
  {
    assert Pow10(10) == 10_000_000_000 by {
      assert Pow10(2) == 100 && Pow10(4) == 10_000 && Pow10(6) == 1_000_000 && Pow10(8) == 100_000_000;
    }
    DecimalLength(gid, 10);
  }

  // -------------------------------------------------------------------------
  // The reserved pool.

  const PROBE_GROUP_SLOTS: nat := 64
  const U32_MAX: nat := 0xffff_ffff
  const RESERVED := "cake-probe-"

  datatype GroupLine = GroupLine(name: string, gid: nat, members: string)
  datatype UserLine = UserLine(name: string, gid: nat)

  predicate IsReserved(line: GroupLine) { RESERVED <= line.name }

  predicate TwoDigits(suffix: string) { |suffix| == 2 && IsDigit(suffix[0]) && IsDigit(suffix[1]) }

  /** The slot a reserved name spells, when it spells one. */
  function SlotOf(line: GroupLine): Option<nat>
    requires IsReserved(line)
  {
    var suffix := line.name[|RESERVED|..];
    if TwoDigits(suffix) then Some(10 * (suffix[0] as nat - '0' as nat) + (suffix[1] as nat - '0' as nat)) else None
  }

  predicate Distinct(s: seq<nat>) { forall i, j :: 0 <= i < j < |s| ==> s[i] != s[j] }

  predicate LineReserves(line: GroupLine, gids: seq<nat>) {
    IsReserved(line) ==>
      && SlotOf(line).Some? && SlotOf(line).value < |gids|
      && line.members == "" && 0 < line.gid < U32_MAX
      && line.gid == gids[SlotOf(line).value]
  }

  predicate SameSlot(a: GroupLine, b: GroupLine) { IsReserved(a) && IsReserved(b) && SlotOf(a) == SlotOf(b) }

  predicate Fills(line: GroupLine, slot: nat) { IsReserved(line) && SlotOf(line) == Some(slot) }

  predicate Filled(groups: seq<GroupLine>, slot: nat) { exists i :: 0 <= i < |groups| && Fills(groups[i], slot) }

  /**
    * The database reserves exactly these groups: every reserved line names its own
    * slot and has no members, the groups differ, and nobody else uses one.
    */
  ghost predicate Pool(groups: seq<GroupLine>, users: seq<UserLine>, gids: seq<nat>) {
    && |gids| == PROBE_GROUP_SLOTS && Distinct(gids)
    && (forall i :: 0 <= i < |groups| ==> LineReserves(groups[i], gids))
    && (forall i, j :: 0 <= i < j < |groups| ==> !SameSlot(groups[i], groups[j]))
    && (forall slot :: 0 <= slot < PROBE_GROUP_SLOTS ==> Filled(groups, slot))
    && (forall i :: 0 <= i < |groups| && !IsReserved(groups[i]) ==> groups[i].gid !in gids)
    && (forall i :: 0 <= i < |users| ==> users[i].gid !in gids)
  }

  /** The array after a prefix of the group lines: zero marks a slot no line has named yet. */
  ghost predicate Gathered(groups: seq<GroupLine>, gids: seq<nat>) {
    && |gids| == PROBE_GROUP_SLOTS
    && (forall i, j :: 0 <= i < j < |gids| && gids[i] != 0 ==> gids[i] != gids[j])
    && (forall i :: 0 <= i < |groups| ==> LineReserves(groups[i], gids))
    && (forall i, j :: 0 <= i < j < |groups| ==> !SameSlot(groups[i], groups[j]))
    && (forall slot :: 0 <= slot < PROBE_GROUP_SLOTS ==> (gids[slot] != 0 <==> Filled(groups, slot)))
  }

  lemma LineGathered(before: seq<GroupLine>, line: GroupLine, gids: seq<nat>)
    requires Gathered(before, gids) && IsReserved(line)
    requires SlotOf(line).Some? && SlotOf(line).value < PROBE_GROUP_SLOTS && gids[SlotOf(line).value] == 0
    requires line.members == "" && 0 < line.gid < U32_MAX && line.gid !in gids
    ensures Gathered(before + [line], gids[SlotOf(line).value := line.gid])
  {
    var slot := SlotOf(line).value;
    var gids' := gids[slot := line.gid];
    var after := before + [line];
    assert !Filled(before, slot);
    assert forall i :: 0 <= i < |before| ==> !Fills(before[i], slot);
    forall s | 0 <= s < PROBE_GROUP_SLOTS ensures gids'[s] != 0 <==> Filled(after, s) {
      if s == slot {
        assert Fills(after[|before|], s);
      } else if Filled(before, s) {
        var i :| 0 <= i < |before| && Fills(before[i], s);
        assert Fills(after[i], s);
      }
    }
  }

  lemma OtherLineGathered(before: seq<GroupLine>, line: GroupLine, gids: seq<nat>)
    requires Gathered(before, gids) && !IsReserved(line)
    ensures Gathered(before + [line], gids)
  {
    var after := before + [line];
    forall s | 0 <= s < PROBE_GROUP_SLOTS ensures gids[s] != 0 <==> Filled(after, s) {
      if Filled(before, s) {
        var i :| 0 <= i < |before| && Fills(before[i], s);
        assert Fills(after[i], s);
      }
    }
  }

  /** In a database that reserves a pool, the gathering loop refuses no line. */
  lemma PoolLineAdmitted(groups: seq<GroupLine>, users: seq<UserLine>, i: nat, gids: seq<nat>, pool: seq<nat>)
    requires i < |groups| && Gathered(groups[..i], gids) && IsReserved(groups[i])
    requires Pool(groups, users, pool)
    ensures SlotOf(groups[i]).Some? && SlotOf(groups[i]).value < PROBE_GROUP_SLOTS
    ensures gids[SlotOf(groups[i]).value] == 0 && groups[i].gid !in gids
    ensures groups[i].members == "" && 0 < groups[i].gid < U32_MAX
  {
    assert LineReserves(groups[i], pool);
    var slot := SlotOf(groups[i]).value;
    forall j | 0 <= j < i ensures !Fills(groups[..i][j], slot) {
      assert !SameSlot(groups[j], groups[i]);
    }
    assert !Filled(groups[..i], slot);
    forall s | 0 <= s < |gids| && gids[s] != 0 ensures gids[s] != groups[i].gid {
      assert Filled(groups[..i], s);
      var j :| 0 <= j < i && Fills(groups[..i][j], s);
      assert LineReserves(groups[j], pool) && LineReserves(groups[..i][j], gids);
    }
  }

  /** First pass: fill the array of groups, refusing malformed, repeated and populated reservations. */
  method GatherReservations(groups: seq<GroupLine>, users: seq<UserLine>) returns (r: Option<seq<nat>>)
    ensures r.None? ==> forall pool :: !Pool(groups, users, pool)
    ensures r.Some? ==> Gathered(groups, r.value)
  {
    var gids := new nat[PROBE_GROUP_SLOTS](_ => 0);
    var i := 0;
    while i < |groups|
      invariant 0 <= i <= |groups|
      invariant Gathered(groups[..i], gids[..])
    {
      var line := groups[i];
      assert groups[..i + 1] == groups[..i] + [line];
      if IsReserved(line) {
        var slot := SlotOf(line);
        if slot.None? || slot.value >= PROBE_GROUP_SLOTS || gids[slot.value] != 0 || line.members != ""
           || line.gid == 0 || line.gid >= U32_MAX || line.gid in gids[..] {
          forall pool ensures !Pool(groups, users, pool) {
            if Pool(groups, users, pool) {
              PoolLineAdmitted(groups, users, i, gids[..], pool);
            }
          }
          return None;
        }
        LineGathered(groups[..i], line, gids[..]);
        gids[slot.value] := line.gid;
      } else {
        OtherLineGathered(groups[..i], line, gids[..]);
      }
      i := i + 1;
    }
    assert groups[..i] == groups;
    r := Some(gids[..]);
  }

  lemma GatheredIsPool(groups: seq<GroupLine>, users: seq<UserLine>, gids: seq<nat>, pool: seq<nat>)
    requires Gathered(groups, gids) && Pool(groups, users, pool)
    ensures gids == pool
  {
    forall slot | 0 <= slot < PROBE_GROUP_SLOTS ensures gids[slot] == pool[slot] {
      assert Filled(groups, slot);
      var i :| 0 <= i < |groups| && Fills(groups[i], slot);
      assert LineReserves(groups[i], gids) && LineReserves(groups[i], pool);
    }
  }

  /** Validate the whole pool of parsed lines. */
  method FromLines(groups: seq<GroupLine>, users: seq<UserLine>) returns (r: Option<seq<nat>>)
    ensures forall pool :: r == Some(pool) <==> Pool(groups, users, pool)
  {
    r := GatherReservations(groups, users);
    if r.None? {
      return;
    }
    var gids := r.value;
    forall pool | Pool(groups, users, pool) ensures pool == gids { GatheredIsPool(groups, users, gids, pool); }
    if 0 in gids {
      var slot :| 0 <= slot < |gids| && gids[slot] == 0;
      assert !Filled(groups, slot);
      return None;
    }
    for i := 0 to |groups|
      invariant forall j :: 0 <= j < i && !IsReserved(groups[j]) ==> groups[j].gid !in gids
    {
      if groups[i].gid in gids && !IsReserved(groups[i]) {
        return None;
      }
    }
    for i := 0 to |users|
      invariant forall j :: 0 <= j < i ==> users[j].gid !in gids
    {
      if users[i].gid in gids {
        return None;
      }
    }
  }

  const MAX_ACCOUNT_DATABASE_BYTES: nat := 262144

  /** A line that does not have its fields or a numeric group is None. */
  predicate Parsed<T>(lines: seq<Option<T>>) { forall i :: 0 <= i < |lines| ==> lines[i].Some? }

  function Values<T>(lines: seq<Option<T>>): seq<T>
    requires Parsed(lines)
  {
    seq(|lines|, i requires 0 <= i < |lines| => lines[i].value)
  }

  method ParseAll<T>(lines: seq<Option<T>>) returns (r: Option<seq<T>>)
    ensures r.Some? <==> Parsed(lines)
    ensures r.Some? ==> r.value == Values(lines)
  {
    var values: seq<T> := [];
    for i := 0 to |lines|
      invariant |values| == i && forall j :: 0 <= j < i ==> lines[j] == Some(values[j])
    {
      if lines[i].None? {
        return None;
      }
      values := values + [lines[i].value];
    }
    r := Some(values);
  }

  /** Validate both databases, within their size, before any socket owner is assigned. */
  method FromAccountText(groupBytes: nat, userBytes: nat, groups: seq<Option<GroupLine>>, users: seq<Option<UserLine>>)
    returns (r: Option<seq<nat>>)
    ensures forall pool :: r == Some(pool) <==>
              && groupBytes <= MAX_ACCOUNT_DATABASE_BYTES && userBytes <= MAX_ACCOUNT_DATABASE_BYTES
              && Parsed(groups) && Parsed(users) && Pool(Values(groups), Values(users), pool)
  {
    if groupBytes > MAX_ACCOUNT_DATABASE_BYTES || userBytes > MAX_ACCOUNT_DATABASE_BYTES {
      return None;
    }
    var groupLines := ParseAll(groups);
    var userLines := ParseAll(users);
    if groupLines.None? || userLines.None? {
      return None;
    }
    r := FromLines(groupLines.value, userLines.value);
  }
}
