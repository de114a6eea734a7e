/**
  * The stored header of a candidate upload: 192 bytes, read back exactly and
  * only as they were written.
  */
module CandidateHeader {
  import opened Selection

  const HEADER: nat := 192
  const MAX_INPUT_BYTES: nat := 262144

  /** "cake-candidate-transfer-v1" and a line feed. */
  const MAGIC: seq<Byte> :=
    [99, 97, 107, 101, 45, 99, 97, 110, 100, 105, 100, 97, 116, 101, 45, 116, 114, 97, 110, 115, 102, 101, 114, 45,
        118, 49, 10]

  datatype Record = Record(requestId: seq<Byte>, token: seq<Byte>, length: nat, created: nat, digest: seq<Byte>)

  predicate LowerHex(b: Byte) { 48 <= b <= 57 || 97 <= b <= 102 }
  predicate Identity(value: seq<Byte>) { |value| == 32 && forall b :: b in value ==> LowerHex(b) }
  predicate DigestIdentity(value: seq<Byte>) { |value| == 64 && forall b :: b in value ==> LowerHex(b) }

  predicate Storable(r: Record) {
    && Identity(r.requestId) && Identity(r.token) && DigestIdentity(r.digest)
    && 0 < r.length <= MAX_INPUT_BYTES && r.created < Pow256(8)
  }

  function Pow256(n: nat): (r: nat)
    ensures r > 0
  {
    if n == 0 then 1 else 256 * Pow256(n - 1)
  }

  /** Little-endian bytes of a value and the value of little-endian bytes. */
  function ToLe(value: nat, width: nat): (r: seq<Byte>)
    ensures |r| == width
  {
    if width == 0 then [] else [value % 256] + ToLe(value / 256, width - 1)
  }

  function FromLe(bytes: seq<Byte>): nat {
    if bytes == [] then 0 else bytes[0] + 256 * FromLe(bytes[1..])
  }

  lemma {:induction false} FromToLe(value: nat, width: nat)
    requires value < Pow256(width)
    ensures FromLe(ToLe(value, width)) == value
  {
    if width > 0 {
      FromToLe(value / 256, width - 1);
      assert ToLe(value, width)[1..] == ToLe(value / 256, width - 1);
    }
  }

  lemma {:induction false} ToFromLe(bytes: seq<Byte>)
    ensures FromLe(bytes) < Pow256(|bytes|)
    ensures ToLe(FromLe(bytes), |bytes|) == bytes
  {
    if bytes != [] {
      ToFromLe(bytes[1..]);
      var rest: nat := FromLe(bytes[1..]);
      var first: nat := bytes[0];
      assert FromLe(bytes) == first + 256 * rest;
      assert (first + 256 * rest) / 256 == rest && (first + 256 * rest) % 256 == first;
    }
  }

  function Zeros(n: nat): seq<Byte> { seq(n, _ => 0) }

  function RecordBytes(r: Record): seq<Byte> {
    MAGIC + Zeros(5) + r.requestId + ToLe(r.length, 8) + ToLe(r.created, 8) + r.token + r.digest + Zeros(16)
  }

  function ReadRecord(data: seq<Byte>, token: seq<Byte>): Option<Record>
    requires |data| >= HEADER
  {
    if data[..27] != MAGIC || data[27..32] != Zeros(5) || data[176..192] != Zeros(16) then None
    else
      var r := Record(data[32..64], data[80..112], FromLe(data[64..72]), FromLe(data[72..80]), data[112..176]);
      if !Identity(r.requestId) || !DigestIdentity(r.digest) || r.token != token || r.length == 0
         || r.length > MAX_INPUT_BYTES then None
      else Some(r)
  }

  lemma EightFields(a: seq<Byte>, b: seq<Byte>, c: seq<Byte>, d: seq<Byte>, e: seq<Byte>, f: seq<Byte>, g: seq<Byte>,
                    h: seq<Byte>, rest: seq<Byte>)
    requires |a| == 27 && |b| == 5 && |c| == 32 && |d| == 8 && |e| == 8 && |f| == 32 && |g| == 64 && |h| == 16
    ensures var data := a + b + c + d + e + f + g + h + rest;
            && data[..27] == a && data[27..32] == b && data[32..64] == c && data[64..72] == d && data[72..80] == e
            && data[80..112] == f && data[112..176] == g && data[176..192] == h
  {}

  lemma FieldsJoin(data: seq<Byte>)
    requires |data| == HEADER
    ensures data == data[..27] + data[27..32] + data[32..64] + data[64..72] + data[72..80] + data[80..112]
        + data[112..176] + data[176..192]
  {}

  lemma RecordBytesLength(r: Record)
    requires Storable(r)
    ensures |RecordBytes(r)| == HEADER && RecordBytes(r)[..27] == MAGIC
  {}

  /** The header round trip, in both directions, whatever body follows. */
  lemma HeaderRoundTrip(data: seq<Byte>, token: seq<Byte>, r: Record)
    requires |data| >= HEADER && Identity(token)
    ensures ReadRecord(data, token) == Some(r) <==> Storable(r) && r.token == token && data[..HEADER] == RecordBytes(r)
  {
    assert Pow256(8) > MAX_INPUT_BYTES by {
      assert Pow256(3) == 16_777_216 && Pow256(5) == 65536 * Pow256(3) && Pow256(7) == 65536 * Pow256(5);
    }
    if Storable(r) && data[..HEADER] == RecordBytes(r) {
      EightFields(MAGIC, Zeros(5), r.requestId, ToLe(r.length, 8), ToLe(r.created, 8), r.token, r.digest, Zeros(16),
          data[HEADER..]);
      assert data == data[..HEADER] + data[HEADER..];
      FromToLe(r.length, 8);
      FromToLe(r.created, 8);
    }
    if ReadRecord(data, token) == Some(r) {
      ToFromLe(data[64..72]);
      ToFromLe(data[72..80]);
      var head := data[..HEADER];
      FieldsJoin(head);
      assert head[..27] == data[..27] && head[27..32] == data[27..32] && head[32..64] == data[32..64];
      assert head[64..72] == data[64..72] && head[72..80] == data[72..80] && head[80..112] == data[80..112];
      assert head[112..176] == data[112..176] && head[176..192] == data[176..192];
    }
  }
}

/**
  * The upload store: begin, append, finish and cancel over the private files,
  * with torn writes, lost acknowledgements, expiry and failing removals.
  */
module CandidateTransfer {
  import opened Selection
  import opened CandidateHeader

  const CHUNK_BYTES: nat := 1024
  const MAX_ACTIVE: nat := 4
  const TTL_S: nat := 120

  type Token = seq<Byte>

  /** A file: shorter than a header, with its wall-clock stamp when readable; or a header and its body. */
  datatype Stored = Torn(data: seq<Byte>, written: Option<nat>) | Complete(record: Record, body: seq<Byte>)

  function Bytes(file: Stored): seq<Byte> {
    match file case Torn(data, _) => data case Complete(record, body) => RecordBytes(record) + body
  }

  lemma HeaderReads(header: seq<Byte>, body: seq<Byte>, record: Record)
    requires Storable(record) && |header| == HEADER && header == RecordBytes(record)
    ensures ReadRecord(header + body, record.token) == Some(record)
  {
    assert (header + body)[..HEADER] == header;
    HeaderRoundTrip(header + body, record.token, record);
  }

  /** The bytes of a complete file read back as its record, and appending to the body appends to them. */
  lemma StoredBytes(record: Record, body: seq<Byte>, more: seq<Byte>)
    requires Storable(record)
    ensures |Bytes(Complete(record, body))| == HEADER + |body|
    ensures ReadRecord(Bytes(Complete(record, body)), record.token) == Some(record)
    ensures Bytes(Complete(record, body + more)) == Bytes(Complete(record, body)) + more
  {
    RecordBytesLength(record);
    HeaderReads(RecordBytes(record), body, record);
    assert RecordBytes(record) + (body + more) == RecordBytes(record) + body + more;
  }

  predicate Live(r: Record, now: nat) { r.created <= now && now - r.created <= TTL_S }

  /** A record lives for 120 seconds from its creation, and a torn header for 120 seconds from its stamp. */
  lemma Lifetimes(record: Record, body: seq<Byte>, data: seq<Byte>, written: nat, now: nat, wall: nat)
    ensures Retired(Complete(record, body), now, wall) <==> !(record.created <= now <= record.created + 120)
    ensures Retired(Torn(data, Some(written)), now, wall) <==> !(written <= wall <= written + 120)
    ensures Retired(Torn(data, None), now, wall)
  {}

  predicate StartsLikeMagic(data: seq<Byte>) {
    if |data| < |MAGIC| then data <= MAGIC else MAGIC <= data
  }

  /** A header torn anywhere still starts like one. */
  lemma TornHeaderIsRecognized(record: Record, k: nat)
    requires Storable(record) && k < HEADER
    ensures |RecordBytes(record)| == HEADER && StartsLikeMagic(RecordBytes(record)[..k])
  {
    RecordBytesLength(record);
  }

  /** The scan may retire it: an old torn header, or a record that is not live. */
  predicate Retired(file: Stored, now: nat, wall: nat) {
    match file
    case Torn(_, written) => written.None? || written.value > wall || wall - written.value > TTL_S
    case Complete(record, _) => !Live(record, now)
  }

  /** What a scan leaves: every file that may not be retired. */
  function Kept(files: map<Token, Stored>, now: nat, wall: nat): map<Token, Stored> {
    map t | t in files && !Retired(files[t], now, wall) :: files[t]
  }

  /** The scan can read the directory: every torn header is recognized and old enough to go. */
  predicate ScanReadable(files: map<Token, Stored>, now: nat, wall: nat) {
    forall t :: t in files ==> FileReadable(files[t], now, wall)
  }

  predicate FileReadable(file: Stored, now: nat, wall: nat) {
    file.Torn? ==> StartsLikeMagic(file.data) && Retired(file, now, wall)
  }

  predicate OfRequest(file: Stored, requestId: seq<Byte>) { file.Complete? && file.record.requestId == requestId }

  predicate HasRequest(files: map<Token, Stored>, requestId: seq<Byte>) {
    exists t :: t in files && OfRequest(files[t], requestId)
  }

  /** A begin repeats this file's own: same request, length and digest. */
  predicate Matches(file: Stored, requestId: seq<Byte>, length: nat, digest: seq<Byte>) {
    OfRequest(file, requestId) && file.record.length == length && file.record.digest == digest
  }

  predicate ValidRequest(requestId: seq<Byte>, length: nat, digest: seq<Byte>) {
    Identity(requestId) && DigestIdentity(digest) && 0 < length <= MAX_INPUT_BYTES
  }

  /** The record of a begin is there, or there is room for a new one and its header is written whole. */
  predicate Answerable(live: map<Token, Stored>, requestId: seq<Byte>, length: nat, digest: seq<Byte>, written: bool) {
    || (exists t :: t in live && Matches(live[t], requestId, length, digest))
    || (!HasRequest(live, requestId) && |live| < MAX_ACTIVE && written)
  }

  /** In full: a live record of this request, length and digest; or none of this request, room, and a whole header. */
  lemma AnswerableMeans(live: map<Token, Stored>, requestId: seq<Byte>, length: nat, digest: seq<Byte>, written: bool)
    ensures Answerable(live, requestId, length, digest, written) <==>
            || (exists t :: t in live && live[t].Complete? && live[t].record.requestId == requestId
                            && live[t].record.length == length && live[t].record.digest == digest)
            || ((forall t :: t in live && live[t].Complete? ==> live[t].record.requestId != requestId)
                && |live| < 4 && written)
  {
    if t :| t in live && live[t].Complete? && live[t].record.requestId == requestId {
      assert OfRequest(live[t], requestId);
    }
    if t :| t in live && live[t].Complete? && live[t].record.requestId == requestId
            && live[t].record.length == length && live[t].record.digest == digest {
      assert Matches(live[t], requestId, length, digest);
    }
  }

  lemma AnswerableKnown(live: map<Token, Stored>, bound: map<Token, Record>, t: Token, requestId: seq<Byte>,
                        length: nat, digest: seq<Byte>, written: bool)
    requires FilesSound(live, bound) && t in live && OfRequest(live[t], requestId)
    ensures Answerable(live, requestId, length, digest, written) <==> Matches(live[t], requestId, length, digest)
  {
    forall u | u in live && OfRequest(live[u], requestId) ensures u == t {
      assert SameRequest(live[u], live[t]);
    }
  }

  lemma AnswerableNew(live: map<Token, Stored>, requestId: seq<Byte>, length: nat, digest: seq<Byte>, written: bool)
    requires !HasRequest(live, requestId)
    ensures Answerable(live, requestId, length, digest, written) <==> |live| < MAX_ACTIVE && written
  {}

  /** Files other than one token's are as before. */
  predicate OthersKept(before: map<Token, Stored>, after: map<Token, Stored>, token: Token) {
    && after.Keys <= before.Keys + {token} && before.Keys <= after.Keys
    && forall t :: t in before ==> after[t] == before[t]
  }

  /** What a readable scan leaves is complete and live. */
  lemma KeptIsLive(files: map<Token, Stored>, now: nat, wall: nat)
    requires ScanReadable(files, now, wall)
    ensures forall t :: t in Kept(files, now, wall) ==> files[t].Complete? && Live(files[t].record, now)
  {}

  lemma BegunFromKept(before: map<Token, Stored>, after: map<Token, Stored>, token: Token, now: nat, wall: nat)
    requires OthersKept(Kept(before, now, wall), after, token)
    ensures after.Keys <= before.Keys + {token}
    ensures forall t :: t in after && t != token ==> after[t] == before[t]
    ensures forall t :: t in before && t !in after ==> Retired(before[t], now, wall)
  {}

  /** A begin succeeds: a valid request, a readable directory, and a record or room among what the scan leaves. */
  predicate BeginAnswered(files: map<Token, Stored>, requestId: seq<Byte>, length: nat, digest: seq<Byte>,
                          now: nat, wall: nat, written: bool) {
    && ValidRequest(requestId, length, digest) && ScanReadable(files, now, wall)
    && Answerable(Kept(files, now, wall), requestId, length, digest, written)
  }

  /** Looking a file up removes it if it is the caller's and has expired. */
  function AfterLoad(files: map<Token, Stored>, token: Token, requestId: seq<Byte>, now: nat): map<Token, Stored> {
    if token in files && files[token].Complete? && files[token].record.requestId == requestId
       && !Live(files[token].record, now)
    then files - {token} else files
  }

  predicate Shrunk(before: map<Token, Stored>, after: map<Token, Stored>) {
    after.Keys <= before.Keys && forall t :: t in after ==> after[t] == before[t]
  }

  /** At most four files of distinct requests, each under the record its token was bound to and within its length. */
  ghost predicate FilesSound(files: map<Token, Stored>, bound: map<Token, Record>) {
    && |files| <= MAX_ACTIVE
    && (forall t :: t in files ==> t in bound && Within(files[t], t, bound[t]))
    && (forall t, u :: t in files && u in files && SameRequest(files[t], files[u]) ==> t == u)
  }

  predicate Within(file: Stored, token: Token, record: Record) {
    file.Complete? ==> file.record == record && record.token == token && |file.body| <= record.length
  }

  predicate SameRequest(a: Stored, b: Stored) {
    a.Complete? && b.Complete? && a.record.requestId == b.record.requestId
  }

  /** One run of the validator; it is answered unless the file is stuck. */
  datatype Validation = Validation(record: Record, bytes: seq<Byte>, stuck: bool)

  /** Validated under the bound record, for bytes of its length and digest; a file still there was stuck, as it was. */
  ghost predicate EntrySound(v: Validation, digestOf: seq<Byte> -> seq<Byte>, files: map<Token, Stored>,
                             bound: map<Token, Record>) {
    && v.record.token in bound && bound[v.record.token] == v.record
    && |v.bytes| == v.record.length && digestOf(v.bytes) == v.record.digest
    && (v.record.token in files ==> v.stuck && files[v.record.token] == Complete(v.record, v.bytes))
  }

  /** A token is validated again only after validations that were all stuck, and for the same bytes. */
  ghost predicate ValidationsSound(validated: seq<Validation>, digestOf: seq<Byte> -> seq<Byte>,
                                   files: map<Token, Stored>, bound: map<Token, Record>) {
    && (forall i :: 0 <= i < |validated| ==> EntrySound(validated[i], digestOf, files, bound))
    && (forall i, j :: 0 <= i < j < |validated| && validated[i].record.token == validated[j].record.token ==>
          validated[i].stuck && validated[i].bytes == validated[j].bytes)
  }

  /** A file is unchanged, or has the same record and a longer body. */
  predicate Grew(before: Stored, after: Stored) {
    || before == after
    || (before.Complete? && after.Complete? && before.record == after.record && before.body <= after.body)
  }

  /** Files of known tokens only grow or go; none comes back. */
  ghost predicate OnlyGrew(before: map<Token, Stored>, after: map<Token, Stored>, known: map<Token, Record>) {
    forall t :: t in after && t in known ==> t in before && Grew(before[t], after[t])
  }

  /** No token is bound anew, and at most this one is bound at all, to this record. */
  ghost predicate Binds(before: map<Token, Record>, after: map<Token, Record>, record: Record) {
    after == before || (record.token !in before && after == before[record.token := record])
  }

  lemma Fewer(before: map<Token, Stored>, after: map<Token, Stored>)
    requires after.Keys <= before.Keys
    ensures |after| <= |before|
  {
    assert before.Keys == after.Keys + (before.Keys - after.Keys);
    assert |after| == |after.Keys| && |before| == |before.Keys|;
  }

  lemma ShrunkIsSound(before: map<Token, Stored>, after: map<Token, Stored>, bound: map<Token, Record>,
                      validated: seq<Validation>, digestOf: seq<Byte> -> seq<Byte>)
    requires FilesSound(before, bound) && ValidationsSound(validated, digestOf, before, bound) && Shrunk(before, after)
    ensures FilesSound(after, bound) && ValidationsSound(validated, digestOf, after, bound)
  {
    FilesShrunk(before, after, bound);
    forall i | 0 <= i < |validated| ensures EntrySound(validated[i], digestOf, after, bound) {
      assert EntrySound(validated[i], digestOf, before, bound);
    }
  }

  lemma FilesShrunk(before: map<Token, Stored>, after: map<Token, Stored>, bound: map<Token, Record>)
    requires FilesSound(before, bound) && Shrunk(before, after)
    ensures FilesSound(after, bound)
  {
    Fewer(before, after);
  }

  lemma AddedIsSound(files: map<Token, Stored>, bound: map<Token, Record>, record: Record, file: Stored)
    requires FilesSound(files, bound) && record.token !in bound && |files| < MAX_ACTIVE
    requires Within(file, record.token, record) && forall t :: t in files ==> !SameRequest(files[t], file)
    ensures FilesSound(files[record.token := file], bound[record.token := record])
  {
    OneMore(files, record.token, file);
    var after, known := files[record.token := file], bound[record.token := record];
    forall t, u | t in after && u in after && SameRequest(after[t], after[u]) ensures t == u {
      if t != record.token && u != record.token {
        assert SameRequest(files[t], files[u]);
      }
    }
  }

  lemma OneMore(files: map<Token, Stored>, token: Token, file: Stored)
    requires token !in files
    ensures |files[token := file]| == |files| + 1
  {
    var after := files[token := file];
    assert after.Keys == files.Keys + {token};
    assert |after| == |after.Keys| && |files| == |files.Keys|;
  }

  lemma BoundIsSound(files: map<Token, Stored>, bound: map<Token, Record>, record: Record)
    requires FilesSound(files, bound) && record.token !in bound
    ensures FilesSound(files, bound[record.token := record])
  {}

  /** Binding a fresh token, with or without its file, touches no validation. */
  lemma BindingKeepsValidations(validated: seq<Validation>, digestOf: seq<Byte> -> seq<Byte>,
                                before: map<Token, Stored>, after: map<Token, Stored>, bound: map<Token, Record>,
                                record: Record)
    requires ValidationsSound(validated, digestOf, before, bound) && record.token !in bound
    requires forall t :: t in after && t != record.token ==> t in before && after[t] == before[t]
    ensures ValidationsSound(validated, digestOf, after, bound[record.token := record])
  {
    forall i | 0 <= i < |validated|
      ensures EntrySound(validated[i], digestOf, after, bound[record.token := record])
    {
      assert EntrySound(validated[i], digestOf, before, bound);
    }
  }

  lemma ExtendedIsSound(files: map<Token, Stored>, bound: map<Token, Record>, token: Token, body: seq<Byte>)
    requires FilesSound(files, bound) && token in files && files[token].Complete?
    requires |body| <= files[token].record.length
    ensures FilesSound(files[token := Complete(files[token].record, body)], bound)
  {
    var after := files[token := Complete(files[token].record, body)];
    assert after.Keys == files.Keys;
    assert |after| == |after.Keys| && |files| == |files.Keys|;
  }

  /** A validated file is full, so nothing can be added to it. */
  lemma ExtendedKeepsValidations(validated: seq<Validation>, digestOf: seq<Byte> -> seq<Byte>,
                                 files: map<Token, Stored>, bound: map<Token, Record>, token: Token, body: seq<Byte>)
    requires ValidationsSound(validated, digestOf, files, bound) && token in files && files[token].Complete?
    requires files[token].body <= body && |body| <= files[token].record.length
    ensures ValidationsSound(validated, digestOf, files[token := Complete(files[token].record, body)], bound)
  {
    var after := files[token := Complete(files[token].record, body)];
    forall i | 0 <= i < |validated| ensures EntrySound(validated[i], digestOf, after, bound) {
      assert EntrySound(validated[i], digestOf, files, bound);
      if validated[i].record.token == token {
        assert body == files[token].body;
      }
    }
  }

  /** Validating a full file of the bound digest, which is then gone or stuck. */
  lemma ValidatedOnceMore(validated: seq<Validation>, digestOf: seq<Byte> -> seq<Byte>, files: map<Token, Stored>,
                          bound: map<Token, Record>, token: Token, stuck: bool)
    requires FilesSound(files, bound) && ValidationsSound(validated, digestOf, files, bound)
    requires token in files && files[token].Complete? && |files[token].body| == files[token].record.length
    requires digestOf(files[token].body) == files[token].record.digest
    ensures var v := Validation(files[token].record, files[token].body, stuck);
            ValidationsSound(validated + [v], digestOf, if stuck then files else files - {token}, bound)
  {
    var v := Validation(files[token].record, files[token].body, stuck);
    var longer, after := validated + [v], if stuck then files else files - {token};
    forall i | 0 <= i < |longer| ensures EntrySound(longer[i], digestOf, after, bound) {
      if i < |validated| { assert EntrySound(validated[i], digestOf, files, bound); }
    }
    forall i | 0 <= i < |validated| && validated[i].record.token == token
      ensures validated[i].stuck && validated[i].bytes == v.bytes
    {
      assert EntrySound(validated[i], digestOf, files, bound);
    }
  }

  /** What a chunk leaves of a body it reaches: the body, and the first `done` bytes beyond it. */
  function Merged(body: seq<Byte>, offset: nat, chunk: seq<Byte>, done: nat): seq<Byte>
    requires offset <= |body|
  {
    if offset + |chunk| <= |body| then body
    else
      var rest := chunk[|body| - offset..];
      body + rest[..MinNat(done, |rest|)]
  }

  predicate Repeats(body: seq<Byte>, offset: nat, chunk: seq<Byte>)
    requires offset <= |body|
  {
    var overlap := MinNat(|body| - offset, |chunk|);
    body[offset..offset + overlap] == chunk[..overlap]
  }

  predicate SliceOf(whole: seq<Byte>, offset: nat, chunk: seq<Byte>) {
    offset + |chunk| <= |whole| && whole[offset..offset + |chunk|] == chunk
  }

  /** Slices of one upload keep the file a prefix of it, and are never refused as conflicting. */
  lemma MergedPrefix(body: seq<Byte>, offset: nat, chunk: seq<Byte>, done: nat, whole: seq<Byte>)
    requires offset <= |body| && body <= whole && SliceOf(whole, offset, chunk)
    ensures Repeats(body, offset, chunk) && Merged(body, offset, chunk, done) <= whole
  {
    var overlap := MinNat(|body| - offset, |chunk|);
    assert chunk[..overlap] == whole[offset..offset + overlap] == body[offset..offset + overlap];
    var merged := Merged(body, offset, chunk, done);
    forall k | |body| <= k < |merged| ensures merged[k] == whole[k] {
      assert merged[k] == chunk[k - offset] == whole[offset..offset + |chunk|][k - offset];
    }
  }

  /** An accepted chunk ends up at its offset. */
  lemma MergedHolds(body: seq<Byte>, offset: nat, chunk: seq<Byte>)
    requires offset <= |body| && Repeats(body, offset, chunk)
    ensures var merged := Merged(body, offset, chunk, |chunk|);
            body <= merged && |merged| == MaxNat(|body|, offset + |chunk|) && merged[offset..offset + |chunk|] == chunk
  {
    var overlap := MinNat(|body| - offset, |chunk|);
    var merged := Merged(body, offset, chunk, |chunk|);
    assert merged[offset..offset + overlap] == chunk[..overlap];
    assert merged[offset + overlap..offset + |chunk|] == chunk[overlap..];
    assert chunk == chunk[..overlap] + chunk[overlap..];
    assert merged[offset..offset + |chunk|]
        == merged[offset..offset + overlap] + merged[offset + overlap..offset + |chunk|];
  }

  class Store {
    var files: map<Token, Stored>
    const digestOf: seq<Byte> -> seq<Byte>
    /** The record that every token ever drawn was bound to, and every run of the validator. */
    ghost var bound: map<Token, Record>
    ghost var validated: seq<Validation>

    ghost predicate Valid()
      reads this
    {
      FilesSound(files, bound) && ValidationsSound(validated, digestOf, files, bound)
    }

    constructor (digestOf: seq<Byte> -> seq<Byte>)
      ensures Valid() && files == map[] && bound == map[] && validated == [] && this.digestOf == digestOf
    {
      this.digestOf := digestOf;
      files, bound, validated := map[], map[], [];
    }

    /** One file of the scan: refused, retired or kept. */
    method ScanFile(token: Token, now: nat, wall: nat) returns (readable: bool)
      requires token in files
      modifies this`files
      ensures readable <==> FileReadable(old(files)[token], now, wall)
      ensures files == if readable && Retired(old(files)[token], now, wall) then old(files) - {token} else old(files)
    {
      var file := files[token];
      if file.Torn? && (!StartsLikeMagic(file.data) || !Retired(file, now, wall)) {
        return false;
      }
      if Retired(file, now, wall) {
        files := files - {token};
      }
      readable := true;
    }

    /** The directory scan: retires orphans and expired records; what is left are the live records. */
    method Scan(now: nat, wall: nat) returns (readable: bool)
      requires Valid()
      modifies this`files
      ensures Valid() && Shrunk(old(files), files)
      ensures readable <==> ScanReadable(old(files), now, wall)
      ensures readable ==> files == Kept(old(files), now, wall)
      ensures forall t :: t in old(files) && t !in files ==> Retired(old(files)[t], now, wall)
    {
      ghost var before := files;
      var todo := files.Keys;
      while todo != {}
        invariant Shrunk(before, files) && todo <= files.Keys
        invariant forall t :: t in before && t !in files ==> Retired(before[t], now, wall)
        invariant forall t :: t in files && t !in todo ==> !Retired(before[t], now, wall)
        invariant forall t :: t in before && t !in todo ==> FileReadable(before[t], now, wall)
        decreases |todo|
      {
        var token :| token in todo;
        readable := ScanFile(token, now, wall);
        if !readable {
          ShrunkIsSound(before, files, bound, validated, digestOf);
          return;
        }
        todo := todo - {token};
      }
      ShrunkIsSound(before, files, bound, validated, digestOf);
      readable := true;
    }

    /** The record of a request. */
    method Find(requestId: seq<Byte>) returns (r: Option<Token>)
      ensures r.Some? ==> r.value in files && OfRequest(files[r.value], requestId)
      ensures r.None? ==> !HasRequest(files, requestId)
    {
      var todo := files.Keys;
      while todo != {}
        invariant todo <= files.Keys
        invariant forall t :: t in files && t !in todo ==> !OfRequest(files[t], requestId)
        decreases |todo|
      {
        var token :| token in todo;
        if OfRequest(files[token], requestId) {
          return Some(token);
        }
        todo := todo - {token};
      }
      r := None;
    }

    /** A new file; a failing write leaves the first `torn` bytes of its header, unless they can be `cleaned` up. */
    method WriteHeader(record: Record, wall: nat, torn: Option<nat>, cleaned: bool) returns (ok: bool)
      requires Valid() && Storable(record) && record.token !in bound && |files| < MAX_ACTIVE
      requires forall t :: t in files ==> !SameRequest(files[t], Complete(record, []))
      requires torn.Some? ==> torn.value < HEADER
      modifies this`files, this`bound
      ensures Valid() && ok == torn.None?
      ensures bound == old(bound)[record.token := record]
      ensures !ok && cleaned ==> files == old(files)
      ensures ok || !cleaned ==>
                files == old(files)[record.token := if ok then Complete(record, [])
                                                    else Torn(RecordBytes(record)[..torn.value], Some(wall))]
    {
      if torn.Some? && cleaned {
        BoundIsSound(files, bound, record);
        BindingKeepsValidations(validated, digestOf, files, files, bound, record);
        bound := bound[record.token := record];
        return false;
      }
      var file := Complete(record, []);
      if torn.Some? {
        TornHeaderIsRecognized(record, torn.value);
        file := Torn(RecordBytes(record)[..torn.value], Some(wall));
      }
      AddedIsSound(files, bound, record, file);
      BindingKeepsValidations(validated, digestOf, files, files[record.token := file], bound, record);
      bound := bound[record.token := record];
      files := files[record.token := file];
      ok := torn.None?;
    }

    /** Begin: a repeated request gets its token back; a new one gets a fresh file if there is room. */
    method Begin(requestId: seq<Byte>, length: nat, digest: seq<Byte>, token: Token, now: nat, wall: nat,
                 torn: Option<nat>, cleaned: bool)
      returns (r: Result<Token>)
      requires Valid() && token !in bound && Identity(token) && now < Pow256(8)
      requires torn.Some? ==> torn.value < HEADER
      modifies this`files, this`bound
      ensures Valid() && files.Keys <= old(files.Keys) + {token}
      ensures Binds(old(bound), bound, Record(requestId, token, length, now, digest))
      ensures r.Ok? <==> BeginAnswered(old(files), requestId, length, digest, now, wall, torn.None?)
      ensures forall t :: t in files && t != token ==> files[t] == old(files)[t]
      ensures forall t :: t in old(files) && t !in files ==> Retired(old(files)[t], now, wall)
      ensures token in files ==> files[token].Torn? || files[token].body == []
      ensures r.Ok? ==> && r.value in files && Matches(files[r.value], requestId, length, digest)
                        && Live(files[r.value].record, now)
      ensures r.Ok? ==>
                files[r.value].record == Record(requestId, r.value, length, files[r.value].record.created, digest)
      ensures r.Ok? && r.value != token ==> files == Kept(old(files), now, wall)
      ensures r == Ok(token) ==>
                var upload := Complete(Record(requestId, token, length, now, digest), []);
                files == Kept(old(files), now, wall)[token := upload]
    {
      if !ValidRequest(requestId, length, digest) {
        return Err;
      }
      var readable := Scan(now, wall);
      if !readable {
        return Err;
      }
      assert forall t :: t in files ==> files[t].Complete? && Live(files[t].record, now) by {
        KeptIsLive(old(files), now, wall);
      }
      r := BeginScanned(requestId, length, digest, token, now, wall, torn, cleaned);
      BegunFromKept(old(files), files, token, now, wall);
    }

    /** Begin on the live records a scan left. */
    method BeginScanned(requestId: seq<Byte>, length: nat, digest: seq<Byte>, token: Token, now: nat, wall: nat,
                        torn: Option<nat>, cleaned: bool)
      returns (r: Result<Token>)
      requires Valid() && token !in bound && Identity(token) && now < Pow256(8)
          && ValidRequest(requestId, length, digest)
      requires torn.Some? ==> torn.value < HEADER
      requires forall t :: t in files ==> files[t].Complete? && Live(files[t].record, now)
      modifies this`files, this`bound
      ensures Valid() && Binds(old(bound), bound, Record(requestId, token, length, now, digest))
      ensures r.Ok? <==> Answerable(old(files), requestId, length, digest, torn.None?)
      ensures OthersKept(old(files), files, token)
      ensures token in files ==> files[token].Torn? || files[token].body == []
      ensures r.Ok? ==> r.value in files && Matches(files[r.value], requestId, length, digest)
      ensures r.Ok? ==> Live(files[r.value].record, now)
      ensures r.Ok? && r.value != token ==> files == old(files)
      ensures r == Ok(token) ==>
                files == old(files)[token := Complete(Record(requestId, token, length, now, digest), [])]
    {
      var known := Find(requestId);
      if known.Some? {
        AnswerableKnown(files, bound, known.value, requestId, length, digest, torn.None?);
        return if Matches(files[known.value], requestId, length, digest) then Ok(known.value) else Err;
      }
      AnswerableNew(files, requestId, length, digest, torn.None?);
      if |files| >= MAX_ACTIVE {
        return Err;
      }
      r := BeginNew(Record(requestId, token, length, now, digest), wall, torn, cleaned);
    }

    /** A new record where there is room and no record of its request. */
    method BeginNew(record: Record, wall: nat, torn: Option<nat>, cleaned: bool) returns (r: Result<Token>)
      requires Valid() && Storable(record) && record.token !in bound && |files| < MAX_ACTIVE
      requires !HasRequest(files, record.requestId) && (torn.Some? ==> torn.value < HEADER)
      modifies this`files, this`bound
      ensures Valid() && bound == old(bound)[record.token := record] && OthersKept(old(files), files, record.token)
      ensures record.token in files ==> files[record.token].Torn? || files[record.token].body == []
      ensures r == if torn.None? then Ok(record.token) else Err
      ensures r.Ok? ==> files == old(files)[record.token := Complete(record, [])]
    {
      var ok := WriteHeader(record, wall, torn, cleaned);
      r := if ok then Ok(record.token) else Err;
    }

    /** The caller's record, if the token is live; an expired file is removed. */
    method Load(token: Token, requestId: seq<Byte>, now: nat) returns (r: Result<Record>)
      requires Valid()
      modifies this`files
      ensures Valid() && files == AfterLoad(old(files), token, requestId, now)
      ensures r.Ok? <==> LoadsAs(old(files), token, requestId, now)
      ensures r.Ok? ==> r.value == files[token].record
    {
      if token !in files || files[token].Torn? {
        return Err;
      }
      var record := files[token].record;
      if record.requestId != requestId {
        return Err;
      }
      if !Live(record, now) {
        files := files - {token};
        ShrunkIsSound(old(files), files, bound, validated, digestOf);
        return Err;
      }
      r := Ok(record);
    }

    /**
      * Append: overlapping bytes must repeat what is stored, the rest goes behind
      * it. A failing write leaves `torn` of those, and the caller gets no answer.
      */
    method Append(token: Token, requestId: seq<Byte>, offset: nat, chunk: seq<Byte>, now: nat, torn: Option<nat>)
      returns (r: Result<nat>)
      requires Valid()
      modifies this`files
      ensures Valid()
      ensures r.Ok? <==> Accepts(old(files), token, requestId, offset, chunk, now) && torn.None?
      ensures Accepts(old(files), token, requestId, offset, chunk, now) ==>
                files == old(files)[token := Complete(old(files)[token].record,
                                                      Merged(old(files)[token].body, offset, chunk,
                                                          if torn.Some? then torn.value else |chunk|))]
      ensures !Accepts(old(files), token, requestId, offset, chunk, now) ==>
                files == if 1 <= |chunk| <= CHUNK_BYTES
                         then AfterLoad(old(files), token, requestId, now) else old(files)
      ensures r.Ok? ==> r.value == |files[token].body|
      ensures token in files && token in old(files) && old(files)[token].Complete? ==>
                files[token].Complete? && old(files)[token].body <= files[token].body
    {
      if chunk == [] || |chunk| > CHUNK_BYTES {
        return Err;
      }
      var loaded := Load(token, requestId, now);
      if loaded.Err? {
        return Err;
      }
      var record, body := loaded.value, files[token].body;
      var end := offset + |chunk|;
      if offset > |body| || end > record.length {
        return Err;
      }
      var overlap := MinNat(|body| - offset, |chunk|);
      if body[offset..offset + overlap] != chunk[..overlap] {
        return Err;
      }
      MergedHolds(body, offset, chunk);
      var merged := Merged(body, offset, chunk, if torn.Some? then torn.value else |chunk|);
      Extend(token, merged);
      r := if torn.Some? then Err else Ok(MaxNat(|body|, end));
    }

    /** Bytes written behind a body. */
    method Extend(token: Token, body: seq<Byte>)
      requires Valid() && token in files && files[token].Complete?
      requires files[token].body <= body && |body| <= files[token].record.length
      modifies this`files
      ensures Valid() && files == old(files)[token := Complete(old(files)[token].record, body)]
    {
      ExtendedIsSound(files, bound, token, body);
      ExtendedKeepsValidations(validated, digestOf, files, bound, token, body);
      files := files[token := Complete(files[token].record, body)];
    }

    /**
      * Finish: only a complete file of the bound digest is validated, and the
      * answer is given only after its file is gone. `stuck` is a failing removal.
      */
    method Finish(token: Token, requestId: seq<Byte>, now: nat, stuck: bool) returns (r: Result<seq<Byte>>)
      requires Valid()
      modifies this`files, this`validated
      ensures Valid()
      ensures files == if !LoadsAs(old(files), token, requestId, now) then AfterLoad(old(files), token, requestId, now)
                       else if stuck || |old(files)[token].body| != old(files)[token].record.length then old(files)
                       else old(files) - {token}
      ensures validated == if Validates(old(files), token, requestId, now, digestOf)
                           then old(validated) + [Validation(old(files)[token].record, old(files)[token].body, stuck)]
                           else old(validated)
      ensures r == if Validates(old(files), token, requestId, now, digestOf) && !stuck
                   then Ok(old(files)[token].body) else Err
    {
      var loaded := Load(token, requestId, now);
      if loaded.Err? {
        return Err;
      }
      var record, bytes := loaded.value, files[token].body;
      if |bytes| != record.length {
        return Err;
      }
      if digestOf(bytes) != record.digest {
        Remove(token, stuck);
        return Err;
      }
      ValidatedOnceMore(validated, digestOf, files, bound, token, stuck);
      ghost var before := files;
      files := if stuck then files else files - {token};
      FilesShrunk(before, files, bound);
      validated := validated + [Validation(record, bytes, stuck)];
      r := if stuck then Err else Ok(bytes);
    }

    /** Removal of a file, which may fail. */
    method Remove(token: Token, stuck: bool)
      requires Valid()
      modifies this`files
      ensures Valid() && files == if stuck then old(files) else old(files) - {token}
    {
      if !stuck {
        files := files - {token};
        ShrunkIsSound(old(files), files, bound, validated, digestOf);
      }
    }

    /** Cancel: done if the file is gone already, or if it is the caller's and live. */
    method Cancel(token: Token, requestId: seq<Byte>, now: nat) returns (r: Result<()>)
      requires Valid()
      modifies this`files
      ensures Valid()
      ensures r.Ok? <==> token !in old(files) || LoadsAs(old(files), token, requestId, now)
      ensures files == if r.Ok? then old(files) - {token} else AfterLoad(old(files), token, requestId, now)
    {
      if token !in files {
        return Ok(());
      }
      var loaded := Load(token, requestId, now);
      if loaded.Err? {
        return Err;
      }
      files := files - {token};
      ShrunkIsSound(old(files), files, bound, validated, digestOf);
      r := Ok(());
    }

    /**
      * Replaying a whole upload from offset zero completes it, whatever was stored, while each chunk
      * arrives in time.
      */
    method Resend(token: Token, requestId: seq<Byte>, whole: seq<Byte>, clock: nat -> nat)
      requires Valid() && token in files && OfRequest(files[token], requestId)
      requires forall offset: nat :: Live(files[token].record, clock(offset))
      requires files[token].body <= whole && |whole| == files[token].record.length
      modifies this`files
      ensures Valid() && files == old(files)[token := Complete(old(files)[token].record, whole)]
    {
      ghost var record := files[token].record;
      var offset := 0;
      while offset < |whole|
        invariant Valid() && offset <= |whole|
        invariant token in files && files[token].Complete? && files[token].record == record
        invariant offset <= |files[token].body| && files[token].body <= whole
        invariant files == old(files)[token := files[token]]
      {
        var chunk := whole[offset..MinNat(offset + CHUNK_BYTES, |whole|)];
        MergedPrefix(files[token].body, offset, chunk, |chunk|, whole);
        MergedHolds(files[token].body, offset, chunk);
        var next := Append(token, requestId, offset, chunk, clock(offset), None);
        offset := offset + |chunk|;
      }
      assert files[token].body == whole;
    }

    /**
      * Any sequence of calls keeps the store valid: at most four files of distinct
      * requests, and each token validated only under the record bound at its begin,
      * again only after failing removals, with no validation ever taken back. Stored
      * bytes only grow or go with their file. If every chunk for one token is a slice
      * of one upload, its file stays a prefix of it. An upload that no call names is
      * untouched while it is live at every begin.
      */
    method Serve(calls: seq<Call>, ghost token: Token, ghost whole: seq<Byte>)
      requires Valid() && FreshTokens(calls, bound.Keys)
      requires forall i :: 0 <= i < |calls| && calls[i].Appending? && calls[i].token == token ==>
                 SliceOf(whole, calls[i].offset, calls[i].chunk)
      requires PrefixStored(files, token, whole)
      modifies this
      ensures Valid() && PrefixStored(files, token, whole) && old(validated) <= validated
      ensures OnlyGrew(old(files), files, old(bound)) && BoundBy(old(bound), bound, calls)
      ensures token in old(files) && (forall i :: 0 <= i < |calls| ==> Spares(calls[i], token, old(files)[token])) ==>
                token in files && files[token] == old(files)[token]
    {
      for i := 0 to |calls|
        invariant Valid() && PrefixStored(files, token, whole) && old(validated) <= validated
        invariant OnlyGrew(old(files), files, old(bound)) && BoundBy(old(bound), bound, calls[..i])
        invariant forall j :: i <= j < |calls| && calls[j].Beginning? ==> calls[j].token !in bound
        invariant token in old(files) && (forall j :: 0 <= j < i ==> Spares(calls[j], token, old(files)[token])) ==>
                    token in files && files[token] == old(files)[token]
      {
        ghost var before, known := files, bound;
        if calls[i].Appending? {
          ServeChunk(calls[i], token, whole);
        } else {
          ServeOther(calls[i], token, whole);
        }
        GrewAgain(old(files), before, files, old(bound), known);
        BoundByNext(old(bound), known, bound, calls, i);
      }
      assert calls[..|calls|] == calls;
    }

    method ServeChunk(call: Call, ghost token: Token, ghost whole: seq<Byte>)
      requires Valid() && PrefixStored(files, token, whole) && call.Appending?
      requires call.token == token ==> SliceOf(whole, call.offset, call.chunk)
      modifies this`files
      ensures Valid() && PrefixStored(files, token, whole) && OnlyGrew(old(files), files, bound)
      ensures token in old(files) && Spares(call, token, old(files)[token]) ==>
                token in files && files[token] == old(files)[token]
    {
      ghost var stored := token in files && files[token].Complete?;
      if stored && call.token == token && call.offset <= |files[token].body| {
        MergedPrefix(files[token].body, call.offset, call.chunk,
                     if call.torn.Some? then call.torn.value else |call.chunk|, whole);
      }
      var appended := Append(call.token, call.requestId, call.offset, call.chunk, call.now, call.torn);
    }

    method ServeBegin(call: Call, ghost token: Token, ghost whole: seq<Byte>)
      requires Valid() && PrefixStored(files, token, whole) && call.Beginning? && FreshCall(call, bound.Keys)
      modifies this`files, this`bound
      ensures Valid() && PrefixStored(files, token, whole) && OnlyGrew(old(files), files, old(bound))
      ensures Binds(old(bound), bound, Asked(call))
      ensures token in old(files) && Spares(call, token, old(files)[token]) ==>
                token in files && files[token] == old(files)[token]
    {
      var begun := Begin(call.requestId, call.length, call.digest, call.token, call.now, call.wall, call.torn,
                         call.cleaned);
    }

    method ServeOther(call: Call, ghost token: Token, ghost whole: seq<Byte>)
      requires Valid() && PrefixStored(files, token, whole) && !call.Appending?
      requires call.Beginning? ==> FreshCall(call, bound.Keys)
      modifies this
      ensures Valid() && PrefixStored(files, token, whole) && old(validated) <= validated
      ensures OnlyGrew(old(files), files, old(bound))
      ensures if call.Beginning? then Binds(old(bound), bound, Asked(call)) else bound == old(bound)
      ensures token in old(files) && Spares(call, token, old(files)[token]) ==>
                token in files && files[token] == old(files)[token]
    {
      if call.Beginning? {
        ServeBegin(call, token, whole);
      } else {
        ServeEnd(call, token, whole);
      }
    }

    method ServeEnd(call: Call, ghost token: Token, ghost whole: seq<Byte>)
      requires Valid() && PrefixStored(files, token, whole) && !call.Appending? && !call.Beginning?
      modifies this`files, this`validated
      ensures Valid() && PrefixStored(files, token, whole) && old(validated) <= validated
      ensures OnlyGrew(old(files), files, bound)
      ensures token in old(files) && Spares(call, token, old(files)[token]) ==>
                token in files && files[token] == old(files)[token]
    {
      if call.Finishing? {
        var finished := Finish(call.token, call.requestId, call.now, call.stuck);
      } else {
        var cancelled := Cancel(call.token, call.requestId, call.now);
      }
    }

    /** It happens: a file that cannot be removed is validated again by the next finish. */
    method FinishTwice(token: Token, requestId: seq<Byte>, now: nat) returns (r: Result<seq<Byte>>)
      requires Valid() && Validates(files, token, requestId, now, digestOf)
      modifies this`files, this`validated
      ensures Valid() && r == Ok(old(files)[token].body)
      ensures var record, bytes := old(files)[token].record, old(files)[token].body;
              validated == old(validated) + [Validation(record, bytes, true), Validation(record, bytes, false)]
    {
      var first := Finish(token, requestId, now, true);
      r := Finish(token, requestId, now, false);
    }
  }

  /** Such a store: one upload of one byte whose file is stuck at its first finish. */
  method ValidatedTwice(requestId: seq<Byte>, token: Token, digest: seq<Byte>) returns (store: Store)
    requires Identity(requestId) && Identity(token) && DigestIdentity(digest)
    ensures fresh(store) && store.Valid() && |store.validated| == 2
    ensures store.validated[0].record == store.validated[1].record && store.validated[0].stuck
  {
    store := new Store((bytes: seq<Byte>) => digest);
    assert Pow256(8) > 0 && store.files.Keys == {};
    assert !HasRequest(Kept(store.files, 0, 0), requestId) && Kept(store.files, 0, 0) == map[];
    var begun := store.Begin(requestId, 1, digest, token, 0, 0, None, false);
    var appended := store.Append(token, requestId, 0, [0], 0, None);
    var finished := store.FinishTwice(token, requestId, 0);
  }

  /** The call names another token, and if it scans the directory the file is not one to retire. */
  predicate Spares(call: Call, token: Token, file: Stored) {
    call.token != token && (call.Beginning? ==> !Retired(file, call.now, call.wall))
  }

  datatype Call =
    | Beginning(token: Token, requestId: seq<Byte>, length: nat, digest: seq<Byte>, now: nat, wall: nat,
        torn: Option<nat>, cleaned: bool)
    | Appending(token: Token, requestId: seq<Byte>, now: nat, offset: nat, chunk: seq<Byte>, torn: Option<nat>)
    | Finishing(token: Token, requestId: seq<Byte>, now: nat, stuck: bool)
    | Cancelling(token: Token, requestId: seq<Byte>, now: nat)

  /** The record a begin asks for. */
  function Asked(call: Call): Record
    requires call.Beginning?
  {
    Record(call.requestId, call.token, call.length, call.now, call.digest)
  }

  /** Every token bound since is bound to the record of the begin that drew it, and none is bound anew. */
  ghost predicate BoundBy(before: map<Token, Record>, after: map<Token, Record>, calls: seq<Call>) {
    && (forall t :: t in before ==> t in after && after[t] == before[t])
    && (forall t :: t in after && t !in before ==>
          exists i :: 0 <= i < |calls| && calls[i].Beginning? && calls[i].token == t && after[t] == Asked(calls[i]))
  }

  lemma BoundByNext(start: map<Token, Record>, before: map<Token, Record>, after: map<Token, Record>,
                    calls: seq<Call>, i: nat)
    requires i < |calls| && BoundBy(start, before, calls[..i])
    requires if calls[i].Beginning? then Binds(before, after, Asked(calls[i])) else after == before
    ensures BoundBy(start, after, calls[..i + 1])
  {
    var longer := calls[..i + 1];
    forall t | t in after && t !in start
      ensures exists j :: 0 <= j < |longer| && longer[j].Beginning? && longer[j].token == t
                          && after[t] == Asked(longer[j])
    {
      if t in before && after[t] == before[t] {
        var j :| 0 <= j < i && calls[..i][j].Beginning? && calls[..i][j].token == t
                 && before[t] == Asked(calls[..i][j]);
        assert longer[j] == calls[..i][j];
      } else {
        assert longer[i] == calls[i];
      }
    }
  }

  lemma GrewAgain(first: map<Token, Stored>, second: map<Token, Stored>, third: map<Token, Stored>,
                  known: map<Token, Record>, later: map<Token, Record>)
    requires OnlyGrew(first, second, known) && OnlyGrew(second, third, later) && known.Keys <= later.Keys
    ensures OnlyGrew(first, third, known)
  {}

  /** Every begin draws its own new token, and the clock fits the header. */
  predicate FreshTokens(calls: seq<Call>, drawn: set<Token>) {
    && (forall i :: 0 <= i < |calls| && calls[i].Beginning? ==> FreshCall(calls[i], drawn))
    && forall i, j :: 0 <= i < j < |calls| && calls[i].Beginning? && calls[j].Beginning? ==>
        calls[i].token != calls[j].token
  }

  predicate FreshCall(call: Call, drawn: set<Token>)
    requires call.Beginning?
  {
    && call.token !in drawn && Identity(call.token) && call.now < Pow256(8)
    && (call.torn.Some? ==> call.torn.value < HEADER)
  }

  predicate PrefixStored(files: map<Token, Stored>, token: Token, whole: seq<Byte>) {
    token in files && files[token].Complete? ==> files[token].body <= whole
  }

  predicate LoadsAs(files: map<Token, Stored>, token: Token, requestId: seq<Byte>, now: nat) {
    token in files && files[token].Complete? && files[token].record.requestId == requestId
        && Live(files[token].record, now)
  }

  /** The caller's live file is full and of the bound digest. */
  predicate Validates(files: map<Token, Stored>, token: Token, requestId: seq<Byte>, now: nat,
                      digestOf: seq<Byte> -> seq<Byte>) {
    && LoadsAs(files, token, requestId, now) && |files[token].body| == files[token].record.length
    && digestOf(files[token].body) == files[token].record.digest
  }

  predicate Accepts(files: map<Token, Stored>, token: Token, requestId: seq<Byte>, offset: nat, chunk: seq<Byte>,
                    now: nat) {
    && 1 <= |chunk| <= CHUNK_BYTES && LoadsAs(files, token, requestId, now)
    && offset <= |files[token].body| && offset + |chunk| <= files[token].record.length
    && Repeats(files[token].body, offset, chunk)
  }
}
