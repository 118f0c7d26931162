/** The manifest log: framed, checksummed edits, and what replay makes of a log that
    was cut short or damaged. */
module Manifest {
  import opened ByteStrings
  import opened Integers
  import Crc = Crc32c

  datatype TableMetadata = TableMetadata(
    id: nat, level: nat, path: Bytes, smallest: Bytes, largest: Bytes,
    minSequence: nat, maxSequence: nat, entryCount: nat, fileSize: nat, footerChecksum: nat)

  datatype Edit =
    | CreateTable(meta: TableMetadata)
    | DeleteTable(id: nat)
    | SetLastSequence(sequence: nat)

  const MANIFEST_MAGIC: nat := 0x4b4d_414e
  const MANIFEST_VERSION: nat := 1
  const MANIFEST_HEADER_LEN: nat := 32

  const U16: nat := 0x1_0000
  const U32: nat := 0x1_0000_0000
  const U64: nat := 0x1_0000_0000_0000_0000

  /** A stored checksum: four bytes. */
  type Sum = s: Bytes | |s| == 4 witness [0, 0, 0, 0]

  /** Frames are checksummed with CRC-32C; nothing but the property below is used of it. */
  type Checksum = Bytes -> Sum

  /** A change confined to one byte always changes the checksum. */
  ghost predicate Sensitive(sum: Checksum) {
    forall s, i: nat, b: Byte :: i < |s| && s[i] != b ==> sum(s) != sum(Changed(s, i, b))
  }

  function Changed(s: Bytes, i: nat, b: Byte): (t: Bytes)
    requires i < |s|
    ensures |t| == |s|
  {
    s[i := b]
  }

  function CrcSum(s: Bytes): Sum {
    Crc.Stored(s)
  }

  lemma CrcIsSensitive()
    ensures Sensitive(CrcSum)
  {
    forall s: Bytes, i: nat, b: Byte | i < |s| && s[i] != b ensures CrcSum(s) != CrcSum(Changed(s, i, b)) {
      CrcChanges(s, i, b);
    }
  }

  lemma CrcChanges(s: Bytes, i: nat, b: Byte)
    requires i < |s| && s[i] != b
    ensures CrcSum(s) != CrcSum(Changed(s, i, b))
  {
    assert s == s[..i] + [s[i]] + s[i + 1..] && Changed(s, i, b) == s[..i] + [b] + s[i + 1..];
    Crc.OneByteChangesStored(s[..i], s[i], b, s[i + 1..]);
  }

  // ---- UTF-8 (RFC 3629) ----

  predicate Continues(s: Bytes, i: nat) {
    i < |s| && 0x80 <= s[i] <= 0xbf
  }

  /** Length of the well-formed character at the front, 0 if there is none. */
  function CharLen(s: Bytes): (n: nat)
    ensures n <= |s|
  {
    if s == [] then 0
    else if s[0] <= 0x7f then 1
    else if 0xc2 <= s[0] <= 0xdf then (if Continues(s, 1) then 2 else 0)
    else if 0xe0 <= s[0] <= 0xef then
      (if Continues(s, 1) && Continues(s, 2) && (s[0] == 0xe0 ==> s[1] >= 0xa0) && (s[0] == 0xed ==> s[1] <= 0x9f) then 3 else 0)
    else if 0xf0 <= s[0] <= 0xf4 then
      (if Continues(s, 1) && Continues(s, 2) && Continues(s, 3)
         && (s[0] == 0xf0 ==> s[1] >= 0x90) && (s[0] == 0xf4 ==> s[1] <= 0x8f) then 4 else 0)
    else 0
  }

  predicate IsUtf8(s: Bytes)
    decreases |s|
  {
    s == [] || (CharLen(s) > 0 && IsUtf8(s[CharLen(s)..]))
  }

  // ---- Encoding ----

  predicate MetadataFits(m: TableMetadata) {
    && m.id < U64 && m.level < U32 && |m.path| < U32 && |m.smallest| < U32 && |m.largest| < U32
    && m.minSequence < U64 && m.maxSequence < U64 && m.entryCount < U64 && m.fileSize < U64 && m.footerChecksum < U32
    && IsUtf8(m.path)
  }

  /** The values a `u64`, `u32` or `String` field can hold, in a payload whose length
      fits its field. */
  predicate Fits(e: Edit) {
    match e
    case CreateTable(m) => MetadataFits(m) && |EncodePayload(e)| < U32
    case DeleteTable(id) => id < U64
    case SetLastSequence(n) => n < U64
  }

  function FixedFields(m: TableMetadata): (s: Bytes)
    ensures |s| == 60
  {
    (LittleEndian(m.id, 8) + LittleEndian(m.level, 4))
    + (LittleEndian(|m.path|, 4) + LittleEndian(|m.smallest|, 4) + LittleEndian(|m.largest|, 4))
    + (LittleEndian(m.minSequence, 8) + LittleEndian(m.maxSequence, 8))
    + (LittleEndian(m.entryCount, 8) + LittleEndian(m.fileSize, 8) + LittleEndian(m.footerChecksum, 4))
  }

  function EncodeMetadata(m: TableMetadata): Bytes {
    FixedFields(m) + m.path + m.smallest + m.largest
  }

  function EncodePayload(e: Edit): Bytes {
    match e
    case CreateTable(m) => EncodeMetadata(m)
    case DeleteTable(id) => LittleEndian(id, 8)
    case SetLastSequence(n) => LittleEndian(n, 8)
  }

  function RecordType(e: Edit): (t: nat)
    ensures 1 <= t <= 3
  {
    match e
    case CreateTable(_) => 1
    case DeleteTable(_) => 2
    case SetLastSequence(_) => 3
  }

  /** The header bytes its checksum covers. */
  function Head(e: Edit, editSeq: nat): (s: Bytes)
    ensures |s| == 24
  {
    (LittleEndian(MANIFEST_MAGIC, 4) + LittleEndian(MANIFEST_VERSION, 2) + LittleEndian(MANIFEST_HEADER_LEN, 2))
    + (LittleEndian(RecordType(e), 2) + LittleEndian(0, 2))
    + (LittleEndian(editSeq, 8) + LittleEndian(|EncodePayload(e)|, 4))
  }

  function Encode(sum: Checksum, e: Edit, editSeq: nat): (s: Bytes)
    ensures |s| == MANIFEST_HEADER_LEN + |EncodePayload(e)|
  {
    Head(e, editSeq) + sum(Head(e, editSeq)) + sum(EncodePayload(e)) + EncodePayload(e)
  }

  // ---- Decoding ----

  function Read(s: Bytes, offset: nat, w: nat): nat
    requires offset + w <= |s|
  {
    FromLittleEndian(s[offset..offset + w])
  }

  /** None is a corruption error. */
  function DecodeMetadata(s: Bytes): Option<TableMetadata> {
    if |s| < 60 then None else
      var pathLen, smallestLen, largestLen := Read(s, 12, 4), Read(s, 16, 4), Read(s, 20, 4);
      if 60 + pathLen + smallestLen + largestLen > |s| then None
      else if !IsUtf8(s[60..60 + pathLen]) then None
      else Some(TableMetadata(
        Read(s, 0, 8), Read(s, 8, 4), s[60..60 + pathLen], s[60 + pathLen..60 + pathLen + smallestLen],
        s[60 + pathLen + smallestLen..60 + pathLen + smallestLen + largestLen],
        Read(s, 24, 8), Read(s, 32, 8), Read(s, 40, 8), Read(s, 48, 8), Read(s, 56, 4)))
  }

  function DecodePayload(recordType: nat, payload: Bytes): Option<Edit> {
    if recordType == 1 then
      var m := DecodeMetadata(payload);
      if m.None? then None else Some(CreateTable(m.value))
    else if recordType == 2 then (if |payload| < 8 then None else Some(DeleteTable(Read(payload, 0, 8))))
    else if recordType == 3 then (if |payload| < 8 then None else Some(SetLastSequence(Read(payload, 0, 8))))
    else None
  }

  datatype Decoded = Complete(edit: Edit, editSeq: nat, bytesRead: nat) | Incomplete | Invalid

  function Decode(sum: Checksum, s: Bytes): (r: Decoded)
    ensures r.Complete? ==> MANIFEST_HEADER_LEN <= r.bytesRead <= |s|
  {
    if |s| < MANIFEST_HEADER_LEN then Incomplete
    else if Read(s, 0, 4) != MANIFEST_MAGIC then Invalid
    else if Read(s, 4, 2) != MANIFEST_VERSION then Invalid
    else if s[24..28] != sum(s[..24]) then Invalid
    else
      var payloadLen := Read(s, 20, 4);
      if |s| < MANIFEST_HEADER_LEN + payloadLen then Incomplete else
        var payload := s[32..32 + payloadLen];
        if s[28..32] != sum(payload) then Invalid else
          var edit := DecodePayload(Read(s, 8, 2), payload);
          if edit.None? then Invalid else Complete(edit.value, Read(s, 12, 8), MANIFEST_HEADER_LEN + payloadLen)
  }

  // ---- Reading back what was written ----

  lemma ReadAt(s: Bytes, offset: nat, n: nat, w: nat)
    requires n < Pow256(w) && offset + w <= |s| && s[offset..offset + w] == LittleEndian(n, w)
    ensures Read(s, offset, w) == n
  {
    LittleEndianRoundTrip(n, w);
  }

  lemma FixedAt(m: TableMetadata, s: Bytes)
    requires |s| >= 60 && s[..60] == FixedFields(m)
    ensures s[0..8] == LittleEndian(m.id, 8) && s[8..12] == LittleEndian(m.level, 4)
    ensures s[12..16] == LittleEndian(|m.path|, 4) && s[16..20] == LittleEndian(|m.smallest|, 4) && s[20..24] == LittleEndian(|m.largest|, 4)
    ensures s[24..32] == LittleEndian(m.minSequence, 8) && s[32..40] == LittleEndian(m.maxSequence, 8)
    ensures s[40..48] == LittleEndian(m.entryCount, 8) && s[48..56] == LittleEndian(m.fileSize, 8) && s[56..60] == LittleEndian(m.footerChecksum, 4)
  {
    var a := LittleEndian(m.id, 8) + LittleEndian(m.level, 4);
    var b := LittleEndian(|m.path|, 4) + LittleEndian(|m.smallest|, 4) + LittleEndian(|m.largest|, 4);
    var c := LittleEndian(m.minSequence, 8) + LittleEndian(m.maxSequence, 8);
    var d := LittleEndian(m.entryCount, 8) + LittleEndian(m.fileSize, 8) + LittleEndian(m.footerChecksum, 4);
    FourParts(s, a, b, c, d);
    Part(s, 0, a, 0, LittleEndian(m.id, 8));
    Part(s, 0, a, 8, LittleEndian(m.level, 4));
    Part(s, 12, b, 0, LittleEndian(|m.path|, 4));
    Part(s, 12, b, 4, LittleEndian(|m.smallest|, 4));
    Part(s, 12, b, 8, LittleEndian(|m.largest|, 4));
    Part(s, 24, c, 0, LittleEndian(m.minSequence, 8));
    Part(s, 24, c, 8, LittleEndian(m.maxSequence, 8));
    Part(s, 40, d, 0, LittleEndian(m.entryCount, 8));
    Part(s, 40, d, 8, LittleEndian(m.fileSize, 8));
    Part(s, 40, d, 16, LittleEndian(m.footerChecksum, 4));
  }

  lemma FourParts(s: Bytes, a: Bytes, b: Bytes, c: Bytes, d: Bytes)
    requires |a| == 12 && |b| == 12 && |c| == 16 && |d| == 20 && |s| >= 60 && s[..60] == a + b + c + d
    ensures s[0..12] == a && s[12..24] == b && s[24..40] == c && s[40..60] == d
  {
  }

  lemma Part(s: Bytes, at: nat, block: Bytes, offset: nat, field: Bytes)
    requires at + |block| <= |s| && s[at..at + |block|] == block
    requires offset + |field| <= |block| && block[offset..offset + |field|] == field
    ensures s[at + offset..at + offset + |field|] == field
  {
    forall i | 0 <= i < |field| ensures s[at + offset + i] == field[i] {
      assert field[i] == block[offset + i] && block[offset + i] == s[at..at + |block|][offset + i];
    }
  }

  lemma LengthsRead(m: TableMetadata, s: Bytes)
    requires MetadataFits(m) && |s| >= 60 && s[..60] == FixedFields(m)
    ensures Read(s, 12, 4) == |m.path| && Read(s, 16, 4) == |m.smallest| && Read(s, 20, 4) == |m.largest|
  {
    FixedAt(m, s);
    Widths();
    ReadAt(s, 12, |m.path|, 4);
    ReadAt(s, 16, |m.smallest|, 4);
    ReadAt(s, 20, |m.largest|, 4);
  }

  lemma NumbersRead(m: TableMetadata, s: Bytes)
    requires MetadataFits(m) && |s| >= 60 && s[..60] == FixedFields(m)
    ensures Read(s, 0, 8) == m.id && Read(s, 8, 4) == m.level && Read(s, 24, 8) == m.minSequence
    ensures Read(s, 32, 8) == m.maxSequence && Read(s, 40, 8) == m.entryCount && Read(s, 48, 8) == m.fileSize
    ensures Read(s, 56, 4) == m.footerChecksum
  {
    FixedAt(m, s);
    Widths();
    ReadAt(s, 0, m.id, 8);
    ReadAt(s, 8, m.level, 4);
    ReadAt(s, 24, m.minSequence, 8);
    ReadAt(s, 32, m.maxSequence, 8);
    ReadAt(s, 40, m.entryCount, 8);
    ReadAt(s, 48, m.fileSize, 8);
    ReadAt(s, 56, m.footerChecksum, 4);
  }

  lemma MetadataRoundTrip(m: TableMetadata)
    requires MetadataFits(m)
    ensures DecodeMetadata(EncodeMetadata(m)) == Some(m)
  {
    MetadataParts(m);
    LengthsRead(m, EncodeMetadata(m));
    NumbersRead(m, EncodeMetadata(m));
  }

  lemma MetadataParts(m: TableMetadata)
    ensures var s, p, q := EncodeMetadata(m), 60 + |m.path|, 60 + |m.path| + |m.smallest|;
            && |s| == q + |m.largest| && s[..60] == FixedFields(m)
            && s[60..p] == m.path && s[p..q] == m.smallest && s[q..q + |m.largest|] == m.largest
  {
  }

  lemma PayloadRoundTrip(e: Edit)
    requires Fits(e)
    ensures DecodePayload(RecordType(e), EncodePayload(e)) == Some(e)
  {
    Widths();
    var s := EncodePayload(e);
    match e
    case CreateTable(m) => MetadataRoundTrip(m);
    case DeleteTable(id) => ReadAt(s, 0, id, 8);
    case SetLastSequence(n) => ReadAt(s, 0, n, 8);
  }

  // ---- Frames ----

  /** The four pieces of a frame at the front of `s`. */
  ghost predicate FrameAt(s: Bytes, head: Bytes, headSum: Bytes, bodySum: Bytes, payload: Bytes) {
    && |head| == 24 && |headSum| == 4 && |bodySum| == 4 && |s| >= 32 + |payload|
    && s[..24] == head && s[24..28] == headSum && s[28..32] == bodySum && s[32..32 + |payload|] == payload
  }

  lemma FramePieces(head: Bytes, headSum: Bytes, bodySum: Bytes, payload: Bytes, rest: Bytes)
    requires |head| == 24 && |headSum| == 4 && |bodySum| == 4
    ensures FrameAt(head + headSum + bodySum + payload + rest, head, headSum, bodySum, payload)
  {
  }

  lemma HeadParts(e: Edit, editSeq: nat, s: Bytes)
    requires |s| >= 32 && s[..24] == Head(e, editSeq)
    ensures s[0..4] == LittleEndian(MANIFEST_MAGIC, 4) && s[4..6] == LittleEndian(MANIFEST_VERSION, 2)
    ensures s[8..10] == LittleEndian(RecordType(e), 2) && s[12..20] == LittleEndian(editSeq, 8)
    ensures s[20..24] == LittleEndian(|EncodePayload(e)|, 4)
  {
    var a := LittleEndian(MANIFEST_MAGIC, 4) + LittleEndian(MANIFEST_VERSION, 2) + LittleEndian(MANIFEST_HEADER_LEN, 2);
    var b := LittleEndian(RecordType(e), 2) + LittleEndian(0, 2);
    var c := LittleEndian(editSeq, 8) + LittleEndian(|EncodePayload(e)|, 4);
    ThreeParts(s, a, b, c);
    Part(s, 0, a, 0, LittleEndian(MANIFEST_MAGIC, 4));
    Part(s, 0, a, 4, LittleEndian(MANIFEST_VERSION, 2));
    Part(s, 8, b, 0, LittleEndian(RecordType(e), 2));
    Part(s, 12, c, 0, LittleEndian(editSeq, 8));
    Part(s, 12, c, 8, LittleEndian(|EncodePayload(e)|, 4));
  }

  lemma HeadFields(e: Edit, editSeq: nat, s: Bytes)
    requires |s| >= 32 && s[..24] == Head(e, editSeq) && editSeq < U64 && |EncodePayload(e)| < U32
    ensures Read(s, 0, 4) == MANIFEST_MAGIC && Read(s, 4, 2) == MANIFEST_VERSION
    ensures Read(s, 8, 2) == RecordType(e) && Read(s, 12, 8) == editSeq && Read(s, 20, 4) == |EncodePayload(e)|
  {
    Widths();
    HeadParts(e, editSeq, s);
    ReadAt(s, 0, MANIFEST_MAGIC, 4);
    ReadAt(s, 4, MANIFEST_VERSION, 2);
    ReadAt(s, 8, RecordType(e), 2);
    ReadAt(s, 12, editSeq, 8);
    ReadAt(s, 20, |EncodePayload(e)|, 4);
  }

  lemma ThreeParts(s: Bytes, a: Bytes, b: Bytes, c: Bytes)
    requires |a| == 8 && |b| == 4 && |c| == 12 && |s| >= 24 && s[..24] == a + b + c
    ensures s[0..8] == a && s[8..12] == b && s[12..24] == c
  {
  }

  /** A frame reads back as the edit that was written, whatever follows it. */
  lemma FrameRoundTrip(sum: Checksum, e: Edit, editSeq: nat, rest: Bytes)
    requires Fits(e) && editSeq < U64
    ensures Decode(sum, Encode(sum, e, editSeq) + rest) == Complete(e, editSeq, |Encode(sum, e, editSeq)|)
  {
    var s := Encode(sum, e, editSeq) + rest;
    FramePieces(Head(e, editSeq), sum(Head(e, editSeq)), sum(EncodePayload(e)), EncodePayload(e), rest);
    SmallPayload(e);
    HeadFields(e, editSeq, s);
    PayloadRoundTrip(e);
  }

  lemma SmallPayload(e: Edit)
    requires Fits(e)
    ensures |EncodePayload(e)| < U32
  {
  }

  /** A frame cut short anywhere is reported as incomplete, never as an edit. */
  lemma FrameCutShort(sum: Checksum, e: Edit, editSeq: nat, n: nat)
    requires Fits(e) && editSeq < U64 && n < |Encode(sum, e, editSeq)|
    ensures Decode(sum, Encode(sum, e, editSeq)[..n]) == Incomplete
  {
    if n >= MANIFEST_HEADER_LEN {
      var s := Encode(sum, e, editSeq)[..n];
      var payload := EncodePayload(e)[..n - 32];
      assert s == Head(e, editSeq) + sum(Head(e, editSeq)) + sum(EncodePayload(e)) + payload + [];
      FramePieces(Head(e, editSeq), sum(Head(e, editSeq)), sum(EncodePayload(e)), payload, []);
      SmallPayload(e);
      HeadFields(e, editSeq, s);
    }
  }

  // ---- Damage ----

  /** One byte of one frame changed: always invalid, never another edit. */
  lemma DamagedFrame(sum: Checksum, e: Edit, editSeq: nat, rest: Bytes, i: nat, b: Byte)
    requires Sensitive(sum) && Fits(e) && editSeq < U64 && i < |Encode(sum, e, editSeq)| && Encode(sum, e, editSeq)[i] != b
    ensures Decode(sum, Changed(Encode(sum, e, editSeq) + rest, i, b)) == Invalid
  {
    var s := Encode(sum, e, editSeq) + rest;
    var head, payload := Head(e, editSeq), EncodePayload(e);
    FramePieces(head, sum(head), sum(payload), payload, rest);
    if i < 24 {
      DamagedHead(sum, s, head, sum(payload), payload, i, b);
    } else if i < 28 {
      DamagedHeadSum(sum, s, e, editSeq, i, b);
    } else {
      DamagedBody(sum, s, e, editSeq, i, b);
    }
  }

  lemma DamagedHead(sum: Checksum, s: Bytes, head: Bytes, bodySum: Bytes, payload: Bytes, i: nat, b: Byte)
    requires Sensitive(sum) && FrameAt(s, head, sum(head), bodySum, payload) && i < 24 && s[i] != b
    ensures Decode(sum, Changed(s, i, b)) == Invalid
  {
    var t := Changed(s, i, b);
    assert t[..24] == Changed(head, i, b) && t[24..28] == sum(head) && head[i] == s[i];
  }

  lemma DamagedHeadSum(sum: Checksum, s: Bytes, e: Edit, editSeq: nat, i: nat, b: Byte)
    requires FrameAt(s, Head(e, editSeq), sum(Head(e, editSeq)), sum(EncodePayload(e)), EncodePayload(e))
    requires Fits(e) && editSeq < U64 && 24 <= i < 28 && s[i] != b
    ensures Decode(sum, Changed(s, i, b)) == Invalid
  {
    var t := Changed(s, i, b);
    assert t[..24] == Head(e, editSeq) && t[24..28][i - 24] == b && s[24..28][i - 24] == s[i];
  }

  /** The header still reads back; the payload and its checksum no longer agree. */
  lemma DamagedBody(sum: Checksum, s: Bytes, e: Edit, editSeq: nat, i: nat, b: Byte)
    requires FrameAt(s, Head(e, editSeq), sum(Head(e, editSeq)), sum(EncodePayload(e)), EncodePayload(e))
    requires Sensitive(sum) && Fits(e) && editSeq < U64 && 28 <= i < 32 + |EncodePayload(e)| && s[i] != b
    ensures Decode(sum, Changed(s, i, b)) == Invalid
  {
    assert Changed(s, i, b)[..24] == s[..24];
    PayloadLength(e, editSeq, Changed(s, i, b));
    SumsDisagree(sum, s, EncodePayload(e), i, b);
    BadSum(sum, Changed(s, i, b), |EncodePayload(e)|);
  }

  lemma PayloadLength(e: Edit, editSeq: nat, t: Bytes)
    requires Fits(e) && editSeq < U64 && |t| >= 32 && t[..24] == Head(e, editSeq)
    ensures Read(t, 20, 4) == |EncodePayload(e)|
  {
    SmallPayload(e);
    HeadFields(e, editSeq, t);
  }

  lemma BadSum(sum: Checksum, t: Bytes, n: nat)
    requires |t| >= 32 + n && Read(t, 20, 4) == n && t[28..32] != sum(t[32..32 + n])
    ensures Decode(sum, t) == Invalid
  {
  }

  lemma SumsDisagree(sum: Checksum, s: Bytes, payload: Bytes, i: nat, b: Byte)
    requires Sensitive(sum) && |s| >= 32 + |payload| && s[28..32] == sum(payload) && s[32..32 + |payload|] == payload
    requires 28 <= i < 32 + |payload| && s[i] != b
    ensures Changed(s, i, b)[28..32] != sum(Changed(s, i, b)[32..32 + |payload|])
  {
    var t := Changed(s, i, b);
    if i < 32 {
      assert t[28..32][i - 28] == b && s[28..32][i - 28] == s[i];
      assert t[32..32 + |payload|] == payload;
    } else {
      assert t[28..32] == sum(payload) && t[32..32 + |payload|] == Changed(payload, i - 32, b) && payload[i - 32] == s[i];
    }
  }

  // ---- Replay ----

  datatype State = State(live: seq<TableMetadata>, lastSequence: nat, lastEditSeq: nat)

  function Default(): State {
    State([], 1, 0)
  }

  function Retained(live: seq<TableMetadata>, id: nat): seq<TableMetadata> {
    if live == [] then [] else (if live[0].id != id then [live[0]] else []) + Retained(live[1..], id)
  }

  function Applied(st: State, e: Edit, editSeq: nat): State {
    match e
    case CreateTable(m) => State(st.live + [m], st.lastSequence, editSeq)
    case DeleteTable(id) => State(Retained(st.live, id), st.lastSequence, editSeq)
    case SetLastSequence(n) => State(st.live, n, editSeq)
  }

  datatype Warning = Truncated(offset: nat, trailing: nat) | Damaged(offset: nat)

  datatype Replayed = Replayed(state: State, count: nat, warning: Option<Warning>)

  /** A frame decoder that never claims bytes that are not there. */
  ghost predicate Advances(decode: Bytes -> Decoded) {
    forall t :: decode(t).Complete? ==> 0 < decode(t).bytesRead <= |t|
  }

  /** Replays `t`, the bytes of the log from `offset` on. */
  ghost function ReplayRest(decode: Bytes -> Decoded, t: Bytes, offset: nat, st: State, count: nat): Replayed
    requires Advances(decode)
    decreases |t|
  {
    if t == [] then Replayed(st, count, None) else
      match decode(t)
      case Complete(e, editSeq, read) => ReplayRest(decode, t[read..], offset + read, Applied(st, e, editSeq), count + 1)
      case Incomplete => Replayed(st, count, Some(Truncated(offset, |t|)))
      case Invalid => Replayed(st, count, Some(Damaged(offset)))
  }

  function DecodeWith(sum: Checksum): Bytes -> Decoded {
    s => Decode(sum, s)
  }

  lemma DecodeAdvances(sum: Checksum)
    ensures Advances(DecodeWith(sum))
  {
  }

  ghost function Replay(sum: Checksum, s: Bytes): Replayed {
    DecodeAdvances(sum);
    ReplayRest(DecodeWith(sum), s, 0, Default(), 0)
  }

  // ---- Replay of a log of frames ----

  datatype Frame = Frame(edit: Edit, editSeq: nat, bytes: Bytes)

  /** The decoder reads this frame back, and nothing from a part of it. */
  ghost predicate Reads(decode: Bytes -> Decoded, f: Frame) {
    && f.bytes != []
    && (forall rest :: decode(f.bytes + rest) == Complete(f.edit, f.editSeq, |f.bytes|))
    && (forall n :: 0 <= n < |f.bytes| ==> decode(f.bytes[..n]) == Incomplete)
  }

  ghost predicate ReadsAll(decode: Bytes -> Decoded, log: seq<Frame>) {
    forall i :: 0 <= i < |log| ==> Reads(decode, log[i])
  }

  function Joined(log: seq<Frame>): Bytes {
    if log == [] then [] else log[0].bytes + Joined(log[1..])
  }

  function FoldFrom(st: State, log: seq<Frame>): State
    decreases |log|
  {
    if log == [] then st else FoldFrom(Applied(st, log[0].edit, log[0].editSeq), log[1..])
  }

  /** How many whole frames fit into the first `n` bytes of the log. */
  function WholeFrames(log: seq<Frame>, n: nat): (k: nat)
    ensures k <= |log|
  {
    if log == [] || n < |log[0].bytes| then 0 else 1 + WholeFrames(log[1..], n - |log[0].bytes|)
  }

  /** The warning for a log cut after `n` of these bytes, which start at `offset`. */
  function CutWarning(log: seq<Frame>, n: nat, offset: nat): Option<Warning> {
    if n == 0 || log == [] then None
    else if n < |log[0].bytes| then Some(Truncated(offset, n))
    else CutWarning(log[1..], n - |log[0].bytes|, offset + |log[0].bytes|)
  }

  /** Replay of a log that starts with a whole frame goes on behind it. */
  lemma StepOver(decode: Bytes -> Decoded, s: Bytes, f: Frame, rest: Bytes, offset: nat, st: State, count: nat, r: Replayed)
    requires Advances(decode) && f.bytes != [] && decode(s) == Complete(f.edit, f.editSeq, |f.bytes|) && s == f.bytes + rest
    requires ReplayRest(decode, rest, offset + |f.bytes|, Applied(st, f.edit, f.editSeq), count + 1) == r
    ensures ReplayRest(decode, s, offset, st, count) == r
  {
  }

  lemma StopInside(decode: Bytes -> Decoded, f: Frame, n: nat, offset: nat, st: State, count: nat)
    requires Advances(decode) && Reads(decode, f) && 0 < n < |f.bytes|
    ensures ReplayRest(decode, f.bytes[..n], offset, st, count) == Replayed(st, count, Some(Truncated(offset, n)))
  {
  }

  ghost function CutResult(log: seq<Frame>, n: nat, offset: nat, st: State, count: nat): Replayed {
    var k := WholeFrames(log, n);
    Replayed(FoldFrom(st, log[..k]), count + k, CutWarning(log, n, offset))
  }

  lemma {:induction false} ReplayCut(decode: Bytes -> Decoded, log: seq<Frame>, n: nat, offset: nat, st: State, count: nat)
    requires Advances(decode) && ReadsAll(decode, log) && n <= |Joined(log)|
    ensures ReplayRest(decode, Joined(log)[..n], offset, st, count) == CutResult(log, n, offset, st, count)
    decreases |log|
  {
    if log == [] || n == 0 {
      NothingWhole(decode, log, n);
    } else if n < |log[0].bytes| {
      CutInside(decode, log, n, offset, st, count);
    } else {
      TailReads(decode, log);
      JoinedCut(log, n);
      ReplayCut(decode, log[1..], n - |log[0].bytes|, offset + |log[0].bytes|, Applied(st, log[0].edit, log[0].editSeq), count + 1);
      CutBehind(decode, log, n, offset, st, count);
    }
  }

  lemma CutInside(decode: Bytes -> Decoded, log: seq<Frame>, n: nat, offset: nat, st: State, count: nat)
    requires Advances(decode) && ReadsAll(decode, log) && log != [] && 0 < n < |log[0].bytes| && n <= |Joined(log)|
    ensures ReplayRest(decode, Joined(log)[..n], offset, st, count) == CutResult(log, n, offset, st, count)
  {
    assert Reads(decode, log[0]);
    assert Joined(log)[..n] == log[0].bytes[..n] && log[..0] == [];
    StopInside(decode, log[0], n, offset, st, count);
  }

  lemma CutBehind(decode: Bytes -> Decoded, log: seq<Frame>, n: nat, offset: nat, st: State, count: nat)
    requires Advances(decode) && ReadsAll(decode, log) && log != [] && |log[0].bytes| <= n <= |Joined(log)|
    requires var m, at := n - |log[0].bytes|, offset + |log[0].bytes|;
             var next := Applied(st, log[0].edit, log[0].editSeq);
             m <= |Joined(log[1..])|
             && ReplayRest(decode, Joined(log[1..])[..m], at, next, count + 1) == CutResult(log[1..], m, at, next, count + 1)
    ensures ReplayRest(decode, Joined(log)[..n], offset, st, count) == CutResult(log, n, offset, st, count)
  {
    var f, tail := log[0], Joined(log[1..])[..n - |log[0].bytes|];
    assert Reads(decode, log[0]);
    ReadsFront(decode, f, tail);
    JoinedCut(log, n);
    CutStep(log, n, offset, st, count);
    StepOver(decode, Joined(log)[..n], f, tail, offset, st, count, CutResult(log, n, offset, st, count));
  }

  lemma TailReads(decode: Bytes -> Decoded, log: seq<Frame>)
    requires log != [] && ReadsAll(decode, log)
    ensures ReadsAll(decode, log[1..])
  {
  }

  lemma CutStep(log: seq<Frame>, n: nat, offset: nat, st: State, count: nat)
    requires log != [] && 0 < |log[0].bytes| <= n
    ensures CutResult(log, n, offset, st, count)
         == CutResult(log[1..], n - |log[0].bytes|, offset + |log[0].bytes|, Applied(st, log[0].edit, log[0].editSeq), count + 1)
  {
    FoldStep(st, log, WholeFrames(log, n));
  }

  lemma JoinedCut(log: seq<Frame>, n: nat)
    requires log != [] && |log[0].bytes| <= n <= |Joined(log)|
    ensures n - |log[0].bytes| <= |Joined(log[1..])|
    ensures Joined(log)[..n] == log[0].bytes + Joined(log[1..])[..n - |log[0].bytes|]
  {
  }

  lemma FoldStep(st: State, log: seq<Frame>, k: nat)
    requires 0 < k <= |log|
    ensures FoldFrom(st, log[..k]) == FoldFrom(Applied(st, log[0].edit, log[0].editSeq), log[1..][..k - 1])
  {
    assert log[..k][1..] == log[1..][..k - 1] && log[..k][0] == log[0];
  }

  lemma NothingWhole(decode: Bytes -> Decoded, log: seq<Frame>, n: nat)
    requires ReadsAll(decode, log) && (log == [] || n == 0)
    ensures WholeFrames(log, n) == 0 && log[..0] == []
  {
  }

  ghost function DamagedResult(log: seq<Frame>, offset: nat, st: State, count: nat): Replayed {
    Replayed(FoldFrom(st, log), count + |log|, Some(Damaged(offset + |Joined(log)|)))
  }

  lemma {:induction false} ReplayDamaged(decode: Bytes -> Decoded, log: seq<Frame>, bad: Bytes, offset: nat, st: State, count: nat)
    requires Advances(decode) && ReadsAll(decode, log) && bad != [] && decode(bad) == Invalid
    ensures ReplayRest(decode, Joined(log) + bad, offset, st, count) == DamagedResult(log, offset, st, count)
    decreases |log|
  {
    if log == [] {
      assert Joined(log) + bad == bad;
      StopAtBad(decode, bad, offset, st, count);
    } else {
      var f, rest := log[0], log[1..];
      TailReads(decode, log);
      JoinedMore(log, bad);
      ReplayDamaged(decode, rest, bad, offset + |f.bytes|, Applied(st, f.edit, f.editSeq), count + 1);
      DamagedStep(log, offset, st, count);
      ReadsFront(decode, f, Joined(rest) + bad);
      StepOver(decode, Joined(log) + bad, f, Joined(rest) + bad, offset, st, count, DamagedResult(log, offset, st, count));
    }
  }

  lemma StopAtBad(decode: Bytes -> Decoded, bad: Bytes, offset: nat, st: State, count: nat)
    requires Advances(decode) && bad != [] && decode(bad) == Invalid
    ensures ReplayRest(decode, bad, offset, st, count) == Replayed(st, count, Some(Damaged(offset)))
  {
  }

  lemma DamagedStep(log: seq<Frame>, offset: nat, st: State, count: nat)
    requires log != []
    ensures DamagedResult(log, offset, st, count)
         == DamagedResult(log[1..], offset + |log[0].bytes|, Applied(st, log[0].edit, log[0].editSeq), count + 1)
  {
  }

  lemma ReadsFront(decode: Bytes -> Decoded, f: Frame, rest: Bytes)
    requires Reads(decode, f)
    ensures f.bytes != [] && decode(f.bytes + rest) == Complete(f.edit, f.editSeq, |f.bytes|)
  {
  }

  lemma JoinedMore(log: seq<Frame>, bad: Bytes)
    requires log != []
    ensures Joined(log) + bad == log[0].bytes + (Joined(log[1..]) + bad)
  {
  }

  // ---- Logs this encoder wrote ----

  ghost predicate WrittenBy(sum: Checksum, f: Frame) {
    Fits(f.edit) && f.editSeq < U64 && f.bytes == Encode(sum, f.edit, f.editSeq)
  }

  ghost predicate Written(sum: Checksum, log: seq<Frame>) {
    forall i :: 0 <= i < |log| ==> WrittenBy(sum, log[i])
  }

  lemma WrittenReads(sum: Checksum, f: Frame)
    requires WrittenBy(sum, f)
    ensures Reads(DecodeWith(sum), f)
  {
    forall rest ensures Decode(sum, f.bytes + rest) == Complete(f.edit, f.editSeq, |f.bytes|) {
      FrameRoundTrip(sum, f.edit, f.editSeq, rest);
    }
    forall n | 0 <= n < |f.bytes| ensures Decode(sum, f.bytes[..n]) == Incomplete {
      FrameCutShort(sum, f.edit, f.editSeq, n);
    }
  }

  lemma WrittenReadsAll(sum: Checksum, log: seq<Frame>)
    requires Written(sum, log)
    ensures Advances(DecodeWith(sum)) && ReadsAll(DecodeWith(sum), log)
  {
    DecodeAdvances(sum);
    forall i | 0 <= i < |log| ensures Reads(DecodeWith(sum), log[i]) {
      WrittenReads(sum, log[i]);
    }
  }

  /** Replaying any truncation of a log of encoded edits gives the fold of the longest
      prefix of whole edits, with a warning exactly when an edit was cut. */
  lemma TruncatedReplay(sum: Checksum, log: seq<Frame>, n: nat)
    requires Written(sum, log) && n <= |Joined(log)|
    ensures var k := WholeFrames(log, n);
            Replay(sum, Joined(log)[..n]) == Replayed(FoldFrom(Default(), log[..k]), k, CutWarning(log, n, 0))
  {
    WrittenReadsAll(sum, log);
    ReplayCut(DecodeWith(sum), log, n, 0, Default(), 0);
  }

  lemma {:induction false} JoinedSplit(log: seq<Frame>, j: nat)
    requires j < |log|
    ensures Joined(log) == Joined(log[..j]) + (log[j].bytes + Joined(log[j + 1..]))
    decreases j
  {
    if j > 0 {
      JoinedSplit(log[1..], j - 1);
      assert log[..j][0] == log[0] && log[..j][1..] == log[1..][..j - 1] && log[1..][j..] == log[j + 1..];
    } else {
      assert log[..0] == [];
    }
  }

  /** Damage to one byte of edit `j` stops replay with exactly the edits before it. */
  lemma DamagedReplay(sum: Checksum, log: seq<Frame>, j: nat, i: nat, b: Byte)
    requires Sensitive(sum) && Written(sum, log) && j < |log| && i < |log[j].bytes| && log[j].bytes[i] != b
    ensures |Joined(log[..j])| + i < |Joined(log)|
    ensures var at := |Joined(log[..j])|;
            Replay(sum, Changed(Joined(log), at + i, b)) == Replayed(FoldFrom(Default(), log[..j]), j, Some(Damaged(at)))
  {
    var f, rest, before := log[j], Joined(log[j + 1..]), log[..j];
    JoinedSplit(log, j);
    assert WrittenBy(sum, f) && Written(sum, before);
    DamagedBehind(sum, before, f, rest, Joined(log), i, b);
  }

  lemma DamagedBehind(sum: Checksum, before: seq<Frame>, f: Frame, rest: Bytes, s: Bytes, i: nat, b: Byte)
    requires Sensitive(sum) && Written(sum, before) && WrittenBy(sum, f) && i < |f.bytes| && f.bytes[i] != b
    requires s == Joined(before) + (f.bytes + rest)
    ensures Replay(sum, Changed(s, |Joined(before)| + i, b)) == DamagedResult(before, 0, Default(), 0)
  {
    BadTail(sum, f, rest, i, b);
    UpdateTail(Joined(before), f.bytes + rest, i, b);
    BadAfter(sum, before, Changed(f.bytes + rest, i, b));
  }

  lemma BadAfter(sum: Checksum, before: seq<Frame>, bad: Bytes)
    requires Written(sum, before) && bad != [] && Decode(sum, bad) == Invalid
    ensures Replay(sum, Joined(before) + bad) == DamagedResult(before, 0, Default(), 0)
  {
    WrittenReadsAll(sum, before);
    ReplayDamaged(DecodeWith(sum), before, bad, 0, Default(), 0);
  }

  lemma BadTail(sum: Checksum, f: Frame, rest: Bytes, i: nat, b: Byte)
    requires Sensitive(sum) && WrittenBy(sum, f) && i < |f.bytes| && f.bytes[i] != b
    ensures Decode(sum, Changed(f.bytes + rest, i, b)) == Invalid
  {
    DamagedFrame(sum, f.edit, f.editSeq, rest, i, b);
  }

  lemma UpdateTail(a: Bytes, t: Bytes, i: nat, b: Byte)
    requires i < |t|
    ensures Changed(a + t, |a| + i, b) == a + Changed(t, i, b)
  {
  }

  /** The same for the manifest's own checksum. */
  lemma DamagedManifest(log: seq<Frame>, j: nat, i: nat, b: Byte)
    requires Written(CrcSum, log) && j < |log| && i < |log[j].bytes| && log[j].bytes[i] != b
    ensures |Joined(log[..j])| + i < |Joined(log)|
    ensures var at := |Joined(log[..j])|;
            Replay(CrcSum, Changed(Joined(log), at + i, b)) == Replayed(FoldFrom(Default(), log[..j]), j, Some(Damaged(at)))
  {
    CrcIsSensitive();
    DamagedReplay(CrcSum, log, j, i, b);
  }

  // ---- The in-place state and the replay loop ----

  class ManifestState {
    var live: seq<TableMetadata>
    var lastSequence: nat
    var lastEditSeq: nat

    ghost function View(): State
      reads this
    {
      State(live, lastSequence, lastEditSeq)
    }

    constructor ()
      ensures View() == Default()
    {
      live, lastSequence, lastEditSeq := [], 1, 0;
    }

    method Apply(e: Edit, editSeq: nat)
      modifies this
      ensures View() == Applied(old(View()), e, editSeq)
    {
      lastEditSeq := editSeq;
      match e
      case CreateTable(m) =>
        live := live + [m];
      case DeleteTable(id) =>
        live := Retain(live, id);
      case SetLastSequence(n) =>
        lastSequence := n;
    }
  }

  method Retain(live: seq<TableMetadata>, id: nat) returns (kept: seq<TableMetadata>)
    ensures kept == Retained(live, id)
  {
    kept := [];
    assert live[0..] == live;
    for i := 0 to |live|
      invariant kept + Retained(live[i..], id) == Retained(live, id)
    {
      assert live[i..][1..] == live[i + 1..];
      if live[i].id != id {
        kept := kept + [live[i]];
      }
    }
  }

  method ReplayLoop(decode: Bytes -> Decoded, s: Bytes) returns (state: ManifestState, count: nat, warning: Option<Warning>)
    requires Advances(decode)
    ensures fresh(state) && Replayed(state.View(), count, warning) == ReplayRest(decode, s, 0, Default(), 0)
  {
    state := new ManifestState();
    var offset := 0;
    count, warning := 0, None;
    assert s[0..] == s;
    while offset < |s|
      invariant offset <= |s| && fresh(state) && warning == None
      invariant ReplayRest(decode, s[offset..], offset, state.View(), count) == ReplayRest(decode, s, 0, Default(), 0)
    {
      assert forall read :: 0 <= read <= |s| - offset ==> s[offset..][read..] == s[offset + read..];
      match decode(s[offset..])
      case Complete(e, editSeq, read) =>
        state.Apply(e, editSeq);
        offset := offset + read;
        count := count + 1;
      case Incomplete =>
        warning := Some(Truncated(offset, |s| - offset));
        return;
      case Invalid =>
        warning := Some(Damaged(offset));
        return;
    }
  }

  method ReplayManifest(s: Bytes) returns (state: ManifestState, count: nat, warning: Option<Warning>)
    ensures fresh(state) && Replayed(state.View(), count, warning) == Replay(CrcSum, s)
  {
    DecodeAdvances(CrcSum);
    state, count, warning := ReplayLoop(DecodeWith(CrcSum), s);
  }
}
