/**
 * Attribute streams of canonical Q96 packs (shared/gstile_streams.py): a pack of 96-byte records is
 * split column by column into a 36-byte base stream and a 60-byte harmonics stream, and joined back.
 * The CRC-32 of section 8 of RFC 1952 and the SHA-256 digest are parameters.
 */
module GstileStreams {
  import Sequences
  import opened Results

  newtype byte = x: int | 0 <= x < 256

  type Bytes = seq<byte>

  type U32 = n: nat | n < 0x1_0000_0000

  datatype Kind = Base | Sh {
    function Stride(): nat { if Base? then 36 else 60 }
    function Flag(): nat { if Base? then 1 else 2 }
  }

  const HEADER := 32
  const RECORD := 96

  /** "GSTILE1\0" and "GSATTR1\0". */
  const PACK_MAGIC: Bytes := [0x47, 0x53, 0x54, 0x49, 0x4C, 0x45, 0x31, 0x00]
  const STREAM_MAGIC: Bytes := [0x47, 0x53, 0x41, 0x54, 0x54, 0x52, 0x31, 0x00]

  // ----- Little-endian fields -----

  function LowByte(n: nat): byte { (n % 256) as byte }

  function Pack(n: nat, width: nat): Bytes {
    if width == 0 then [] else [LowByte(n)] + Pack(n / 256, width - 1)
  }

  function Unpack(b: Bytes): nat {
    if b == [] then 0 else b[0] as nat + 256 * Unpack(b[1..])
  }

  function Power256(width: nat): nat {
    if width == 0 then 1 else 256 * Power256(width - 1)
  }

  lemma {:induction false} UnpackBound(b: Bytes)
    ensures Unpack(b) < Power256(|b|)
  {
    if b != [] {
      UnpackBound(b[1..]);
    }
  }

  lemma {:induction false} PackUnpack(n: nat, width: nat)
    requires n < Power256(width)
    ensures |Pack(n, width)| == width && Unpack(Pack(n, width)) == n
  {
    if width > 0 {
      PackUnpack(n / 256, width - 1);
      assert Pack(n, width)[1..] == Pack(n / 256, width - 1);
    }
  }

  lemma {:induction false} UnpackPack(b: Bytes)
    ensures Pack(Unpack(b), |b|) == b
  {
    if b != [] {
      UnpackPack(b[1..]);
      LeadingByte(b[0] as nat, Unpack(b[1..]));
      assert b == [b[0]] + b[1..];
    }
  }

  lemma LeadingByte(low: nat, rest: nat)
    requires low < 256
    ensures (low + 256 * rest) % 256 == low && (low + 256 * rest) / 256 == rest
  {
  }

  /** A field reads as n exactly when its bytes are the packing of n. */
  lemma FieldReads(b: Bytes, n: nat)
    requires n < Power256(|b|)
    ensures Unpack(b) == n <==> b == Pack(n, |b|)
  {
    UnpackPack(b);
    PackUnpack(n, |b|);
  }

  function Field(content: Bytes, offset: nat, width: nat): nat
    requires offset + width <= |content|
  {
    Unpack(content[offset..offset + width])
  }

  // ----- Headers -----

  function StreamHeader(kind: Kind, count: nat, crc: U32): Bytes {
    STREAM_MAGIC + Pack(1, 2) + Pack(32, 2) + Pack(kind.Stride(), 2) + Pack(kind.Flag(), 2)
    + Pack(count, 4) + Pack(0, 8) + Pack(crc, 4)
  }

  predicate StreamFields(content: Bytes, kind: Kind, count: nat, crc: nat)
    requires |content| >= HEADER
  {
    && content[..8] == STREAM_MAGIC
    && Field(content, 8, 2) == 1 && Field(content, 10, 2) == 32
    && Field(content, 12, 2) == kind.Stride() && Field(content, 14, 2) == kind.Flag()
    && Field(content, 16, 4) == count && Field(content, 20, 8) == 0 && Field(content, 28, 4) == crc
  }

  lemma {:induction false} PackLength(n: nat, width: nat)
    ensures |Pack(n, width)| == width
  {
    if width > 0 {
      PackLength(n / 256, width - 1);
    }
  }

  lemma Powers()
    ensures Power256(2) == 0x1_0000 && Power256(4) == 0x1_0000_0000 && Power256(8) == 0x1_0000_0000_0000_0000
  {
    assert Power256(0) == 1;
    assert Power256(1) == 256;
    assert Power256(3) == 0x100_0000;
    assert Power256(5) == 0x100_0000_0000;
    assert Power256(6) == 0x1_0000_0000_0000;
    assert Power256(7) == 0x100_0000_0000_0000;
  }

  /** The unpacked header fields agree with the expected ones exactly when the header bytes do. */
  lemma HeaderExact(content: Bytes, kind: Kind, count: U32, crc: U32)
    requires |content| >= HEADER
    ensures |StreamHeader(kind, count, crc)| == HEADER
    ensures StreamFields(content, kind, count, crc) <==> content[..HEADER] == StreamHeader(kind, count, crc)
  {
    hide Pack, Unpack, Power256;
    Powers();
    PackLength(1, 2); PackLength(32, 2); PackLength(kind.Stride(), 2); PackLength(kind.Flag(), 2);
    PackLength(count, 4); PackLength(0, 8); PackLength(crc, 4);
    FieldReads(content[8..10], 1);
    FieldReads(content[10..12], 32);
    FieldReads(content[12..14], kind.Stride());
    FieldReads(content[14..16], kind.Flag());
    FieldReads(content[16..20], count);
    FieldReads(content[20..28], 0);
    FieldReads(content[28..32], crc);
    Concatenation(content, STREAM_MAGIC, Pack(1, 2), Pack(32, 2), Pack(kind.Stride(), 2), Pack(kind.Flag(), 2),
                  Pack(count, 4), Pack(0, 8), Pack(crc, 4));
  }

  lemma Concatenation(s: Bytes, a: Bytes, b: Bytes, c: Bytes, d: Bytes, e: Bytes, f: Bytes, g: Bytes, h: Bytes)
    requires |s| >= 32 && |a| == 8 && |b| == |c| == |d| == |e| == 2 && |f| == 4 && |g| == 8 && |h| == 4
    ensures s[..32] == a + b + c + d + e + f + g + h <==>
            s[..8] == a && s[8..10] == b && s[10..12] == c && s[12..14] == d && s[14..16] == e
            && s[16..20] == f && s[20..28] == g && s[28..32] == h
  {
    var whole := a + b + c + d + e + f + g + h;
    assert whole[..8] == a && whole[8..10] == b && whole[10..12] == c && whole[12..14] == d && whole[14..16] == e
        && whole[16..20] == f && whole[20..28] == g && whole[28..32] == h;
    var t := s[..32];
    assert t[..8] == s[..8] && t[8..10] == s[8..10] && t[10..12] == s[10..12] && t[12..14] == s[12..14]
        && t[14..16] == s[14..16] && t[16..20] == s[16..20] && t[20..28] == s[20..28] && t[28..32] == s[28..32];
    assert t == t[..8] + t[8..10] + t[10..12] + t[12..14] + t[14..16] + t[16..20] + t[20..28] + t[28..32];
  }

  // ----- Records and columns -----

  predicate Records(payload: Bytes, stride: nat, count: nat) {
    |payload| == count * stride
  }

  /** Byte c of record r in a payload of count records. */
  function At(payload: Bytes, stride: nat, count: nat, r: nat, c: nat): byte
    requires Records(payload, stride, count) && r < count && c < stride
  {
    Inside(stride, count, r, c);
    payload[r * stride + c]
  }

  lemma Inside(stride: nat, count: nat, r: nat, c: nat)
    requires r < count && c < stride
    ensures 0 <= r * stride + c < count * stride
  {
    assert (r + 1) * stride <= count * stride;
  }

  /** Two payloads of whole records are equal when they agree in every record and column. */
  lemma SameRecords(a: Bytes, b: Bytes, stride: nat, count: nat)
    requires stride > 0 && Records(a, stride, count) && Records(b, stride, count)
    requires forall r, c | 0 <= r < count && 0 <= c < stride :: At(a, stride, count, r, c) == At(b, stride, count, r, c)
    ensures a == b
  {
    forall i | 0 <= i < |a| ensures a[i] == b[i] {
      Quotient(i, stride, count);
      assert At(a, stride, count, i / stride, i % stride) == At(b, stride, count, i / stride, i % stride);
    }
  }

  lemma Quotient(i: nat, stride: nat, count: nat)
    requires stride > 0 && i < count * stride
    ensures i == (i / stride) * stride + i % stride && i / stride < count
  {
    ScaleUp(count, i / stride, stride);
  }

  lemma ScaleUp(a: nat, b: nat, stride: nat)
    ensures a <= b ==> a * stride <= b * stride
  {
  }

  /** The source column of each base column: geometry and colour, then the record tail. */
  function BaseColumn(c: nat): nat {
    if c < 28 then c else c + 60
  }

  function ShColumn(c: nat): nat { c + 28 }

  function Column(kind: Kind, c: nat): nat {
    if kind.Base? then BaseColumn(c) else ShColumn(c)
  }

  /** stream holds, record by record, the columns of payload that belong to kind. */
  ghost predicate Projects(payload: Bytes, stream: Bytes, kind: Kind, count: nat) {
    && Records(payload, RECORD, count) && Records(stream, kind.Stride(), count)
    && forall r, c | 0 <= r < count && 0 <= c < kind.Stride() :: CellsAgree(payload, stream, kind, count, r, c)
  }

  ghost predicate CellsAgree(payload: Bytes, stream: Bytes, kind: Kind, count: nat, r: nat, c: nat)
    requires Records(payload, RECORD, count) && Records(stream, kind.Stride(), count)
    requires r < count && c < kind.Stride()
  {
    At(stream, kind.Stride(), count, r, c) == At(payload, RECORD, count, r, Column(kind, c))
  }

  /** Both streams together determine the payload. */
  lemma PayloadDetermined(p: Bytes, q: Bytes, base: Bytes, sh: Bytes, count: nat)
    requires Projects(p, base, Base, count) && Projects(q, base, Base, count)
    requires Projects(p, sh, Sh, count) && Projects(q, sh, Sh, count)
    ensures p == q
  {
    forall r, c | 0 <= r < count && 0 <= c < RECORD
      ensures At(p, RECORD, count, r, c) == At(q, RECORD, count, r, c)
    {
      var kind := if 28 <= c < 88 then Sh else Base;
      var d := if 28 <= c < 88 then c - 28 else if c < 28 then c else c - 60;
      var stream := if 28 <= c < 88 then sh else base;
      assert CellsAgree(p, stream, kind, count, r, d) && CellsAgree(q, stream, kind, count, r, d);
      assert Column(kind, d) == c;
    }
    SameRecords(p, q, RECORD, count);
  }

  /** And the payload determines each stream. */
  lemma StreamDetermined(p: Bytes, a: Bytes, b: Bytes, kind: Kind, count: nat)
    requires Projects(p, a, kind, count) && Projects(p, b, kind, count)
    ensures a == b
  {
    forall r, c | 0 <= r < count && 0 <= c < kind.Stride()
      ensures At(a, kind.Stride(), count, r, c) == At(b, kind.Stride(), count, r, c)
    {
      assert CellsAgree(p, a, kind, count, r, c) && CellsAgree(p, b, kind, count, r, c);
    }
    SameRecords(a, b, kind.Stride(), count);
  }

  /** The harmonics columns of every record are zero. */
  ghost predicate ZeroHarmonics(payload: Bytes, count: nat) {
    && Records(payload, RECORD, count)
    && forall r, c | 0 <= r < count && 28 <= c < 88 :: At(payload, RECORD, count, r, c) == 0
  }

  // ----- Strided copies -----

  /** dst[start::stride] = src[from::step], one whole column of count records. */
  method CopyColumn(dst: array<byte>, start: nat, stride: nat, src: Bytes, from: nat, step: nat, count: nat)
    requires start < stride && dst.Length == count * stride
    requires from < step && Records(src, step, count)
    modifies dst
    ensures forall r | 0 <= r < count :: At(dst[..], stride, count, r, start) == At(src, step, count, r, from)
    ensures forall r, c | 0 <= r < count && 0 <= c < stride && c != start ::
              At(dst[..], stride, count, r, c) == At(old(dst[..]), stride, count, r, c)
  {
    for i := 0 to count
      invariant forall r | 0 <= r < i :: At(dst[..], stride, count, r, start) == At(src, step, count, r, from)
      invariant forall r, c | 0 <= r < count && 0 <= c < stride && (c != start || i <= r) ::
                  At(dst[..], stride, count, r, c) == At(old(dst[..]), stride, count, r, c)
    {
      Inside(stride, count, i, start);
      Inside(step, count, i, from);
      ghost var before := dst[..];
      dst[i * stride + start] := src[i * step + from];
      CellUpdated(before, dst[..], stride, count, i, start);
    }
  }

  lemma CellUpdated(before: Bytes, after: Bytes, stride: nat, count: nat, i: nat, start: nat)
    requires start < stride && i < count && Records(before, stride, count) && Records(after, stride, count)
    requires forall k | 0 <= k < |after| && k != i * stride + start :: after[k] == before[k]
    ensures forall r, c | 0 <= r < count && 0 <= c < stride && (r != i || c != start) ::
              At(after, stride, count, r, c) == At(before, stride, count, r, c)
  {
    hide At;
    forall r, c | 0 <= r < count && 0 <= c < stride && (r != i || c != start)
      ensures At(after, stride, count, r, c) == At(before, stride, count, r, c)
    {
      CellKept(before, after, stride, count, i * stride + start, r, c);
      DistinctCells(stride, r, c, i, start);
    }
  }

  lemma CellKept(before: Bytes, after: Bytes, stride: nat, count: nat, k: nat, r: nat, c: nat)
    requires r < count && c < stride && Records(before, stride, count) && Records(after, stride, count)
    requires forall j | 0 <= j < |after| && j != k :: after[j] == before[j]
    ensures r * stride + c != k ==> At(after, stride, count, r, c) == At(before, stride, count, r, c)
  {
    Inside(stride, count, r, c);
  }

  lemma DistinctCells(stride: nat, r: nat, c: nat, r': nat, c': nat)
    requires c < stride && c' < stride && (r != r' || c != c')
    ensures r * stride + c != r' * stride + c'
  {
    if r < r' {
      assert (r + 1) * stride <= r' * stride;
    } else if r' < r {
      assert (r' + 1) * stride <= r * stride;
    }
  }

  /** The body of one stream, filled column by column. */
  method ProjectStream(payload: Bytes, kind: Kind, count: nat) returns (body: Bytes)
    requires Records(payload, RECORD, count)
    ensures Projects(payload, body, kind, count)
  {
    var stride := kind.Stride();
    var buffer := new byte[count * stride];
    for dst := 0 to stride
      invariant forall r, c | 0 <= r < count && 0 <= c < dst ::
                  At(buffer[..], stride, count, r, c) == At(payload, RECORD, count, r, Column(kind, c))
    {
      CopyColumn(buffer, dst, stride, payload, Column(kind, dst), RECORD, count);
    }
    body := buffer[..];
  }

  // ----- Split -----

  type Crc = Bytes -> U32

  /** What makes a pack canonical; bytes 20 to 27 of its header are not examined. */
  predicate Canonical(content: Bytes, crc: Crc) {
    && |content| >= HEADER && content[..8] == PACK_MAGIC
    && Field(content, 16, 4) >= 1 && |content| == HEADER + Field(content, 16, 4) * RECORD
    && Field(content, 8, 2) == 1 && Field(content, 10, 2) == 32 && Field(content, 12, 2) == 96 && Field(content, 14, 2) == 0
    && crc(content[HEADER..]) == Field(content, 28, 4)
  }

  function Count(content: Bytes): (n: U32)
    requires |content| >= HEADER
  {
    UnpackBound(content[16..20]);
    Powers();
    Field(content, 16, 4)
  }

  ghost predicate ValidStream(content: Bytes, kind: Kind, count: nat, crc: Crc) {
    && count < 0x1_0000_0000
    && |content| == HEADER + count * kind.Stride()
    && content[..HEADER] == StreamHeader(kind, count, crc(content[HEADER..]))
  }

  /** The streams of a pack, as the split guarantees them. */
  ghost predicate SplitOf(content: Bytes, base: Bytes, sh: Bytes, crc: Crc) {
    && Canonical(content, crc)
    && var count := Count(content);
       && ValidStream(base, Base, count, crc) && ValidStream(sh, Sh, count, crc)
       && Projects(content[HEADER..], base[HEADER..], Base, count)
       && Projects(content[HEADER..], sh[HEADER..], Sh, count)
  }

  /** A payload joined from two streams, as the join guarantees it. */
  ghost predicate JoinOf(payload: Bytes, base: Bytes, sh: Bytes, count: nat, crc: Crc) {
    && ValidStream(base, Base, count, crc) && ValidStream(sh, Sh, count, crc)
    && Projects(payload, base[HEADER..], Base, count)
    && Projects(payload, sh[HEADER..], Sh, count)
  }

  method SplitQ96(content: Bytes, crc: Crc) returns (r: Option<(Bytes, Bytes)>)
    ensures r.Some? <==> Canonical(content, crc)
    ensures r.Some? ==> SplitOf(content, r.value.0, r.value.1, crc)
  {
    if !Canonical(content, crc) {
      return None;
    }
    var count := Count(content);
    var payload := content[HEADER..];
    var baseBody := ProjectStream(payload, Base, count);
    var shBody := ProjectStream(payload, Sh, count);
    HeaderThenBody(Base, count, crc, baseBody);
    HeaderThenBody(Sh, count, crc, shBody);
    return Some((StreamHeader(Base, count, crc(baseBody)) + baseBody, StreamHeader(Sh, count, crc(shBody)) + shBody));
  }

  lemma HeaderThenBody(kind: Kind, count: U32, crc: Crc, body: Bytes)
    requires Records(body, kind.Stride(), count)
    ensures var stream := StreamHeader(kind, count, crc(body)) + body;
            |stream| >= HEADER && stream[HEADER..] == body && ValidStream(stream, kind, count, crc)
  {
    HeaderExact(seq(HEADER, _ => 0), kind, count, crc(body));
    hide StreamHeader;
    var stream := StreamHeader(kind, count, crc(body)) + body;
    assert stream[HEADER..] == body && stream[..HEADER] == StreamHeader(kind, count, crc(body));
  }

  // ----- Join -----

  /** The checks on one stream, field by field. */
  method ValidateStream(content: Bytes, kind: Kind, count: nat, crc: Crc) returns (r: Option<Bytes>)
    ensures r.Some? <==> ValidStream(content, kind, count, crc)
    ensures r.Some? ==> r.value == content[HEADER..] && Records(r.value, kind.Stride(), count)
  {
    hide StreamHeader, StreamFields;
    if |content| != HEADER + count * kind.Stride() {
      return None;
    }
    var actual := crc(content[HEADER..]);
    CountField(content, kind, count, actual);
    if !StreamFields(content, kind, count, actual) {
      assert count < 0x1_0000_0000 ==> !ValidStream(content, kind, count, crc) by {
        if count < 0x1_0000_0000 {
          HeaderExact(content, kind, count, actual);
        }
      }
      return None;
    }
    HeaderExact(content, kind, count, actual);
    return Some(content[HEADER..]);
  }

  lemma CountField(content: Bytes, kind: Kind, count: nat, crc: nat)
    requires |content| >= HEADER
    ensures StreamFields(content, kind, count, crc) ==> count < 0x1_0000_0000
  {
    UnpackBound(content[16..20]);
    Powers();
  }

  /** The payload rebuilt from the base stream and, when present, the harmonics stream. */
  method JoinQ96Payload(base: Bytes, sh: Option<Bytes>, count: nat, crc: Crc) returns (r: Option<Bytes>)
    ensures r.Some? <==> ValidStream(base, Base, count, crc) && (sh.Some? ==> ValidStream(sh.value, Sh, count, crc))
    ensures r.Some? && sh.Some? ==> JoinOf(r.value, base, sh.value, count, crc)
    ensures r.Some? && sh.None? ==> Projects(r.value, base[HEADER..], Base, count)
    ensures r.Some? && sh.None? ==> ZeroHarmonics(r.value, count)
  {
    hide ValidStream;
    var geometry := ValidateStream(base, Base, count, crc);
    if geometry.None? {
      return None;
    }
    var result := new byte[count * RECORD](_ => 0);
    if sh.Some? {
      var harmonics := ValidateStream(sh.value, Sh, count, crc);
      if harmonics.None? {
        return None;
      }
      FillBase(result, geometry.value, count);
      FillHarmonics(result, harmonics.value, geometry.value, count);
    } else {
      ghost var zero := result[..];
      FillBase(result, geometry.value, count);
      StillZero(zero, result[..], count);
    }
    return Some(result[..]);
  }

  lemma StillZero(zero: Bytes, after: Bytes, count: nat)
    requires Records(zero, RECORD, count) && Records(after, RECORD, count)
    requires forall i | 0 <= i < |zero| :: zero[i] == 0
    requires forall r, c | 0 <= r < count && 28 <= c < 88 :: At(after, RECORD, count, r, c) == At(zero, RECORD, count, r, c)
    ensures ZeroHarmonics(after, count)
  {
  }

  method FillBase(result: array<byte>, geometry: Bytes, count: nat)
    requires result.Length == count * RECORD && Records(geometry, 36, count)
    modifies result
    ensures Projects(result[..], geometry, Base, count)
    ensures forall r, c | 0 <= r < count && 28 <= c < 88 ::
              At(result[..], RECORD, count, r, c) == At(old(result[..]), RECORD, count, r, c)
  {
    for src := 0 to 36
      invariant forall r, c | 0 <= r < count && 0 <= c < src ::
                  At(result[..], RECORD, count, r, BaseColumn(c)) == At(geometry, 36, count, r, c)
      invariant forall r, c | 0 <= r < count && 28 <= c < 88 ::
                  At(result[..], RECORD, count, r, c) == At(old(result[..]), RECORD, count, r, c)
    {
      CopyColumn(result, BaseColumn(src), RECORD, geometry, src, 36, count);
    }
  }

  lemma BaseCells(payload: Bytes, geometry: Bytes, count: nat)
    requires Projects(payload, geometry, Base, count)
    ensures forall r, c | 0 <= r < count && 0 <= c < 36 ::
              At(payload, RECORD, count, r, BaseColumn(c)) == At(geometry, 36, count, r, c)
  {
    forall r, c | 0 <= r < count && 0 <= c < 36
      ensures At(payload, RECORD, count, r, BaseColumn(c)) == At(geometry, 36, count, r, c)
    {
      assert CellsAgree(payload, geometry, Base, count, r, c);
    }
  }

  method FillHarmonics(result: array<byte>, harmonics: Bytes, ghost geometry: Bytes, count: nat)
    requires result.Length == count * RECORD && Records(harmonics, 60, count)
    requires Projects(result[..], geometry, Base, count)
    modifies result
    ensures Projects(result[..], geometry, Base, count) && Projects(result[..], harmonics, Sh, count)
  {
    BaseCells(result[..], geometry, count);
    for src := 0 to 60
      invariant forall r, c | 0 <= r < count && 0 <= c < src ::
                  At(result[..], RECORD, count, r, ShColumn(c)) == At(harmonics, 60, count, r, c)
      invariant forall r, c | 0 <= r < count && 0 <= c < 36 ::
                  At(result[..], RECORD, count, r, BaseColumn(c)) == At(geometry, 36, count, r, c)
    {
      CopyColumn(result, ShColumn(src), RECORD, harmonics, src, 60, count);
    }
  }

  // ----- The two directions are mutually inverse -----

  /** Joining the streams of an accepted pack gives back its payload, byte for byte. */
  lemma JoinInvertsSplit(content: Bytes, base: Bytes, sh: Bytes, payload: Bytes, crc: Crc)
    requires SplitOf(content, base, sh, crc)
    requires JoinOf(payload, base, sh, Count(content), crc)
    ensures payload == content[HEADER..]
  {
    hide Projects, Count, Field, StreamHeader;
    PayloadDetermined(payload, content[HEADER..], base[HEADER..], sh[HEADER..], Count(content));
  }

  /** Splitting a pack whose payload was joined from two validated streams returns those streams. */
  lemma SplitInvertsJoin(content: Bytes, base: Bytes, sh: Bytes, base': Bytes, sh': Bytes, crc: Crc)
    requires Canonical(content, crc) && JoinOf(content[HEADER..], base, sh, Count(content), crc)
    requires SplitOf(content, base', sh', crc)
    ensures base' == base && sh' == sh
  {
    var payload, count := content[HEADER..], Count(content);
    hide Canonical, Projects, Count, StreamHeader;
    StreamDetermined(payload, base[HEADER..], base'[HEADER..], Base, count);
    StreamDetermined(payload, sh[HEADER..], sh'[HEADER..], Sh, count);
    StreamIs(base, base', Base, count, crc);
    StreamIs(sh, sh', Sh, count, crc);
  }

  lemma StreamIs(a: Bytes, b: Bytes, kind: Kind, count: nat, crc: Crc)
    requires ValidStream(a, kind, count, crc) && ValidStream(b, kind, count, crc) && a[HEADER..] == b[HEADER..]
    ensures a == b
  {
    hide StreamHeader;
    assert a == a[..HEADER] + a[HEADER..] && b == b[..HEADER] + b[HEADER..];
  }

  // ----- Virtual packs -----

  datatype PackEntry = PackEntry(header: Bytes, recordCount: nat, byteLength: nat, sha256: string)

  /** The checks on a stream-only pack description. */
  predicate ValidVirtualHeader(pack: PackEntry) {
    && |pack.header| == HEADER && pack.header[..8] == PACK_MAGIC
    && Field(pack.header, 8, 2) == 1 && Field(pack.header, 10, 2) == 32 && Field(pack.header, 12, 2) == 96
    && Field(pack.header, 14, 2) == 0 && Field(pack.header, 16, 4) == pack.recordCount
  }

  /** The canonical bytes of a pack that is stored only as its header and its two streams. */
  method ReadVirtualPack(pack: PackEntry, base: Bytes, sh: Bytes, crc: Crc, sha256: Bytes -> string)
    returns (r: Option<Bytes>)
    ensures r.Some? && pack.recordCount >= 1 ==>
              && Canonical(r.value, crc) && SplitOf(r.value, base, sh, crc)
              && r.value[..HEADER] == pack.header && sha256(r.value) == pack.sha256 && |r.value| == pack.byteLength
    ensures forall content | DescribedBy(pack, content, base, sh, crc, sha256) :: r == Some(content)
  {
    hide Canonical, ValidStream, Projects, SplitOf;
    if !ValidVirtualHeader(pack) {
      forall content ensures !DescribedBy(pack, content, base, sh, crc, sha256) {
        DescribedHeader(pack, content, base, sh, crc, sha256);
      }
      return None;
    }
    var payload := JoinQ96Payload(base, Some(sh), pack.recordCount, crc);
    if payload.None? {
      forall content ensures !DescribedBy(pack, content, base, sh, crc, sha256) {
        DescribedHeader(pack, content, base, sh, crc, sha256);
      }
      return None;
    }
    var content := pack.header + payload.value;
    assert content[..HEADER] == pack.header && content[HEADER..] == payload.value;
    forall original | DescribedBy(pack, original, base, sh, crc, sha256) ensures original == content {
      DescribedHeader(pack, original, base, sh, crc, sha256);
      JoinInvertsSplit(original, base, sh, payload.value, crc);
      assert original == original[..HEADER] + original[HEADER..];
    }
    if |content| != pack.byteLength || sha256(content) != pack.sha256 {
      return None;
    }
    if crc(payload.value) != Field(content, 28, 4) {
      forall original | DescribedBy(pack, original, base, sh, crc, sha256) ensures false {
        DescribedHeader(pack, original, base, sh, crc, sha256);
      }
      return None;
    }
    Reconstructed(pack, content, base, sh, crc);
    return Some(content);
  }

  /** The pack entry was written for this content, and its streams are the split of it. */
  ghost predicate DescribedBy(pack: PackEntry, content: Bytes, base: Bytes, sh: Bytes, crc: Crc, sha256: Bytes -> string) {
    && SplitOf(content, base, sh, crc)
    && pack == PackEntry(content[..HEADER], Count(content), |content|, sha256(content))
  }

  lemma DescribedHeader(pack: PackEntry, content: Bytes, base: Bytes, sh: Bytes, crc: Crc, sha256: Bytes -> string)
    ensures DescribedBy(pack, content, base, sh, crc, sha256) ==>
              && ValidVirtualHeader(pack) && |content| >= HEADER
              && pack.recordCount == Count(content)
              && ValidStream(base, Base, pack.recordCount, crc) && ValidStream(sh, Sh, pack.recordCount, crc)
              && crc(content[HEADER..]) == Field(content, 28, 4)
  {
    hide ValidStream, Projects;
    if DescribedBy(pack, content, base, sh, crc, sha256) {
      var h := content[..HEADER];
      assert h[..8] == content[..8] && h[8..10] == content[8..10] && h[10..12] == content[10..12]
          && h[12..14] == content[12..14] && h[14..16] == content[14..16] && h[16..20] == content[16..20];
    }
  }

  lemma Reconstructed(pack: PackEntry, content: Bytes, base: Bytes, sh: Bytes, crc: Crc)
    requires ValidVirtualHeader(pack) && |content| >= HEADER && content[..HEADER] == pack.header
    requires ValidStream(base, Base, pack.recordCount, crc) && ValidStream(sh, Sh, pack.recordCount, crc)
    requires Projects(content[HEADER..], base[HEADER..], Base, pack.recordCount)
    requires Projects(content[HEADER..], sh[HEADER..], Sh, pack.recordCount)
    requires crc(content[HEADER..]) == Field(content, 28, 4)
    ensures pack.recordCount >= 1 ==> Canonical(content, crc) && SplitOf(content, base, sh, crc)
  {
    hide ValidStream, Unpack;
    var h := content[..HEADER];
    assert h[..8] == content[..8] && h[8..10] == content[8..10] && h[10..12] == content[10..12]
        && h[12..14] == content[12..14] && h[14..16] == content[14..16] && h[16..20] == content[16..20];
  }
}
