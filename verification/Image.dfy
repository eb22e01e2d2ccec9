/**
 * The update image: its place in flash, what src/main.c demands of it, and the bytes that
 * tools/image_pack.py writes.
 */
module Image {
  import opened Words
  import opened Crc32

  datatype Option<+T> = None | Some(value: T)

  // ----- flash layout, as offsets from 0x08000000 -----------------------------------------

  const SECTOR_SIZE: nat := 0x2000
  const APP_START_SECTOR: nat := 8
  const APP_NUM_SECTORS: nat := 119
  const APP: nat := 0x10000
  const CONFIG: nat := 0xFE000
  const BANK2: nat := 0x100000
  const FLASH_SIZE: nat := 0x200000
  const HEADER_SIZE: nat := 64
  const MAX_PAYLOAD: nat := 0xEE000
  const QUAD_WORD: nat := 16

  lemma LayoutFits()
    ensures APP == APP_START_SECTOR * SECTOR_SIZE
    ensures MAX_PAYLOAD == APP_NUM_SECTORS * SECTOR_SIZE
    ensures APP + MAX_PAYLOAD == CONFIG
    ensures BANK2 + HEADER_SIZE + MAX_PAYLOAD + 4 <= FLASH_SIZE
  {
  }

  /** Two banks of 128 sectors; in the first, eight for the boot loader, 119 for the application, one for its settings. */
  lemma Layout()
    ensures SECTOR_SIZE == 8192 && FLASH_SIZE == 2 * 128 * SECTOR_SIZE && BANK2 == 128 * SECTOR_SIZE
    ensures APP == 8 * SECTOR_SIZE && CONFIG == 127 * SECTOR_SIZE && CONFIG - APP == 119 * SECTOR_SIZE
    ensures QUAD_WORD == 16 && HEADER_SIZE == 64
  {
  }

  // ----- what the boot loader accepts ------------------------------------------------------------

  /** Payload size and stored payload CRC of an accepted image. */
  datatype Job = Job(size: nat, crc: bv32)

  /** A little-endian 32-bit word in memory. */
  function WordAt(mem: seq<bv8>, at: nat): bv32
    requires at + 4 <= |mem|
  {
    Load32LE(mem[at], mem[at + 1], mem[at + 2], mem[at + 3])
  }

  /** The checks handleOtaUpdate makes on Bank 2 before it touches Bank 1. */
  function Inspect(bank2: seq<bv8>): (r: Option<Job>)
    requires |bank2| == FLASH_SIZE - BANK2
    ensures r.Some? ==> 0 < r.value.size <= MAX_PAYLOAD
  {
    var size := FromLittleEndian(bank2[13..17]);
    if Crc(bank2[..60]) != WordAt(bank2, 60) then None
    else if size == 0 || size > MAX_PAYLOAD then None
    else if bank2[8] != 0 then None
    else
      var crc := WordAt(bank2, HEADER_SIZE + size);
      if Crc(bank2[HEADER_SIZE..HEADER_SIZE + size]) != crc then None else Some(Job(size, crc))
  }

  /** The payload bytes of an accepted image. */
  function Payload(bank2: seq<bv8>, size: nat): (p: seq<bv8>)
    requires |bank2| == FLASH_SIZE - BANK2 && size <= MAX_PAYLOAD
    ensures |p| == size
  {
    bank2[HEADER_SIZE..HEADER_SIZE + size]
  }

  lemma InspectAccepts(bank2: seq<bv8>, job: Job)
    requires |bank2| == FLASH_SIZE - BANK2
    requires Inspect(bank2) == Some(job)
    ensures Crc(Payload(bank2, job.size)) == job.crc
  {
    hide Crc, WordAt, FromLittleEndian;
  }

  // ----- what is accepted, and what is not --------------------------------------------------------------

  /** The payload size a header states. */
  function StatedSize(bank2: seq<bv8>): nat
    requires |bank2| == FLASH_SIZE - BANK2
  {
    FromLittleEndian(bank2[13..17])
  }

  lemma WordStored(mem: seq<bv8>, at: nat)
    requires at + 4 <= |mem|
    ensures Store32LE(WordAt(mem, at)) == mem[at..at + 4]
  {
    StoreLoad32LE(mem[at], mem[at + 1], mem[at + 2], mem[at + 3]);
    hide Store32LE, Load32LE;
  }

  /** Bytes from lo followed by their CRC at hi have the CRC zero, and nothing else does. */
  lemma CheckedPart(mem: seq<bv8>, lo: nat, hi: nat)
    requires lo <= hi && hi + 4 <= |mem|
    ensures Crc(mem[lo..hi]) == WordAt(mem, hi) <==> Crc(mem[lo..hi + 4]) == 0
  {
    WordStored(mem, hi);
    ResidueZero(PRESET, mem[lo..hi], WordAt(mem, hi));
    hide WordAt, Store32LE, Digest;
    assert mem[lo..hi] + mem[hi..hi + 4] == mem[lo..hi + 4];
  }

  /**
   * An image is accepted exactly when the header of 64 bytes and the payload with its four bytes both
   * have the CRC zero, the type is zero, and the size is that of a payload that fits.
   */
  lemma AcceptedIff(bank2: seq<bv8>)
    requires |bank2| == FLASH_SIZE - BANK2
    ensures Inspect(bank2).Some? <==>
      && Crc(bank2[..64]) == 0 && bank2[8] == 0 && 1 <= StatedSize(bank2) <= 974_848
      && Crc(bank2[64..68 + StatedSize(bank2)]) == 0
    ensures Inspect(bank2).Some? ==> Inspect(bank2).value.size == StatedSize(bank2)
  {
    hide Crc, WordAt, FromLittleEndian;
    LayoutFits();
    CheckedPart(bank2, 0, 60);
    assert bank2[0..60] == bank2[..60] && bank2[0..64] == bank2[..64];
    if StatedSize(bank2) <= MAX_PAYLOAD {
      CheckedPart(bank2, 64, 64 + StatedSize(bank2));
    }
  }

  /** An image of another type is not for this slot. */
  lemma OtherTypeRejected(bank2: seq<bv8>)
    requires |bank2| == FLASH_SIZE - BANK2 && bank2[8] != 0
    ensures Inspect(bank2) == None
  {
    AcceptedIff(bank2);
    hide Crc, Inspect, StatedSize;
  }

  /** All damage lies inside some 32 consecutive bits. */
  ghost predicate Burst(a: seq<bv8>, b: seq<bv8>)
  {
    |a| == |b| && a != b && exists lo: nat :: BurstAt(a, b, lo)
  }

  ghost predicate BurstAt(a: seq<bv8>, b: seq<bv8>, lo: nat)
    requires |a| == |b|
  {
    forall k :: 0 <= k < 8 * |a| && !(lo <= k < lo + 32) ==> MessageBits(a)[k] == MessageBits(b)[k]
  }

  lemma BurstChangesCrc(a: seq<bv8>, b: seq<bv8>)
    requires Burst(a, b)
    ensures Crc(a) != Crc(b)
  {
    hide Crc, MessageBits;
    var lo: nat :| BurstAt(a, b, lo);
    BurstDetected(a, b, lo);
  }

  /** A good header damaged by a burst anywhere in its 64 bytes is rejected, whatever follows it. */
  lemma DamagedHeaderRejected(good: seq<bv8>, bank2: seq<bv8>)
    requires |good| == |bank2| == FLASH_SIZE - BANK2
    requires Inspect(good).Some? && Burst(good[..64], bank2[..64])
    ensures Inspect(bank2) == None
  {
    AcceptedIff(good);
    AcceptedIff(bank2);
    hide Crc, Inspect, StatedSize, Burst;
    BurstChangesCrc(good[..64], bank2[..64]);
  }

  lemma SameSize(a: seq<bv8>, b: seq<bv8>)
    requires |a| == |b| == FLASH_SIZE - BANK2 && a[..64] == b[..64]
    ensures StatedSize(a) == StatedSize(b)
  {
    assert a[13..17] == a[..64][13..17] && b[13..17] == b[..64][13..17];
  }

  /** So is a good image with a burst anywhere in its payload or the word behind it. */
  lemma DamagedPayloadRejected(good: seq<bv8>, bank2: seq<bv8>)
    requires |good| == |bank2| == FLASH_SIZE - BANK2
    requires Inspect(good).Some? && good[..64] == bank2[..64]
    requires var n := 68 + Inspect(good).value.size; Burst(good[64..n], bank2[64..n])
    ensures Inspect(bank2) == None
  {
    hide Crc, Inspect, Burst, StatedSize;
    AcceptedIff(good);
    AcceptedIff(bank2);
    SameSize(good, bank2);
    var n := 68 + StatedSize(good);
    BurstChangesCrc(good[64..n], bank2[64..n]);
  }

  // ----- tools/image_pack.py ------------------------------------------------------------------------

  datatype Version = Version(major: int, minor: int, revision: int, build: int)

  /** struct.pack refuses a value that does not fit its field. */
  predicate FieldsInRange(payloadSize: int, index: int, version: Version, timestamp: int) {
    && 0 <= payloadSize < 0x1_0000_0000
    && 0 <= index < 0x1_0000_0000
    && 0 <= version.major < 256
    && 0 <= version.minor < 256
    && 0 <= version.revision < 0x1_0000
    && 0 <= version.build < 0x1_0000_0000
    && 0 <= timestamp < 0x1_0000_0000_0000_0000
  }

  /** The first 60 bytes of build_image_header's result. */
  function HeaderBody(payloadSize: nat, index: nat, version: Version, timestamp: nat): (s: seq<bv8>)
    requires FieldsInRange(payloadSize, index, version, timestamp)
    ensures |s| == 60
  {
    LittleEndian(0x00010300, 4) + LittleEndian(index, 4) + [0] + LittleEndian(0, 4)
    + LittleEndian(payloadSize, 4) + LittleEndian(payloadSize, 4)
    + [version.major as bv8] + [version.minor as bv8]
    + LittleEndian(version.revision, 2) + LittleEndian(version.build, 4)
    + LittleEndian(timestamp, 8) + Repeat(0, 23)
  }

  /** build_image_header */
  function BuildHeader(payloadSize: int, index: int, version: Version, timestamp: int): Option<seq<bv8>> {
    if !FieldsInRange(payloadSize, index, version, timestamp) then None
    else
      var body := HeaderBody(payloadSize, index, version, timestamp);
      Some(body + Store32LE(Crc(body)))
  }

  /** The file main writes; it stops early on an empty payload. */
  function PackImage(payload: seq<bv8>, index: int, version: Version, timestamp: int): Option<seq<bv8>> {
    if payload == [] then None
    else
      match BuildHeader(|payload|, index, version, timestamp)
      case None => None
      case Some(header) => Some(header + payload + Store32LE(Crc(payload)))
  }

  lemma WordReadBack(mem: seq<bv8>, at: nat, w: bv32)
    requires at + 4 <= |mem| && mem[at..at + 4] == Store32LE(w)
    ensures WordAt(mem, at) == w
  {
    LoadStore32LE(w);
    var s := mem[at..at + 4];
    assert s[0] == mem[at] && s[1] == mem[at + 1] && s[2] == mem[at + 2] && s[3] == mem[at + 3];
    hide ByteOf, Load32LE;
  }

  /** Every field of the packed header reads back little-endian from its place, and the reserved bytes are zero. */
  lemma HeaderReadsBack(payloadSize: nat, index: nat, version: Version, timestamp: nat)
    requires FieldsInRange(payloadSize, index, version, timestamp)
    ensures var h := HeaderBody(payloadSize, index, version, timestamp);
            && FromLittleEndian(h[0..4]) == 0x00010300 && FromLittleEndian(h[4..8]) == index
            && h[8] == 0 && FromLittleEndian(h[9..13]) == 0
            && FromLittleEndian(h[13..17]) == payloadSize && FromLittleEndian(h[17..21]) == payloadSize
            && IntOfByte(h[21]) == version.major && IntOfByte(h[22]) == version.minor
            && FromLittleEndian(h[23..25]) == version.revision && FromLittleEndian(h[25..29]) == version.build
            && FromLittleEndian(h[29..37]) == timestamp
            && forall i :: 37 <= i < 60 ==> h[i] == 0
  {
    Widths();
    ReadBack(0x00010300, 4);
    ReadBack(index, 4);
    ReadBack(0, 4);
    ReadBack(payloadSize, 4);
    ReadBack(version.revision, 2);
    ReadBack(version.build, 4);
    ReadBack(timestamp, 8);
    ByteBack(version.major);
    ByteBack(version.minor);
    hide LittleEndian, FromLittleEndian, Repeat, Pow256;
    HeaderParts(payloadSize, index, version, timestamp);
  }

  lemma Widths()
    ensures Pow256(2) == 0x1_0000 && Pow256(4) == 0x1_0000_0000 && Pow256(8) == 0x1_0000_0000_0000_0000
  {
  }

  /** The first 21 bytes and the rest. */
  lemma HeaderHalves(payloadSize: nat, index: nat, version: Version, timestamp: nat)
    requires FieldsInRange(payloadSize, index, version, timestamp)
    ensures var h := HeaderBody(payloadSize, index, version, timestamp);
            && h[..21] == LittleEndian(0x00010300, 4) + LittleEndian(index, 4) + [0] + LittleEndian(0, 4)
                        + LittleEndian(payloadSize, 4) + LittleEndian(payloadSize, 4)
            && h[21..] == [version.major as bv8] + [version.minor as bv8] + LittleEndian(version.revision, 2)
                        + LittleEndian(version.build, 4) + LittleEndian(timestamp, 8) + Repeat(0, 23)
  {
    hide LittleEndian, Repeat;
  }

  lemma FirstFields(h: seq<bv8>, a: seq<bv8>, b: seq<bv8>, c: seq<bv8>, d: seq<bv8>, e: seq<bv8>)
    requires |h| == 60 && |a| == |b| == |c| == |d| == |e| == 4 && h[..21] == a + b + [0] + c + d + e
    ensures h[0..4] == a && h[4..8] == b && h[8] == 0 && h[9..13] == c && h[13..17] == d && h[17..21] == e
  {
    var s := h[..21];
    assert s[0..4] == a && s[4..8] == b && s[8] == 0 && s[9..13] == c && s[13..17] == d && s[17..21] == e;
  }

  lemma LastFields(h: seq<bv8>, x: bv8, y: bv8, a: seq<bv8>, b: seq<bv8>, c: seq<bv8>)
    requires |h| == 60 && |a| == 2 && |b| == 4 && |c| == 8 && h[21..] == [x] + [y] + a + b + c + Repeat(0, 23)
    ensures h[21] == x && h[22] == y && h[23..25] == a && h[25..29] == b && h[29..37] == c
    ensures forall i :: 37 <= i < 60 ==> h[i] == 0
  {
    var s := h[21..];
    assert s[0] == x && s[1] == y && s[2..4] == a && s[4..8] == b && s[8..16] == c;
    assert forall i :: 37 <= i < 60 ==> h[i] == s[i - 21];
  }

  lemma HeaderParts(payloadSize: nat, index: nat, version: Version, timestamp: nat)
    requires FieldsInRange(payloadSize, index, version, timestamp)
    ensures var h := HeaderBody(payloadSize, index, version, timestamp);
            && h[0..4] == LittleEndian(0x00010300, 4) && h[4..8] == LittleEndian(index, 4)
            && h[8] == 0 && h[9..13] == LittleEndian(0, 4)
            && h[13..17] == LittleEndian(payloadSize, 4) && h[17..21] == LittleEndian(payloadSize, 4)
            && h[21] == version.major as bv8 && h[22] == version.minor as bv8
            && h[23..25] == LittleEndian(version.revision, 2) && h[25..29] == LittleEndian(version.build, 4)
            && h[29..37] == LittleEndian(timestamp, 8)
            && forall i :: 37 <= i < 60 ==> h[i] == 0
  {
    hide LittleEndian, Repeat, HeaderBody;
    HeaderHalves(payloadSize, index, version, timestamp);
    var h := HeaderBody(payloadSize, index, version, timestamp);
    FirstFields(h, LittleEndian(0x00010300, 4), LittleEndian(index, 4), LittleEndian(0, 4),
                LittleEndian(payloadSize, 4), LittleEndian(payloadSize, 4));
    LastFields(h, version.major as bv8, version.minor as bv8, LittleEndian(version.revision, 2),
               LittleEndian(version.build, 4), LittleEndian(timestamp, 8));
  }

  /**
   * The packer and the boot loader agree: an image placed at the start of Bank 2 is accepted,
   * with exactly the packed payload, if and only if the payload fits the application region.
   */
  lemma PackedImageAccepted(payload: seq<bv8>, index: int, version: Version, timestamp: int, bank2: seq<bv8>)
    requires |bank2| == FLASH_SIZE - BANK2
    requires PackImage(payload, index, version, timestamp).Some?
    requires PackImage(payload, index, version, timestamp).value <= bank2
    ensures Inspect(bank2).Some? <==> |payload| <= MAX_PAYLOAD
    ensures |payload| <= MAX_PAYLOAD ==>
      Inspect(bank2) == Some(Job(|payload|, Crc(payload))) && Payload(bank2, |payload|) == payload
  {
    hide Crc, WordAt, FromLittleEndian, LittleEndian, HeaderBody, Store32LE;
    var image := PackImage(payload, index, version, timestamp).value;
    var n := |payload|;
    assert FieldsInRange(n, index, version, timestamp);
    var body := HeaderBody(n, index, version, timestamp);
    SliceOfPrefix(image, bank2, 0, 60);
    SliceOfPrefix(image, bank2, 60, 64);
    HeaderParts(n, index, version, timestamp);
    assert bank2[..60] == body;
    assert bank2[13..17] == body[13..17] && bank2[8] == body[8];
    PayloadSizeReadBack(n, index, version, timestamp);
    WordReadBack(bank2, 60, Crc(body));
    if n <= MAX_PAYLOAD {
      SliceOfPrefix(image, bank2, 64, 64 + n);
      SliceOfPrefix(image, bank2, 64 + n, 64 + n + 4);
      assert bank2[64..64 + n] == payload;
      assert image[64 + n..64 + n + 4] == Store32LE(Crc(payload));
      WordReadBack(bank2, 64 + n, Crc(payload));
    }
  }

  lemma PayloadSizeReadBack(n: nat, index: int, version: Version, timestamp: int)
    requires FieldsInRange(n, index, version, timestamp)
    ensures FromLittleEndian(LittleEndian(n, 4)) == n
  {
    assert n < Pow256(4);
    hide LittleEndian, FromLittleEndian;
    ReadBack(n, 4);
  }

  lemma SliceOfPrefix(s: seq<bv8>, t: seq<bv8>, lo: nat, hi: nat)
    requires s <= t && lo <= hi <= |s|
    ensures t[lo..hi] == s[lo..hi]
  {
  }
}
