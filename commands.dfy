/** The dongle's command catalog: the 64-byte command templates, the
    number of 64-byte reports each command is answered with, and the byte
    patches the driver applies to a template before sending it. The
    `...Address` functions read a patched command back the way the dongle
    does, and the lemmas show that the patches encode the offsets the driver
    means. */
module Commands {
  import opened Bytes
  import opened Card

  /** HID reports carry a report id followed by 0x40 data bytes. */
  const REPORT_SIZE: nat := 0x40

  type Report = s: seq<byte> | |s| == REPORT_SIZE witness Zeros(REPORT_SIZE)

  // Number of reports the dongle sends back for each command.
  const FIRMWARE_REPORTS: nat := 3
  const GET_HEADER_REPORTS: nat := 10
  const START_TRANSFER_REPORTS: nat := 0
  const STOP_REPORTS: nat := 0
  const READ_DATA_REPORTS: nat := 8
  const WRITE_DATA_REPORTS: nat := 0
  const WRITE_LARGE_DATA_REPORTS: nat := 0
  const DESCRIBE_CARD_REPORTS: nat := 0

  /** Bytes per `write` chunk (`write_size`) and per read window. */
  const WRITE_SIZE: nat := 0x20
  const READ_WINDOW: nat := READ_DATA_REPORTS * REPORT_SIZE

  /** Saves above this size are "big": 3-byte offsets and 4 large writes. */
  const BIG_SAVE: int := 0xFFFF

  /** Above this size an NTR save also gets the stamped sub-blocks. */
  const STAMP_SAVE: int := 512 * 1024

  /** A C array initialiser: the listed bytes, the rest zero. */
  function Template(prefix: seq<byte>): (t: seq<byte>)
    requires |prefix| <= REPORT_SIZE
    ensures |t| == REPORT_SIZE && t[..|prefix|] == prefix
    ensures forall i :: |prefix| <= i < REPORT_SIZE ==> t[i] == 0
  {
    prefix + Zeros(REPORT_SIZE - |prefix|)
  }

  const FIRMWARE_CMD: seq<byte> := Template([0xA0, 0x00, 0x00])
  const GET_HEADER_CMD: seq<byte> := Template([0x22, 0x22, 0x00])
  const START_TRANSFER_CMD: seq<byte> := Template([0x11, 0x11])
  const STOP_CMD: seq<byte> := Template([0x2F, 0x2F, 0x00])
  const READ_DATA_CMD: seq<byte> := Template([0x33, 0x33, 0x03, 0x00, 0x00, 0x00])
  const WRITE_DATA_CMD: seq<byte> := Template([0x44, 0x44, 0x00, 0x0A])
  const WRITE_LARGE_DATA_CMD: seq<byte> := Template([0x64, 0x64, 0x00, 0x00])
  const DESCRIBE_CARD_CMD: seq<byte> := Template([0x66, 0x66, 0x00, 0x00, 0x00, 0x00, 0x00])

  /** The outbound HID report: report id 0, then the 64 command bytes. */
  function Outbound(cmd: seq<byte>): (r: seq<byte>)
    requires |cmd| == REPORT_SIZE
    ensures |r| == REPORT_SIZE + 1 && r[0] == 0 && r[1..] == cmd
  {
    [0] + cmd
  }

  // ---------------------------------------------------------------------
  // Describe card

  /** The bytes `transfer_init` stores in CMD_DESCRIBE_CARD: the card type,
      the save size in KiB (high byte, low byte; 1 for saves under 1 KiB)
      and the 0x55 0xAA block-write-enable pair for NTR cards that want it. */
  function DescribeCardPatch(t: seq<byte>, cardType: CardType, saveSize: int, weFlag: bool): (r: seq<byte>)
    requires |t| == REPORT_SIZE
    ensures |r| == REPORT_SIZE
  {
    var kib := CDiv(saveSize, 1024);
    var magic := cardType == NTR && weFlag;
    t[2 := CardTypeByte(cardType)]
     [3 := Low8(Shr(kib, 8))]
     [4 := if saveSize < 1024 then 1 else Low8(kib)]
     [5 := if magic then 0x55 else 0x00]
     [6 := if magic then 0xAA else 0x00]
  }

  /** The describe-card command as sent: the template with all of its
      variable bytes patched. */
  function DescribeCardCommand(cardType: CardType, saveSize: int, weFlag: bool): (r: seq<byte>)
    ensures |r| == REPORT_SIZE
  {
    DescribeCardPatch(DESCRIBE_CARD_CMD, cardType, saveSize, weFlag)
  }

  /** Patching a describe-card template whose unpatched bytes are intact
      gives the describe-card command: the patch overwrites all the rest. */
  lemma DescribePatchOfTemplate(t: seq<byte>, cardType: CardType, saveSize: int, weFlag: bool)
    requires |t| == REPORT_SIZE && t[0] == 0x66 && t[1] == 0x66
    requires forall i :: 7 <= i < REPORT_SIZE ==> t[i] == 0
    ensures DescribeCardPatch(t, cardType, saveSize, weFlag) == DescribeCardCommand(cardType, saveSize, weFlag)
  {
    var a := DescribeCardPatch(t, cardType, saveSize, weFlag);
    var b := DescribeCardCommand(cardType, saveSize, weFlag);
    assert forall i :: 0 <= i < REPORT_SIZE ==> a[i] == b[i];
  }

  /** A decoding of the save size, in KiB, from a describe-card command,
      under which the patch loses nothing (the device's own decoding is
      not documented by the driver). */
  function DescribedKiB(cmd: seq<byte>): int
    requires |cmd| == REPORT_SIZE
  {
    (cmd[3] as int) * 256 + cmd[4]
  }

  /** The size bytes of the describe-card command give back the save size in
      KiB for every save from 1 KiB up to 64 MiB, and 1 KiB for smaller ones;
      the card type byte and the magic pair are as documented. */
  lemma DescribeCardEncodesSize(cardType: CardType, saveSize: int, weFlag: bool)
    requires 0 <= saveSize < 0x400_0000
    ensures var cmd := DescribeCardCommand(cardType, saveSize, weFlag);
            && (saveSize >= 1024 ==> DescribedKiB(cmd) == saveSize / 1024)
            && (saveSize < 1024 ==> DescribedKiB(cmd) == 1)
            && cmd[2] == CardTypeByte(cardType)
            && (cmd[5] == 0x55 && cmd[6] == 0xAA <==> cardType == NTR && weFlag)
            && (cmd[5] == 0 && cmd[6] == 0 <==> !(cardType == NTR && weFlag))
  {
    var kib := saveSize / 1024;
    assert CDiv(saveSize, 1024) == kib;
    assert kib < 65536;
    assert Shr(kib, 8) == kib / 256 by { assert Pow2(8) == 256; }
    assert Low8(kib / 256) == kib / 256;
    assert kib == (kib / 256) * 256 + kib % 256;
  }

  // ---------------------------------------------------------------------
  // Read data

  /** The bytes `read` stores in CMD_READ_DATA: an addressing mode (3 for big
      saves) followed by the window offset. Byte 5 is never touched. */
  function ReadPatch(t: seq<byte>, big: bool, off: int): (r: seq<byte>)
    requires |t| == REPORT_SIZE
    ensures |r| == REPORT_SIZE
  {
    t[2 := if big then 0x03 else 0x00]
     [3 := if big then Low8(Shr(off, 16)) else 0x03]
     [4 := Low8(Shr(off, 8))]
  }

  /** The read command as sent for the window at `off`. */
  function ReadCommand(big: bool, off: int): (r: seq<byte>)
    ensures |r| == REPORT_SIZE
  {
    ReadPatch(READ_DATA_CMD, big, off)
  }

  /** Patching a read template whose unpatched bytes are intact gives the
      read command. */
  lemma ReadPatchOfTemplate(t: seq<byte>, big: bool, off: int)
    requires |t| == REPORT_SIZE && t[0] == 0x33 && t[1] == 0x33
    requires forall i :: 5 <= i < REPORT_SIZE ==> t[i] == 0
    ensures ReadPatch(t, big, off) == ReadCommand(big, off)
  {
    var a := ReadPatch(t, big, off);
    var b := ReadCommand(big, off);
    assert forall i :: 0 <= i < REPORT_SIZE ==> a[i] == b[i];
  }

  /** A decoding of the window a read command asks for, under which the
      patch loses nothing: three offset bytes in mode 3, otherwise the
      middle byte alone (the device's own decoding is not documented by
      the driver). */
  function ReadAddress(cmd: seq<byte>): int
    requires |cmd| == REPORT_SIZE
  {
    if cmd[2] == 0x03 then (cmd[3] as int) * 0x1_0000 + (cmd[4] as int) * 0x100 else (cmd[4] as int) * 0x100
  }

  /** A 256-aligned offset in range is recovered from the read command
      exactly: up to 16 MiB for big saves, up to 64 KiB otherwise. */
  lemma ReadCommandAddressesWindow(big: bool, off: int)
    requires 0 <= off && off % 0x100 == 0
    requires if big then off < 0x100_0000 else off < 0x1_0000
    ensures ReadAddress(ReadCommand(big, off)) == off
    ensures ReadCommand(big, off)[..2] == [0x33, 0x33] && ReadCommand(big, off)[5] == 0
  {
    assert Pow2(8) == 0x100;
    assert Pow2(16) == 0x1_0000 by { Pow2Add(8, 8); }
    assert off == (off / 0x1_0000) * 0x1_0000 + ((off / 0x100) % 0x100) * 0x100 by {
      DigitSplit(off);
    }
  }

  /** A 256-aligned number splits into its bits above 16 and its middle byte. */
  lemma DigitSplit(off: int)
    requires 0 <= off && off % 0x100 == 0
    ensures off == (off / 0x1_0000) * 0x1_0000 + ((off / 0x100) % 0x100) * 0x100
  {
    var m := off / 0x100;
    assert off == m * 0x100;
    assert m == (m / 0x100) * 0x100 + m % 0x100;
    assert m / 0x100 == off / 0x1_0000;
  }

  // ---------------------------------------------------------------------
  // Write data

  /** One stamped sub-block of CMD_WRITE_DATA (the loop body at offset
      4i+6): the constant 2, the high and middle offset bytes, and the low
      byte advanced by 32(i+1), wrapped to a byte. */
  function StampBlock(h: seq<byte>, i: nat): (r: seq<byte>)
    requires |h| == REPORT_SIZE && i < 3
    ensures |r| == REPORT_SIZE
  {
    var at := 4 * i + 6;
    h[at := 0x02][at + 1 := h[3]][at + 2 := h[4]][at + 3 := Low8(h[5] + (i + 1) * 32)]
  }

  /** A stamp writes its own sub-block and leaves every other byte alone. */
  lemma StampBlockKeeps(h: seq<byte>, i: nat)
    requires |h| == REPORT_SIZE && i < 3
    ensures var r := StampBlock(h, i);
            && r[4 * i + 6] == 0x02 && r[4 * i + 7] == h[3] && r[4 * i + 8] == h[4]
            && r[4 * i + 9] == Low8((h[5] as int) + (i + 1) * 32)
            && forall k :: 0 <= k < REPORT_SIZE && (k < 4 * i + 6 || 4 * i + 10 <= k) ==> r[k] == h[k]
  {
  }

  /** The first `n` sub-blocks stamped, in loop order. */
  function StampedBlocks(h: seq<byte>, n: nat): (r: seq<byte>)
    requires |h| == REPORT_SIZE && n <= 3
    ensures |r| == REPORT_SIZE
  {
    if n == 0 then h else StampBlock(StampedBlocks(h, n - 1), n - 1)
  }

  /** The stamping loop changes only the sub-blocks it has reached: the
      offset bytes before them and everything after them stay. */
  lemma {:induction false} StampedBlocksFrame(h: seq<byte>, n: nat)
    requires |h| == REPORT_SIZE && n <= 3
    ensures var r := StampedBlocks(h, n);
            forall k :: 0 <= k < REPORT_SIZE && (k < 6 || 6 + 4 * n <= k) ==> r[k] == h[k]
  {
    if n > 0 {
      StampedBlocksFrame(h, n - 1);
      StampBlockKeeps(StampedBlocks(h, n - 1), n - 1);
    }
  }

  /** The marker at bytes 18-25: D8 00 00 00 FE FD FB F8 on the very first
      chunk of a first pass, else 00 A5 5A at 18-20 and 55 at 25, leaving
      21-24 as they were. */
  function Marker(h: seq<byte>, first: bool): (r: seq<byte>)
    requires |h| == REPORT_SIZE
    ensures |r| == REPORT_SIZE
  {
    if first then h[18 := 0xD8][19 := 0x00][20 := 0x00][21 := 0x00][22 := 0xFE][23 := 0xFD][24 := 0xFB][25 := 0xF8]
    else h[18 := 0x00][19 := 0xA5][20 := 0x5A][25 := 0x55]
  }

  /** The offset bytes `write` stores in CMD_WRITE_DATA[1..5]. */
  function WriteOffsetPatch(t: seq<byte>, ctr: bool, saveSize: int, off: int): (r: seq<byte>)
    requires |t| == REPORT_SIZE
    ensures |r| == REPORT_SIZE
  {
    var big := saveSize > BIG_SAVE;
    t[1 := if big then 0x00 else 0x44]
     [2 := if ctr && big then 0x02 else if big then 0x0A else 0x00]
     [3 := if big then Low8(Shr(off, 16)) else 0x02]
     [4 := Low8(Shr(off, 8))]
     [5 := Low8(off)]
  }

  /** Whether `write` stamps the sub-blocks and the marker. */
  predicate Stamps(ctr: bool, saveSize: int)
  {
    ctr || saveSize > STAMP_SAVE
  }

  /** CMD_WRITE_DATA after `write` has prepared its header, before any data. */
  function WriteHeaderPatch(t: seq<byte>, ctr: bool, saveSize: int, firstPass: bool, off: int): (r: seq<byte>)
    requires |t| == REPORT_SIZE
    ensures |r| == REPORT_SIZE
  {
    var h := WriteOffsetPatch(t, ctr, saveSize, off);
    if Stamps(ctr, saveSize) then Marker(StampedBlocks(h, 3), firstPass && off == 0) else h
  }

  /** The three offset bytes at `at` read as one big-endian address: a
      decoding under which the write patches lose nothing. */
  function Address3(cmd: seq<byte>, at: nat): int
    requires at + 3 <= |cmd|
  {
    (cmd[at] as int) * 0x1_0000 + (cmd[at + 1] as int) * 0x100 + cmd[at + 2]
  }

  /** For a big save and a 128-aligned offset below 16 MiB, the write header
      addresses the chunk's offset and each stamped sub-block addresses the
      next 32-byte piece of the same 128-byte window. */
  lemma WriteHeaderAddressesWindow(t: seq<byte>, ctr: bool, saveSize: int, firstPass: bool, off: int)
    requires |t| == REPORT_SIZE
    requires saveSize > BIG_SAVE && Stamps(ctr, saveSize)
    requires 0 <= off < 0x100_0000 && off % 128 == 0
    ensures var r := WriteHeaderPatch(t, ctr, saveSize, firstPass, off);
            && Address3(r, 3) == off
            && forall i :: 0 <= i < 3 ==> r[4 * i + 6] == 0x02 && Address3(r, 4 * i + 7) == off + 32 * (i + 1)
  {
    var h := WriteOffsetPatch(t, ctr, saveSize, off);
    var r := WriteHeaderPatch(t, ctr, saveSize, firstPass, off);
    OffsetBytesAddress(t, ctr, saveSize, off);
    HeaderBlocks(t, ctr, saveSize, firstPass, off);
    assert Address3(r, 3) == Address3(h, 3);
    forall i | 0 <= i < 3
      ensures r[4 * i + 6] == 0x02 && Address3(r, 4 * i + 7) == off + 32 * (i + 1)
    {
      assert BlockStamped(r, h, i);
      AddressAdvance(h[3], h[4], h[5], r[4 * i + 7], r[4 * i + 8], r[4 * i + 9], 32 * (i + 1));
    }
  }

  /** An address whose low byte has room for `k` more advances by `k` when
      only its low byte is advanced, wrapped to a byte. */
  lemma AddressAdvance(a: byte, b: byte, c: byte, a1: byte, b1: byte, c1: byte, k: nat)
    requires a1 == a && b1 == b && c1 == Low8(c + k) && c + k < 0x100
    ensures (a1 as int) * 0x1_0000 + (b1 as int) * 0x100 + c1 == (a as int) * 0x1_0000 + (b as int) * 0x100 + c + k
  {
  }

  /** The stamped write header: bytes 0-5 as the offset patch left them,
      and each sub-block holding 2, the offset's high and middle bytes, and
      its low byte advanced by 32(i+1). */
  lemma HeaderBlocks(t: seq<byte>, ctr: bool, saveSize: int, firstPass: bool, off: int)
    requires |t| == REPORT_SIZE && Stamps(ctr, saveSize)
    ensures var h := WriteOffsetPatch(t, ctr, saveSize, off);
            var r := WriteHeaderPatch(t, ctr, saveSize, firstPass, off);
            && r[..6] == h[..6]
            && forall i :: 0 <= i < 3 ==> BlockStamped(r, h, i)
  {
    var h := WriteOffsetPatch(t, ctr, saveSize, off);
    var s := StampedBlocks(h, 3);
    var r := WriteHeaderPatch(t, ctr, saveSize, firstPass, off);
    assert r == Marker(s, firstPass && off == 0);
    StampedBlocksFrame(h, 3);
    MarkerKeepsBlocks(s, firstPass && off == 0);
    StampedBlocksBytes(h, 3);
    forall i | 0 <= i < 3
      ensures BlockStamped(r, h, i)
    {
      assert BlockStamped(s, h, i);
    }
  }

  /** The marker leaves the header and the sub-blocks alone. */
  lemma MarkerKeepsBlocks(s: seq<byte>, first: bool)
    requires |s| == REPORT_SIZE
    ensures forall i :: 0 <= i < 18 ==> Marker(s, first)[i] == s[i]
  {
  }

  /** Bytes 3-5 of a big write command hold the offset, and its low byte
      leaves room for three more 32-byte steps when the offset is
      128-aligned. */
  lemma OffsetBytesAddress(t: seq<byte>, ctr: bool, saveSize: int, off: int)
    requires |t| == REPORT_SIZE && saveSize > BIG_SAVE
    requires 0 <= off < 0x100_0000 && off % 128 == 0
    ensures var h := WriteOffsetPatch(t, ctr, saveSize, off);
            Address3(h, 3) == off && h[5] == off % 0x100 && h[5] + 96 < 0x100
  {
    var h := WriteOffsetPatch(t, ctr, saveSize, off);
    assert Pow2(8) == 0x100;
    assert Pow2(16) == 0x1_0000 by { Pow2Add(8, 8); }
    assert Address3(h, 3) == off by {
      ByteSplit(off);
    }
  }

  /** Sub-block `i` of `r` holds 2, the high and middle offset bytes of
      `h`, and the low byte of `h` advanced by 32(i+1). */
  predicate BlockStamped(r: seq<byte>, h: seq<byte>, i: nat)
    requires |r| == REPORT_SIZE && |h| == REPORT_SIZE && i < 3
  {
    && r[4 * i + 6] == 0x02 && r[4 * i + 7] == h[3] && r[4 * i + 8] == h[4]
    && r[4 * i + 9] == Low8((h[5] as int) + (i + 1) * 32)
  }

  /** After `n` loop rounds, every sub-block `i < n` is stamped from the
      header's offset bytes, which the loop does not touch. */
  lemma {:induction false} StampedBlocksBytes(h: seq<byte>, n: nat)
    requires |h| == REPORT_SIZE && n <= 3
    ensures forall i :: 0 <= i < n ==> BlockStamped(StampedBlocks(h, n), h, i)
  {
    if n > 0 {
      StampedBlocksBytes(h, n - 1);
      var prev := StampedBlocks(h, n - 1);
      var r := StampedBlocks(h, n);
      assert r == StampBlock(prev, n - 1);
      assert prev[3] == h[3] && prev[4] == h[4] && prev[5] == h[5] by {
        StampedBlocksFrame(h, n - 1);
      }
      StampBlockKeeps(prev, n - 1);
      forall i | 0 <= i < n
        ensures BlockStamped(r, h, i)
      {
        if i < n - 1 {
          assert BlockStamped(prev, h, i);
        }
      }
    }
  }

  /** A number below 2^24 is its three bytes. */
  lemma ByteSplit(off: int)
    requires 0 <= off < 0x100_0000
    ensures off == ((off / 0x1_0000) % 0x100) * 0x1_0000 + ((off / 0x100) % 0x100) * 0x100 + off % 0x100
  {
    var m := off / 0x100;
    assert off == m * 0x100 + off % 0x100;
    assert m == (m / 0x100) * 0x100 + m % 0x100;
    assert m / 0x100 == off / 0x1_0000;
  }

  /** The marker distinguishes the first chunk of a first pass; the later
      marker leaves bytes 21-24 as the previous command had them. */
  lemma WriteMarkerBytes(t: seq<byte>, ctr: bool, saveSize: int, firstPass: bool, off: int)
    requires |t| == REPORT_SIZE && Stamps(ctr, saveSize)
    ensures var r := WriteHeaderPatch(t, ctr, saveSize, firstPass, off);
            && (firstPass && off == 0 ==> r[18..26] == [0xD8, 0x00, 0x00, 0x00, 0xFE, 0xFD, 0xFB, 0xF8])
            && (!(firstPass && off == 0) ==> r[18..21] == [0x00, 0xA5, 0x5A] && r[25] == 0x55 && r[21..25] == t[21..25])
  {
    var h := WriteOffsetPatch(t, ctr, saveSize, off);
    var s := StampedBlocks(h, 3);
    StampedBlocksFrame(h, 3);
    assert forall i :: 21 <= i < 25 ==> s[i] == t[i] by {
      assert forall i :: 6 <= i < REPORT_SIZE ==> h[i] == t[i];
    }
    var first := firstPass && off == 0;
    var r := Marker(s, first);
    if !first {
      assert forall i :: 21 <= i < 25 ==> r[i] == s[i];
      assert r[21..25] == t[21..25];
    }
  }

  /** For a save of at most 64 KiB, bytes 4 and 5 of the write command hold
      the offset and byte 3 is the constant 2. */
  lemma SmallWriteAddressesChunk(t: seq<byte>, ctr: bool, saveSize: int, firstPass: bool, off: int)
    requires |t| == REPORT_SIZE
    requires saveSize <= BIG_SAVE && 0 <= off < 0x1_0000
    ensures var r := WriteHeaderPatch(t, ctr, saveSize, firstPass, off);
            r[1] == 0x44 && r[2] == 0x00 && r[3] == 0x02 && (r[4] as int) * 0x100 + r[5] == off
  {
    assert Pow2(8) == 0x100;
    var h := WriteOffsetPatch(t, ctr, saveSize, off);
    assert (h[4] as int) * 0x100 + h[5] == off;
    if Stamps(ctr, saveSize) {
      var s := StampedBlocks(h, 3);
      StampedBlocksFrame(h, 3);
    }
  }

  /** CMD_WRITE_LARGE_DATA for sub-chunk `i`: bytes 2 and 3 hold the index
      and the chunk read from the stream lands at byte 4. */
  function LargePatch(t: seq<byte>, i: byte, chunk: seq<byte>): (r: seq<byte>)
    requires |t| == REPORT_SIZE && |chunk| <= WRITE_SIZE
    ensures |r| == REPORT_SIZE
  {
    Overlay(t[2 := i][3 := i], 4, chunk)
  }

  /** A large-write command keeps the opcode bytes, carries the index in
      bytes 2 and 3 and the chunk from byte 4, and leaves the rest of the
      previous command in place (a short chunk does not clear it). */
  lemma LargePatchCarries(t: seq<byte>, i: byte, chunk: seq<byte>)
    requires |t| == REPORT_SIZE && |chunk| <= WRITE_SIZE
    ensures var r := LargePatch(t, i, chunk);
            && r[..2] == t[..2] && r[2] == i && r[3] == i
            && r[4..4 + |chunk|] == chunk && r[4 + |chunk|..] == t[4 + |chunk|..]
  {
  }

  /** The last of the commands `fs`, or the template `t` before any. */
  function LastOr(t: seq<byte>, fs: seq<seq<byte>>): seq<byte>
  {
    if fs == [] then t else fs[|fs| - 1]
  }

  /** The first `n` large-write commands of one `write` call: each patches
      the template as the previous one left it, with the next 32 bytes of
      `src` from position `p`. */
  function LargeFrames(t: seq<byte>, src: seq<byte>, p: nat, n: nat): (fs: seq<seq<byte>>)
    requires |t| == REPORT_SIZE && n <= 4
    ensures |fs| == n && |LastOr(t, fs)| == REPORT_SIZE
    ensures forall j :: 0 <= j < n ==> |fs[j]| == REPORT_SIZE
  {
    if n == 0 then []
    else
      var prev := LargeFrames(t, src, p, n - 1);
      prev + [LargePatch(LastOr(t, prev), n - 1, Slice(src, p + (n - 1) * WRITE_SIZE, WRITE_SIZE))]
  }

  /** The large-write commands one `write` sends: four for a big save,
      none otherwise. */
  function ChunkFrames(t: seq<byte>, src: seq<byte>, p: nat, saveSize: int): (fs: seq<seq<byte>>)
    requires |t| == REPORT_SIZE
    ensures |fs| == (if saveSize > BIG_SAVE then 4 else 0) && |LastOr(t, fs)| == REPORT_SIZE
    ensures forall j :: 0 <= j < |fs| ==> |fs[j]| == REPORT_SIZE
  {
    if saveSize > BIG_SAVE then LargeFrames(t, src, p, 4) else []
  }

  /** CMD_WRITE_DATA as `write` commits it: the prepared header, and for a
      small save the 32 source bytes at `p` from byte 6. */
  function WriteCommand(t: seq<byte>, ctr: bool, saveSize: int, firstPass: bool, off: int, src: seq<byte>, p: nat): (r: seq<byte>)
    requires |t| == REPORT_SIZE
    ensures |r| == REPORT_SIZE
  {
    var h := WriteHeaderPatch(t, ctr, saveSize, firstPass, off);
    if saveSize > BIG_SAVE then h else Overlay(h, 6, Slice(src, p, WRITE_SIZE))
  }

  /** The committed write command keeps the offset bytes 0-5, and for a
      small save it carries the 32 source bytes at `p` from byte 6, over
      any stamps a CTR card's header had there. */
  lemma WriteCommandCarriesChunk(t: seq<byte>, ctr: bool, saveSize: int, firstPass: bool, off: int, src: seq<byte>, p: nat)
    requires |t| == REPORT_SIZE
    ensures var r := WriteCommand(t, ctr, saveSize, firstPass, off, src, p);
            && r[..6] == WriteOffsetPatch(t, ctr, saveSize, off)[..6]
            && (saveSize <= BIG_SAVE && p + WRITE_SIZE <= |src| ==> r[6..6 + WRITE_SIZE] == src[p..p + WRITE_SIZE])
  {
    var h := WriteOffsetPatch(t, ctr, saveSize, off);
    if Stamps(ctr, saveSize) {
      StampedBlocksFrame(h, 3);
      MarkerKeepsBlocks(StampedBlocks(h, 3), firstPass && off == 0);
    }
  }

  /** One more large-write command: the next one patches the last. */
  lemma LargeFramesNext(t: seq<byte>, src: seq<byte>, p: nat, n: nat)
    requires |t| == REPORT_SIZE && n < 4
    ensures var before := LargeFrames(t, src, p, n);
            var next := LargePatch(LastOr(t, before), n, Slice(src, p + n * WRITE_SIZE, WRITE_SIZE));
            LargeFrames(t, src, p, n + 1) == before + [next] && LastOr(t, before + [next]) == next
  {
  }

  /** Large-write command `f` is the `j`-th of its call: it carries `j` in
      bytes 2 and 3 and the `j`-th 32-byte piece of the window at `p`. */
  predicate CarriesPiece(f: seq<byte>, j: nat, src: seq<byte>, p: nat)
    requires |f| == REPORT_SIZE && p + (j + 1) * WRITE_SIZE <= |src|
  {
    f[2] == j && f[3] == j && f[4..4 + WRITE_SIZE] == src[p + j * WRITE_SIZE..p + (j + 1) * WRITE_SIZE]
  }

  /** Each large-write command carries its index twice and the 32 bytes of
      the source that follow the previous command's, so four of them carry
      the whole 128-byte window in order. */
  lemma {:induction false} LargeFramesCarryWindow(t: seq<byte>, src: seq<byte>, p: nat, n: nat)
    requires |t| == REPORT_SIZE && n <= 4
    requires p + n * WRITE_SIZE <= |src|
    ensures forall j :: 0 <= j < n ==> CarriesPiece(LargeFrames(t, src, p, n)[j], j, src, p)
  {
    if n > 0 {
      LargeFramesCarryWindow(t, src, p, n - 1);
      var prev := LargeFrames(t, src, p, n - 1);
      var fs := LargeFrames(t, src, p, n);
      var k := n - 1;
      assert forall j :: 0 <= j < k ==> fs[j] == prev[j];
      var chunk := Slice(src, p + k * WRITE_SIZE, WRITE_SIZE);
      assert chunk == src[p + k * WRITE_SIZE..p + (k + 1) * WRITE_SIZE];
      assert forall i :: 0 <= i < WRITE_SIZE ==> fs[k][4 + i] == chunk[i];
      assert fs[k][4..4 + WRITE_SIZE] == chunk;
      assert CarriesPiece(fs[k], k, src, p);
    }
  }

  /** The payload of four large-write commands, concatenated in sending
      order, is the 128-byte window of the source at `p`. */
  lemma LargeFramesPayload(t: seq<byte>, src: seq<byte>, p: nat)
    requires |t| == REPORT_SIZE && p + 4 * WRITE_SIZE <= |src|
    ensures var fs := LargeFrames(t, src, p, 4);
            fs[0][4..36] + fs[1][4..36] + fs[2][4..36] + fs[3][4..36] == src[p..p + 128]
  {
    LargeFramesCarryWindow(t, src, p, 4);
    var fs := LargeFrames(t, src, p, 4);
    var w := src[p..p + 128];
    forall j | 0 <= j < 4
      ensures fs[j][4..36] == w[32 * j..32 * (j + 1)]
    {
      assert CarriesPiece(fs[j], j, src, p);
    }
    assert w == w[0..32] + w[32..64] + w[64..96] + w[96..128];
  }
}
