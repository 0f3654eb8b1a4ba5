/** The R4i Save Dongle driver. The HID transport is abstract: every
    `send_command` is recorded in the ghost log `wire` as the outbound
    report and the number of reports read back, and the reports the device
    answers with come, in order, from the oracle `replies`. */
module Dongle {
  import opened Bytes
  import opened Card
  import opened Commands
  import opened Streams

  /** One `send_command` as the device sees it: the report written (report
      id 0 and the 64 command bytes) and how many reports were read back. */
  datatype Exchange = Exchange(report: seq<byte>, replyCount: nat)

  function Sent(cmd: seq<byte>, replyCount: nat): (e: Exchange)
    requires |cmd| == REPORT_SIZE
    ensures |e.report| == REPORT_SIZE + 1 && e.report[0] == 0 && e.report[1..] == cmd
  {
    Exchange(Outbound(cmd), replyCount)
  }

  /** The `n` reports the device sends from the `from`-th on, concatenated:
      the buffer `send_command` returns. */
  function Collect(replies: nat -> Report, from: nat, n: nat): (r: seq<byte>)
    ensures |r| == REPORT_SIZE * n
  {
    if n == 0 then [] else Collect(replies, from, n - 1) + replies(from + n - 1)
  }

  /** Collecting `m + n` reports is collecting `m` and then `n` more. */
  lemma {:induction false} CollectSplit(replies: nat -> Report, from: nat, m: nat, n: nat)
    ensures Collect(replies, from, m + n) == Collect(replies, from, m) + Collect(replies, from + m, n)
    decreases n
  {
    if n > 0 {
      CollectSplit(replies, from, m, n - 1);
    }
  }

  /** The `k`-th 64 bytes of a collected buffer are the `k`-th report. */
  lemma {:induction false} CollectReport(replies: nat -> Report, from: nat, n: nat, k: nat)
    requires k < n
    ensures Collect(replies, from, n)[REPORT_SIZE * k..REPORT_SIZE * (k + 1)] == replies(from + k)
    decreases n
  {
    if k < n - 1 {
      CollectReport(replies, from, n - 1, k);
      var prev := Collect(replies, from, n - 1);
      assert Collect(replies, from, n)[..REPORT_SIZE * (n - 1)] == prev;
      assert Collect(replies, from, n)[REPORT_SIZE * k..REPORT_SIZE * (k + 1)]
          == prev[REPORT_SIZE * k..REPORT_SIZE * (k + 1)];
    }
  }

  /** What `transfer_init` sends when the dongle is not yet in transfer mode:
      the describe-card command, then start-transfer. */
  function InitExchanges(active: bool, cardType: CardType, saveSize: int, weFlag: bool): seq<Exchange>
  {
    if active then []
    else [Sent(DescribeCardCommand(cardType, saveSize, weFlag), DESCRIBE_CARD_REPORTS),
          Sent(START_TRANSFER_CMD, START_TRANSFER_REPORTS)]
  }

  /** Commands sent one after another, none of them answered. */
  function Unanswered(cmds: seq<seq<byte>>): (es: seq<Exchange>)
    requires forall j :: 0 <= j < |cmds| ==> |cmds[j]| == REPORT_SIZE
    ensures |es| == |cmds|
  {
    if cmds == [] then [] else Unanswered(cmds[..|cmds| - 1]) + [Sent(cmds[|cmds| - 1], 0)]
  }

  lemma UnansweredSnoc(cmds: seq<seq<byte>>, cmd: seq<byte>)
    requires forall j :: 0 <= j < |cmds| ==> |cmds[j]| == REPORT_SIZE
    requires |cmd| == REPORT_SIZE
    ensures Unanswered(cmds + [cmd]) == Unanswered(cmds) + [Sent(cmd, 0)]
  {
    assert (cmds + [cmd])[..|cmds|] == cmds;
  }

  /** Source bytes one `write` consumes: four 32-byte pieces for a big save,
      one otherwise. */
  function ChunkBytes(saveSize: int): nat
  {
    if saveSize > BIG_SAVE then 4 * WRITE_SIZE else WRITE_SIZE
  }

  // The bytes of each patched template that no method changes.

  ghost predicate ReadTemplate(a: array<byte>)
    reads a
  {
    a.Length == REPORT_SIZE && a[0] == 0x33 && a[1] == 0x33 && forall i :: 5 <= i < REPORT_SIZE ==> a[i] == 0
  }

  ghost predicate WriteTemplate(a: array<byte>)
    reads a
  {
    a.Length == REPORT_SIZE && a[0] == 0x44
  }

  ghost predicate LargeTemplate(a: array<byte>)
    reads a
  {
    a.Length == REPORT_SIZE && a[0] == 0x64 && a[1] == 0x64
  }

  ghost predicate DescribeTemplate(a: array<byte>)
    reads a
  {
    a.Length == REPORT_SIZE && a[0] == 0x66 && a[1] == 0x66 && forall i :: 7 <= i < REPORT_SIZE ==> a[i] == 0
  }

  /** A 64-byte array holding `t`. */
  method NewCommand(t: seq<byte>) returns (a: array<byte>)
    requires |t| == REPORT_SIZE
    ensures fresh(a) && a[..] == t
  {
    a := new byte[REPORT_SIZE](i requires 0 <= i < REPORT_SIZE => t[i]);
  }

  class R4iSaveDongle {
    // HIDDevice state
    var found: bool
    var hasCard: bool
    var version: FirmwareVersion
    var firmwareData: seq<byte>
    var cardHeader: seq<byte>
    var cardTitle: seq<byte>
    var cardId: seq<byte>
    /** `card_size`, `None` while it is left unassigned. */
    var cardSize: Option<int>
    var saveSize: int

    // R4iSaveDongle state
    var cardType: CardType
    var firstPass: bool
    var inTransferMode: bool
    const ndsBlockWeFlag: bool

    // The command templates, patched in place before they are sent.
    const readCmd: array<byte>
    const writeCmd: array<byte>
    const largeCmd: array<byte>
    const describeCmd: array<byte>

    // The transport
    const replies: nat -> Report
    var received: nat
    ghost var wire: seq<Exchange>

    /** The patched templates keep the bytes no method patches and share
        storage with no other template. */
    ghost predicate Valid()
      reads readCmd, writeCmd, largeCmd, describeCmd
    {
      && ReadTemplate(readCmd) && WriteTemplate(writeCmd)
      && LargeTemplate(largeCmd) && DescribeTemplate(describeCmd)
      && readCmd != writeCmd && readCmd != largeCmd && readCmd != describeCmd
      && writeCmd != largeCmd && writeCmd != describeCmd && largeCmd != describeCmd
    }

    /** The card as the fields describe it. */
    ghost function Info(): CardInfo
      reads this
    {
      if hasCard then Card(cardType, cardTitle, cardId, cardSize, saveSize) else NoCard
    }

    /** `R4iSaveDongle()`: `present` says whether `hid_open` finds the
        device. When it does, the constructor sends stop, asks for the
        firmware (3 reports) and the card header (10 reports), and decodes
        both. Fields the source leaves uninitialised start at neutral
        values here. */
    constructor (present: bool, replies: nat -> Report, weFlag: bool)
      ensures Valid()
      ensures fresh(readCmd) && fresh(writeCmd) && fresh(largeCmd) && fresh(describeCmd)
      ensures this.replies == replies && ndsBlockWeFlag == weFlag
      ensures found == present && !inTransferMode
      ensures !present ==> wire == [] && received == 0 && !hasCard
      ensures present ==>
                && wire == [Sent(STOP_CMD, STOP_REPORTS), Sent(FIRMWARE_CMD, FIRMWARE_REPORTS),
                            Sent(GET_HEADER_CMD, GET_HEADER_REPORTS)]
                && received == FIRMWARE_REPORTS + GET_HEADER_REPORTS
                && firmwareData == Collect(replies, 0, FIRMWARE_REPORTS)
                && cardHeader == Collect(replies, FIRMWARE_REPORTS, GET_HEADER_REPORTS)
                && version == DecodeFirmware(firmwareData)
                && Info() == DecodeHeader(cardHeader)
    {
      var rc := NewCommand(READ_DATA_CMD);
      var wc := NewCommand(WRITE_DATA_CMD);
      var lc := NewCommand(WRITE_LARGE_DATA_CMD);
      var dc := NewCommand(DESCRIBE_CARD_CMD);
      readCmd := rc;
      writeCmd := wc;
      largeCmd := lc;
      describeCmd := dc;
      this.replies := replies;
      ndsBlockWeFlag := weFlag;
      received := 0;
      wire := [];
      found := present;
      hasCard := false;
      version := Invalid;
      firmwareData := [];
      cardHeader := [];
      cardTitle := [];
      cardId := [];
      cardSize := None;
      saveSize := 0;
      cardType := NTR;
      firstPass := false;
      inTransferMode := false;
      new;
      if present {
        Probe();
      }
    }

    /** What the constructor asks a device it found: stop, then the
        firmware (3 reports) and the card header (10 reports), each
        decoded. */
    method Probe()
      requires wire == [] && received == 0 && !hasCard
      requires cardTitle == [] && cardId == [] && cardSize == None
      modifies this`wire, this`received, this`firmwareData, this`cardHeader, this`version
      modifies this`hasCard, this`cardTitle, this`cardId, this`cardSize, this`cardType, this`saveSize
      ensures wire == [Sent(STOP_CMD, STOP_REPORTS), Sent(FIRMWARE_CMD, FIRMWARE_REPORTS),
                       Sent(GET_HEADER_CMD, GET_HEADER_REPORTS)]
      ensures received == FIRMWARE_REPORTS + GET_HEADER_REPORTS
      ensures firmwareData == Collect(replies, 0, FIRMWARE_REPORTS)
      ensures cardHeader == Collect(replies, FIRMWARE_REPORTS, GET_HEADER_REPORTS)
      ensures version == DecodeFirmware(firmwareData)
      ensures Info() == DecodeHeader(cardHeader)
    {
      var cleared := SendCommand(STOP_CMD, STOP_REPORTS);
      firmwareData := SendCommand(FIRMWARE_CMD, FIRMWARE_REPORTS);
      ReadVersion();
      cardHeader := SendCommand(GET_HEADER_CMD, GET_HEADER_REPORTS);
      ReadCardInfo();
    }

    /** The version check of the constructor: a version only when the three
        copies of the version byte agree. */
    method ReadVersion()
      requires |firmwareData| == FIRMWARE_LENGTH
      modifies this`version
      ensures version == DecodeFirmware(firmwareData)
    {
      var fw := firmwareData;
      var v1, v2, v3 := fw[FIRMWARE_VERSION1], fw[FIRMWARE_VERSION2], fw[FIRMWARE_VERSION3];
      if v1 == v2 && v2 == v3 {
        if v1 == 1 {
          version := LiteralOne;
        } else {
          version := Computed(v1 / 10 + 1, v1 % 10);
        }
      } else {
        version := Invalid;
      }
    }

    /** The card part of the constructor: no card when the first title byte
        and the first save descriptor are zero; otherwise the card's type,
        title, id, ROM size and save size. */
    method ReadCardInfo()
      requires |cardHeader| == HEADER_LENGTH && !hasCard
      requires cardTitle == [] && cardId == [] && cardSize == None
      modifies this`hasCard, this`cardTitle, this`cardId, this`cardSize, this`cardType, this`saveSize
      ensures Info() == DecodeHeader(cardHeader)
    {
      var h := cardHeader;
      if h[TITLE] == 0 && h[SAVE_DESC1] == 0 {
        return;
      }
      hasCard := true;
      if h[TITLE] != 0 {
        cardId := CStringAt(h, ID);
        cardTitle := Take(CStringAt(h, TITLE), TITLE_LENGTH);
      }
      if h[ROM_SIZE] > 0 {
        cardSize := Some(PowToInt(h[ROM_SIZE]));
      }
      cardType := if h[TITLE] == 0 then CTR else NTR;
      if h[SAVE_SIZE] > 0 {
        saveSize := PowToInt(h[SAVE_SIZE]);
      } else if h[SAVE_DESC1] == SAVE_DESC1_SENTINEL {
        saveSize := (if h[SAVE_DESC2] == SAVE_DESC2_256K then 256 else 512) * 1024;
      } else {
        saveSize := 0;
      }
    }

    /** `send_command`: one report out (report id 0, then the command), then
        exactly `reports` reports in, returned in order. */
    method SendCommand(cmd: seq<byte>, reports: nat) returns (response: seq<byte>)
      requires |cmd| == REPORT_SIZE
      modifies this`wire, this`received
      ensures wire == old(wire) + [Sent(cmd, reports)]
      ensures received == old(received) + reports
      ensures response == Collect(replies, old(received), reports)
    {
      wire := wire + [Sent(cmd, reports)];
      response := [];
      var i := 0;
      while i < reports
        invariant 0 <= i <= reports
        invariant received == old(received) + i
        invariant wire == old(wire) + [Sent(cmd, reports)]
        invariant response == Collect(replies, old(received), i)
      {
        response := response + replies(received);
        received := received + 1;
        i := i + 1;
      }
    }

    /** `transfer_init`: nothing in transfer mode; otherwise describe the
        card, start the transfer and begin a first pass. */
    method TransferInit()
      requires Valid()
      modifies this`wire, this`received, this`firstPass, this`inTransferMode, describeCmd
      ensures Valid() && received == old(received) && inTransferMode
      ensures wire == old(wire) + InitExchanges(old(inTransferMode), cardType, saveSize, ndsBlockWeFlag)
      ensures firstPass == (if old(inTransferMode) then old(firstPass) else true)
      ensures describeCmd[..] == if old(inTransferMode) then old(describeCmd[..])
                                 else DescribeCardCommand(cardType, saveSize, ndsBlockWeFlag)
    {
      if inTransferMode {
        return;
      }
      DescribeCard();
      var described := SendCommand(describeCmd[..], DESCRIBE_CARD_REPORTS);
      var started := SendCommand(START_TRANSFER_CMD, START_TRANSFER_REPORTS);
      firstPass := true;
      inTransferMode := true;
    }

    /** The describe-card bytes `transfer_init` stores: card type, save
        size in KiB and the block-write-enable pair. */
    method DescribeCard()
      requires Valid()
      modifies describeCmd
      ensures Valid() && describeCmd[..] == DescribeCardCommand(cardType, saveSize, ndsBlockWeFlag)
    {
      ghost var t := describeCmd[..];
      var kib := CDiv(saveSize, 1024);
      var magic := cardType == NTR && ndsBlockWeFlag;
      describeCmd[2] := CardTypeByte(cardType);
      describeCmd[3] := Low8(Shr(kib, 8));
      describeCmd[4] := if saveSize < 1024 then 1 else Low8(kib);
      describeCmd[5] := if magic then 0x55 else 0x00;
      describeCmd[6] := if magic then 0xAA else 0x00;
      assert describeCmd[..] == DescribeCardPatch(t, cardType, saveSize, ndsBlockWeFlag);
      DescribePatchOfTemplate(t, cardType, saveSize, ndsBlockWeFlag);
    }

    /** `transfer_end`: in transfer mode, send stop and leave it. */
    method TransferEnd()
      requires Valid()
      modifies this`wire, this`received, this`inTransferMode
      ensures !inTransferMode && received == old(received)
      ensures wire == old(wire) + if old(inTransferMode) then [Sent(STOP_CMD, STOP_REPORTS)] else []
    {
      if !inTransferMode {
        return;
      }
      var stopped := SendCommand(STOP_CMD, STOP_REPORTS);
      inTransferMode := false;
    }

    /** `~R4iSaveDongle`: stop, whatever the state. */
    method Destroy()
      requires Valid()
      modifies this`wire, this`received
      ensures wire == old(wire) + [Sent(STOP_CMD, STOP_REPORTS)] && received == old(received)
    {
      var stopped := SendCommand(STOP_CMD, STOP_REPORTS);
    }

    /** `read`: fetch the 512-byte window at `off` (the sink position when
        it is the default -1), append it at the sink position, and end the
        transfer once the sink position reaches the save size. */
    method Read(sink: ByteStream, offArg: int)
      requires Valid() && sink.Valid()
      modifies this`wire, this`received, this`firstPass, this`inTransferMode, describeCmd, readCmd, sink
      ensures Valid() && sink.Valid()
      ensures received == old(received) + READ_DATA_REPORTS
      ensures readCmd[..] == ReadCommand(saveSize > BIG_SAVE, if offArg != -1 then offArg else old(sink.pos))
      ensures sink.data == Put(old(sink.data), old(sink.pos), Collect(replies, old(received), READ_DATA_REPORTS))
      ensures sink.pos == old(sink.pos) + READ_WINDOW
      ensures firstPass == (if old(inTransferMode) then old(firstPass) else true)
      ensures inTransferMode <==> sink.pos < saveSize
      ensures describeCmd[..] == if old(inTransferMode) then old(describeCmd[..])
                                 else DescribeCardCommand(cardType, saveSize, ndsBlockWeFlag)
      ensures wire == old(wire) + InitExchanges(old(inTransferMode), cardType, saveSize, ndsBlockWeFlag)
                      + [Sent(readCmd[..], READ_DATA_REPORTS)]
                      + (if sink.pos >= saveSize then [Sent(STOP_CMD, STOP_REPORTS)] else [])
    {
      var off := if offArg != -1 then offArg else sink.pos;
      TransferInit();
      ReadInTransfer(sink, off);
    }

    /** `read` once the dongle is in transfer mode: the window request, the
        append and the end check. */
    method ReadInTransfer(sink: ByteStream, off: int)
      requires Valid() && sink.Valid() && inTransferMode
      modifies this`wire, this`received, this`inTransferMode, readCmd, sink
      ensures Valid() && sink.Valid()
      ensures received == old(received) + READ_DATA_REPORTS
      ensures readCmd[..] == ReadCommand(saveSize > BIG_SAVE, off)
      ensures sink.data == Put(old(sink.data), old(sink.pos), Collect(replies, old(received), READ_DATA_REPORTS))
      ensures sink.pos == old(sink.pos) + READ_WINDOW
      ensures inTransferMode <==> sink.pos < saveSize
      ensures wire == old(wire) + [Sent(readCmd[..], READ_DATA_REPORTS)]
                      + (if sink.pos >= saveSize then [Sent(STOP_CMD, STOP_REPORTS)] else [])
    {
      AddressRead(saveSize > BIG_SAVE, off);
      var response := SendCommand(readCmd[..], READ_DATA_REPORTS);
      sink.Write(response);
      if sink.pos >= saveSize {
        TransferEnd();
      }
    }

    /** The window bytes `read` stores in CMD_READ_DATA. */
    method AddressRead(big: bool, off: int)
      requires Valid()
      modifies readCmd
      ensures Valid() && readCmd[..] == ReadCommand(big, off)
    {
      ghost var t := readCmd[..];
      readCmd[2] := if big then 0x03 else 0x00;
      readCmd[3] := if big then Low8(Shr(off, 16)) else 0x03;
      readCmd[4] := Low8(Shr(off, 8));
      assert readCmd[..] == ReadPatch(t, big, off);
      ReadPatchOfTemplate(t, big, off);
    }

    /** The header part of `write`: bytes 1-5 of CMD_WRITE_DATA, then, for
        CTR cards and NTR saves over 512 KiB, the three stamped sub-blocks
        and the marker. */
    method PrepareWriteHeader(off: int)
      requires Valid()
      modifies writeCmd
      ensures Valid()
      ensures writeCmd[..] == WriteHeaderPatch(old(writeCmd[..]), cardType == CTR, saveSize, firstPass, off)
    {
      var big := saveSize > BIG_SAVE;
      var ctr := cardType == CTR;
      ghost var t := writeCmd[..];
      writeCmd[1] := if big then 0x00 else 0x44;
      writeCmd[2] := if ctr && big then 0x02 else if big then 0x0A else 0x00;
      writeCmd[3] := if big then Low8(Shr(off, 16)) else 0x02;
      writeCmd[4] := Low8(Shr(off, 8));
      writeCmd[5] := Low8(off);
      assert writeCmd[..] == WriteOffsetPatch(t, ctr, saveSize, off);
      if Stamps(ctr, saveSize) {
        StampSubBlocks();
        StampedBlocksFrame(WriteOffsetPatch(t, ctr, saveSize, off), 3);
        MarkWrite(firstPass && off == 0);
      }
    }

    /** The loop of `write` that copies the offset bytes into three
        sub-blocks, each 32 further on. */
    method StampSubBlocks()
      requires writeCmd.Length == REPORT_SIZE
      modifies writeCmd
      ensures writeCmd[..] == StampedBlocks(old(writeCmd[..]), 3)
    {
      ghost var h := writeCmd[..];
      for i := 0 to 3
        invariant writeCmd[..] == StampedBlocks(h, i)
      {
        StampBlockAt(i, h);
      }
    }

    /** One pass of the stamping loop: sub-block `i` gets 0x02, bytes 3 and
        4, and byte 5 plus `32 * (i + 1)`. */
    method StampBlockAt(i: nat, ghost h: seq<byte>)
      requires i < 3 && |h| == REPORT_SIZE && writeCmd[..] == StampedBlocks(h, i)
      modifies writeCmd
      ensures writeCmd[..] == StampedBlocks(h, i + 1)
    {
      ghost var cur := writeCmd[..];
      var offset := 4 * i + 6;
      writeCmd[offset] := 0x02;
      writeCmd[offset + 1] := writeCmd[3];
      writeCmd[offset + 2] := writeCmd[4];
      writeCmd[offset + 3] := Low8((writeCmd[5] as int) + (i + 1) * 32);
      assert writeCmd[..] == StampBlock(cur, i);
    }

    /** The marker `write` stores at bytes 18-25. */
    method MarkWrite(first: bool)
      requires Valid()
      modifies writeCmd
      ensures Valid() && writeCmd[..] == Marker(old(writeCmd[..]), first)
    {
      if first {
        writeCmd[18] := 0xD8;
        writeCmd[19] := 0;
        writeCmd[20] := 0;
        writeCmd[21] := 0;
        writeCmd[22] := 0xFE;
        writeCmd[23] := 0xFD;
        writeCmd[24] := 0xFB;
        writeCmd[25] := 0xF8;
      } else {
        writeCmd[18] := 0;
        writeCmd[19] := 0xA5;
        writeCmd[20] := 0x5A;
        writeCmd[25] := 0x55;
      }
    }

    /** The big-save part of `write`: four large-write commands, the `i`-th
        carrying `i` in bytes 2 and 3 and the next 32 source bytes from byte
        4; the offset advances by 32 per command. */
    method SendLargeChunks(src: ByteStream, off: int) returns (offEnd: int)
      requires Valid() && src.Valid()
      modifies this`wire, this`received, largeCmd, src`pos
      ensures Valid() && src.Valid() && received == old(received)
      ensures offEnd == off + 4 * WRITE_SIZE
      ensures src.pos == Min(old(src.pos) + 4 * WRITE_SIZE, |src.data|)
      ensures var frames := LargeFrames(old(largeCmd[..]), src.data, old(src.pos), 4);
              largeCmd[..] == LastOr(old(largeCmd[..]), frames) && wire == old(wire) + Unanswered(frames)
    {
      ghost var t := largeCmd[..];
      ghost var p0 := src.pos;
      offEnd := off;
      for i := 0 to 4
        invariant Valid() && src.Valid() && received == old(received)
        invariant offEnd == off + i * WRITE_SIZE
        invariant src.pos == Min(p0 + i * WRITE_SIZE, |src.data|)
        invariant largeCmd[..] == LastOr(t, LargeFrames(t, src.data, p0, i))
        invariant wire == old(wire) + Unanswered(LargeFrames(t, src.data, p0, i))
      {
        SendLargeStep(src, i, t, p0, old(wire));
        offEnd := offEnd + WRITE_SIZE;
      }
    }

    /** The `i`-th large-write command of a `write` call extends the
        commands sent so far by one. */
    method SendLargeStep(src: ByteStream, i: byte, ghost t: seq<byte>, ghost p0: nat, ghost w0: seq<Exchange>)
      requires Valid() && src.Valid() && i < 4 && |t| == REPORT_SIZE
      requires src.pos == Min(p0 + i * WRITE_SIZE, |src.data|)
      requires largeCmd[..] == LastOr(t, LargeFrames(t, src.data, p0, i))
      requires wire == w0 + Unanswered(LargeFrames(t, src.data, p0, i))
      modifies this`wire, this`received, largeCmd, src`pos
      ensures Valid() && src.Valid() && received == old(received)
      ensures src.pos == Min(p0 + (i + 1) * WRITE_SIZE, |src.data|)
      ensures largeCmd[..] == LastOr(t, LargeFrames(t, src.data, p0, i + 1))
      ensures wire == w0 + Unanswered(LargeFrames(t, src.data, p0, i + 1))
    {
      ghost var before := LargeFrames(t, src.data, p0, i);
      LargeFramesNext(t, src.data, p0, i);
      SliceClamped(src.data, p0 + i * WRITE_SIZE, WRITE_SIZE);
      SendLargePiece(src, i);
      assert (i + 1) * WRITE_SIZE == i * WRITE_SIZE + WRITE_SIZE;
      UnansweredSnoc(before, largeCmd[..]);
    }

    /** One pass of the large-write loop: `i` into bytes 2 and 3, the next
        32 source bytes from byte 4, and the command sent. */
    method SendLargePiece(src: ByteStream, i: byte)
      requires Valid() && src.Valid()
      modifies this`wire, this`received, largeCmd, src`pos
      ensures Valid() && src.Valid() && received == old(received)
      ensures src.pos == Min(old(src.pos) + WRITE_SIZE, |src.data|)
      ensures largeCmd[..] == LargePatch(old(largeCmd[..]), i, Slice(src.data, old(src.pos), WRITE_SIZE))
      ensures wire == old(wire) + [Sent(largeCmd[..], WRITE_LARGE_DATA_REPORTS)]
    {
      ghost var t := largeCmd[..];
      largeCmd[2] := i;
      largeCmd[3] := i;
      src.ReadInto(largeCmd, 4, WRITE_SIZE);
      assert largeCmd[..] == LargePatch(t, i, Slice(src.data, old(src.pos), WRITE_SIZE));
      var sent := SendCommand(largeCmd[..], WRITE_LARGE_DATA_REPORTS);
    }

    /** The data of `write` and its commit: the large-write commands for a
        big save, or 32 bytes copied into the write command from byte 6;
        then the write command itself. */
    method SendChunk(src: ByteStream, off: int) returns (offEnd: int)
      requires Valid() && src.Valid()
      modifies this`wire, this`received, writeCmd, largeCmd, src`pos
      ensures Valid() && src.Valid() && received == old(received)
      ensures src.pos == Min(old(src.pos) + ChunkBytes(saveSize), |src.data|)
      ensures var big := saveSize > BIG_SAVE;
              var frames := if big then LargeFrames(old(largeCmd[..]), src.data, old(src.pos), 4) else [];
              && offEnd == off + (if big then 4 * WRITE_SIZE else 0)
              && largeCmd[..] == LastOr(old(largeCmd[..]), frames)
              && writeCmd[..] == (if big then old(writeCmd[..])
                                  else Overlay(old(writeCmd[..]), 6, Slice(src.data, old(src.pos), WRITE_SIZE)))
              && wire == old(wire) + Unanswered(frames) + [Sent(writeCmd[..], WRITE_DATA_REPORTS)]
    {
      if saveSize > BIG_SAVE {
        offEnd := SendLargeChunks(src, off);
      } else {
        src.ReadInto(writeCmd, 6, WRITE_SIZE);
        offEnd := off;
      }
      var committed := SendCommand(writeCmd[..], WRITE_DATA_REPORTS);
    }

    /** The end of `write`: a CTR card past its first pass skips the rest of
        the source once 16 KiB have gone; then, when the offset has reached
        the save size, a CTR card on its first pass rewinds the source for
        a second pass, and every other case ends the transfer. */
    method Complete(src: ByteStream, offEnd: int)
      requires Valid() && src.Valid() && inTransferMode
      modifies this`wire, this`received, this`firstPass, this`inTransferMode, src`pos
      ensures Valid() && src.Valid() && received == old(received)
      ensures var ctr := cardType == CTR;
              var done := offEnd >= saveSize;
              var rewind := done && ctr && old(firstPass);
              && src.pos == (if rewind then 0
                             else if ctr && !old(firstPass) && old(src.pos) >= 0x4000 then |src.data|
                             else old(src.pos))
              && firstPass == (old(firstPass) && !rewind)
              && inTransferMode == !(done && !rewind)
              && wire == old(wire) + (if done && !rewind then [Sent(STOP_CMD, STOP_REPORTS)] else [])
    {
      if cardType == CTR && !firstPass && src.pos >= 0x4000 {
        src.SeekEnd();
      }
      if offEnd >= saveSize {
        if cardType == CTR && firstPass {
          src.SeekBegin();
          firstPass := false;
        } else {
          TransferEnd();
        }
      }
    }

    /** `write`: send the next chunk of `src` at `off` (the source position
        when it is the default -1). For big saves the data goes out in four
        large-write commands and the offset advances by 128; otherwise 32
        bytes ride in the write command itself and the offset stays. The
        write command follows as a commit. Then the CTR 16 KiB rule and the
        completion rule apply. */
    method Write(src: ByteStream, offArg: int)
      requires Valid() && src.Valid()
      modifies this`wire, this`received, this`firstPass, this`inTransferMode, describeCmd, writeCmd, largeCmd, src`pos
      ensures Valid() && src.Valid() && received == old(received)
      ensures describeCmd[..] == if old(inTransferMode) then old(describeCmd[..])
                                 else DescribeCardCommand(cardType, saveSize, ndsBlockWeFlag)
      ensures var big := saveSize > BIG_SAVE;
              var ctr := cardType == CTR;
              var fp := if old(inTransferMode) then old(firstPass) else true;
              var off := if offArg != -1 then offArg else old(src.pos);
              var frames := ChunkFrames(old(largeCmd[..]), src.data, old(src.pos), saveSize);
              var p1 := Min(old(src.pos) + ChunkBytes(saveSize), |src.data|);
              var done := off + (if big then 4 * WRITE_SIZE else 0) >= saveSize;
              var rewind := done && ctr && fp;
              && writeCmd[..] == WriteCommand(old(writeCmd[..]), ctr, saveSize, fp, off, src.data, old(src.pos))
              && largeCmd[..] == LastOr(old(largeCmd[..]), frames)
              && src.pos == (if rewind then 0 else if ctr && !fp && p1 >= 0x4000 then |src.data| else p1)
              && firstPass == (fp && !rewind)
              && inTransferMode == !(done && !rewind)
              && wire == old(wire) + InitExchanges(old(inTransferMode), cardType, saveSize, ndsBlockWeFlag)
                         + Unanswered(frames) + [Sent(writeCmd[..], WRITE_DATA_REPORTS)]
                         + (if done && !rewind then [Sent(STOP_CMD, STOP_REPORTS)] else [])
    {
      var off := if offArg != -1 then offArg else src.pos;
      TransferInit();
      WriteInTransfer(src, off);
    }

    /** `write` once the dongle is in transfer mode: the header, the chunk
        and its commit, then the completion rules. */
    method WriteInTransfer(src: ByteStream, off: int)
      requires Valid() && src.Valid() && inTransferMode
      modifies this`wire, this`received, this`firstPass, this`inTransferMode, writeCmd, largeCmd, src`pos
      ensures Valid() && src.Valid() && received == old(received)
      ensures var big := saveSize > BIG_SAVE;
              var ctr := cardType == CTR;
              var fp := old(firstPass);
              var frames := ChunkFrames(old(largeCmd[..]), src.data, old(src.pos), saveSize);
              var p1 := Min(old(src.pos) + ChunkBytes(saveSize), |src.data|);
              var done := off + (if big then 4 * WRITE_SIZE else 0) >= saveSize;
              var rewind := done && ctr && fp;
              && writeCmd[..] == WriteCommand(old(writeCmd[..]), ctr, saveSize, fp, off, src.data, old(src.pos))
              && largeCmd[..] == LastOr(old(largeCmd[..]), frames)
              && src.pos == (if rewind then 0 else if ctr && !fp && p1 >= 0x4000 then |src.data| else p1)
              && firstPass == (fp && !rewind)
              && inTransferMode == !(done && !rewind)
              && wire == old(wire) + Unanswered(frames) + [Sent(writeCmd[..], WRITE_DATA_REPORTS)]
                         + (if done && !rewind then [Sent(STOP_CMD, STOP_REPORTS)] else [])
    {
      var offEnd := SendWrite(src, off);
      Complete(src, offEnd);
    }

    /** The part of `write` up to its commit: the header, then the chunk
        and the committed write command. */
    method SendWrite(src: ByteStream, off: int) returns (offEnd: int)
      requires Valid() && src.Valid()
      modifies this`wire, this`received, writeCmd, largeCmd, src`pos
      ensures Valid() && src.Valid() && received == old(received)
      ensures var big := saveSize > BIG_SAVE;
              var frames := ChunkFrames(old(largeCmd[..]), src.data, old(src.pos), saveSize);
              && offEnd == off + (if big then 4 * WRITE_SIZE else 0)
              && src.pos == Min(old(src.pos) + ChunkBytes(saveSize), |src.data|)
              && writeCmd[..] == WriteCommand(old(writeCmd[..]), cardType == CTR, saveSize, firstPass, off, src.data, old(src.pos))
              && largeCmd[..] == LastOr(old(largeCmd[..]), frames)
              && wire == old(wire) + Unanswered(frames) + [Sent(writeCmd[..], WRITE_DATA_REPORTS)]
    {
      PrepareWriteHeader(off);
      offEnd := SendChunk(src, off);
    }
  }
}
