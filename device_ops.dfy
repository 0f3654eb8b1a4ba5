/** `device_ops` and the end of `main`: open the dongle, apply the save
    size gates, and run the download, upload or erase loop over the
    driver. */
module DeviceOps {
  import opened Bytes
  import opened Card
  import opened Commands
  import opened Streams
  import opened Dongle
  import Cli

  /** Where `device_ops` ends. `Stalled` is an upload whose file stream
      fails part-way (an empty file, or a length that is not a whole
      number of chunks): there the source's loop never ends. */
  datatype Ending =
    | DeviceNotFound
    | NoCardInserted
    | InfoShown
    | UnknownSaveSize
    | SizeMismatch
    | Stalled
    | Downloaded
    | Uploaded
    | Erased
    | NothingToDo

  /** The save size `device_ops` works with: the override when positive. */
  function EffectiveSaveSize(card: CardInfo, overrideSaveSize: int): int
    requires card.Card?
  {
    if overrideSaveSize > 0 then overrideSaveSize else card.saveSize
  }

  /** The `file_size` upload computes from the stream: the length, except
      that an empty (or unopenable) file fails both seeks and gives 1. */
  function FileSize(len: nat): (n: int)
    ensures n > 0 && (len > 0 ==> n == len)
  {
    if len == 0 then 1 else len
  }

  /** The save size an upload runs with: an unknown size is taken from the
      file. */
  function UploadSaveSize(saveSize: int, len: nat): (s: int)
    ensures s > 0
    ensures saveSize > 0 ==> s == saveSize
    ensures saveSize <= 0 && len > 0 ==> s == len
  {
    if saveSize <= 0 then FileSize(len) else saveSize
  }

  /** An upload file the driver can stream to the end: not empty and a
      whole number of chunks long. */
  predicate Streamable(len: nat, saveSize: int)
  {
    len > 0 && len % ChunkBytes(saveSize) == 0
  }

  /** The branch `device_ops` takes once a card is present, from the
      command, the save size in force and the upload file's length. */
  function Gate(argPassed: int, saveSize: int, fileLen: nat): (e: Ending)
    ensures e == InfoShown <==> argPassed == Cli.ARG_INFO
    ensures e == UnknownSaveSize <==> argPassed != Cli.ARG_INFO && argPassed != Cli.ARG_UPLOAD && saveSize <= 0
    ensures e == Downloaded <==> argPassed == Cli.ARG_DOWNLOAD && saveSize > 0
    ensures e == Erased <==> argPassed == Cli.ARG_ERASE && saveSize > 0
    ensures e == SizeMismatch <==> argPassed == Cli.ARG_UPLOAD && saveSize > 0 && saveSize != FileSize(fileLen)
    ensures e == Uploaded ==> argPassed == Cli.ARG_UPLOAD && fileLen > 0 && UploadSaveSize(saveSize, fileLen) == fileLen
    ensures argPassed == Cli.ARG_UPLOAD && e != SizeMismatch ==>
              (e == Uploaded <==> Streamable(fileLen, UploadSaveSize(saveSize, fileLen)))
    ensures e == NothingToDo <==> !(Cli.ARG_INFO <= argPassed <= Cli.ARG_ERASE) && saveSize > 0
  {
    if argPassed == Cli.ARG_INFO then InfoShown
    else if argPassed != Cli.ARG_UPLOAD && saveSize <= 0 then UnknownSaveSize
    else if argPassed == Cli.ARG_ERASE then Erased
    else if argPassed == Cli.ARG_DOWNLOAD then Downloaded
    else if argPassed == Cli.ARG_UPLOAD then
      if saveSize > 0 && saveSize != FileSize(fileLen) then SizeMismatch
      else if !Streamable(fileLen, UploadSaveSize(saveSize, fileLen)) then Stalled
      else Uploaded
    else NothingToDo
  }

  /** The branch `device_ops` takes, from what the constructor learnt, the
      command and the override, and the upload file's length. */
  function Route(found: bool, card: CardInfo, argPassed: int, overrideSaveSize: int, fileLen: nat): (e: Ending)
    ensures e == DeviceNotFound <==> !found
    ensures e == NoCardInserted <==> found && card.NoCard?
  {
    if !found then DeviceNotFound
    else if card.NoCard? then NoCardInserted
    else Gate(argPassed, EffectiveSaveSize(card, overrideSaveSize), fileLen)
  }

  /** The gates of `device_ops`: info returns before any transfer, download
      and erase need a known save size, and an upload never runs against a
      save size other than the file's. */
  lemma RouteGates(found: bool, card: CardInfo, argPassed: int, overrideSaveSize: int, fileLen: nat)
    requires found && card.Card?
    ensures argPassed == Cli.ARG_INFO ==> Route(found, card, argPassed, overrideSaveSize, fileLen) == InfoShown
    ensures (argPassed == Cli.ARG_DOWNLOAD || argPassed == Cli.ARG_ERASE) ==>
              (Route(found, card, argPassed, overrideSaveSize, fileLen) == UnknownSaveSize
               <==> EffectiveSaveSize(card, overrideSaveSize) <= 0)
    ensures argPassed == Cli.ARG_UPLOAD && Route(found, card, argPassed, overrideSaveSize, fileLen) == Uploaded ==>
              UploadSaveSize(EffectiveSaveSize(card, overrideSaveSize), fileLen) == fileLen
    ensures argPassed == Cli.ARG_UPLOAD && EffectiveSaveSize(card, overrideSaveSize) <= 0 ==>
              Route(found, card, argPassed, overrideSaveSize, fileLen) != SizeMismatch
  {
  }

  /** The read commands of `k` consecutive windows from offset 0. */
  function ReadWindows(big: bool, k: nat): (es: seq<Exchange>)
    ensures |es| == k
    ensures forall j :: 0 <= j < k ==> es[j] == Sent(ReadCommand(big, READ_WINDOW * j), READ_DATA_REPORTS)
  {
    if k == 0 then [] else ReadWindows(big, k - 1) + [Sent(ReadCommand(big, READ_WINDOW * (k - 1)), READ_DATA_REPORTS)]
  }

  /** One more window appended at the end of the file collects the next
      reports. */
  lemma DownloadGrows(replies: nat -> Report, r0: nat, windows: nat, before: seq<byte>, window: seq<byte>)
    requires before == Collect(replies, r0, READ_DATA_REPORTS * windows)
    requires window == Collect(replies, r0 + READ_DATA_REPORTS * windows, READ_DATA_REPORTS)
    ensures Put(before, |before|, window) == Collect(replies, r0, READ_DATA_REPORTS * (windows + 1))
  {
    CollectSplit(replies, r0, READ_DATA_REPORTS * windows, READ_DATA_REPORTS);
    PutAtEnd(Collect(replies, r0, READ_DATA_REPORTS * windows),
             Collect(replies, r0 + READ_DATA_REPORTS * windows, READ_DATA_REPORTS));
  }

  /** The wire after one more window request: the initialisation goes in
      before the first window only, then the next read follows. */
  lemma ReadWindowsNext(w0: seq<Exchange>, init: seq<Exchange>, big: bool, windows: nat)
    ensures var sent := Sent(ReadCommand(big, READ_WINDOW * windows), READ_DATA_REPORTS);
            w0 + (if windows > 0 then init else []) + ReadWindows(big, windows)
               + (if windows > 0 then [] else init) + [sent]
            == w0 + init + ReadWindows(big, windows + 1)
  {
  }

  /** Multiples of `c` below `s`, itself a multiple, leave room for `c`,
      and the next one is a multiple too (`c` is a chunk size). */
  lemma NextMultiple(p: nat, s: nat, c: nat)
    requires c == 0x20 || c == 0x80
    requires p % c == 0 && s % c == 0 && p < s
    ensures p + c <= s && (p + c) % c == 0
  {
    if c == 0x20 {
      assert p + 0x20 <= s && (p + 0x20) % 0x20 == 0;
    } else {
      assert p + 0x80 <= s && (p + 0x80) % 0x80 == 0;
    }
  }

  /** The download loop: `read` into the file until its position reaches
      the save size. The file holds the windows the device sent, one after
      another, which is the save padded to a whole window; the loop ends
      the transfer. */
  method Download(dev: R4iSaveDongle, file: ByteStream) returns (windows: nat)
    requires dev.Valid() && file.Valid() && file.data == [] && file.pos == 0
    requires !dev.inTransferMode && dev.saveSize > 0
    modifies dev`wire, dev`received, dev`firstPass, dev`inTransferMode, dev.describeCmd, dev.readCmd, file
    ensures dev.Valid() && file.Valid() && !dev.inTransferMode
    ensures windows > 0 && dev.saveSize <= READ_WINDOW * windows < dev.saveSize + READ_WINDOW
    ensures file.data == Collect(dev.replies, old(dev.received), READ_DATA_REPORTS * windows)
    ensures file.pos == |file.data| == READ_WINDOW * windows
    ensures dev.received == old(dev.received) + READ_DATA_REPORTS * windows
    ensures dev.wire == old(dev.wire) + InitExchanges(false, dev.cardType, dev.saveSize, dev.ndsBlockWeFlag)
                        + ReadWindows(dev.saveSize > BIG_SAVE, windows) + [Sent(STOP_CMD, STOP_REPORTS)]
  {
    ghost var r0 := dev.received;
    ghost var w0 := dev.wire;
    ghost var init := InitExchanges(false, dev.cardType, dev.saveSize, dev.ndsBlockWeFlag);
    ghost var big := dev.saveSize > BIG_SAVE;
    windows := 0;
    while true
      invariant dev.Valid() && file.Valid()
      invariant file.pos == |file.data| == READ_WINDOW * windows
      invariant file.data == Collect(dev.replies, r0, READ_DATA_REPORTS * windows)
      invariant dev.received == r0 + READ_DATA_REPORTS * windows
      invariant windows > 0 ==> file.pos < dev.saveSize
      invariant dev.inTransferMode == (windows > 0)
      invariant dev.wire == w0 + (if windows > 0 then init else []) + ReadWindows(big, windows)
      decreases dev.saveSize - file.pos
    {
      DownloadStep(dev, file, r0, w0, init, windows);
      windows := windows + 1;
      if file.pos >= dev.saveSize {
        break;
      }
    }
  }

  /** One `read` of the download loop, from the state the loop keeps after
      `windows` windows to the state after one more. */
  method DownloadStep(dev: R4iSaveDongle, file: ByteStream, ghost r0: nat, ghost w0: seq<Exchange>,
                      ghost init: seq<Exchange>, windows: nat)
    requires dev.Valid() && file.Valid()
    requires init == InitExchanges(false, dev.cardType, dev.saveSize, dev.ndsBlockWeFlag)
    requires file.pos == |file.data| == READ_WINDOW * windows
    requires file.data == Collect(dev.replies, r0, READ_DATA_REPORTS * windows)
    requires dev.received == r0 + READ_DATA_REPORTS * windows
    requires dev.inTransferMode == (windows > 0)
    requires dev.wire == w0 + (if windows > 0 then init else []) + ReadWindows(dev.saveSize > BIG_SAVE, windows)
    modifies dev`wire, dev`received, dev`firstPass, dev`inTransferMode, dev.describeCmd, dev.readCmd, file
    ensures dev.Valid() && file.Valid()
    ensures file.pos == |file.data| == READ_WINDOW * (windows + 1)
    ensures file.data == Collect(dev.replies, r0, READ_DATA_REPORTS * (windows + 1))
    ensures dev.received == r0 + READ_DATA_REPORTS * (windows + 1)
    ensures dev.inTransferMode == (file.pos < dev.saveSize)
    ensures dev.wire == w0 + init + ReadWindows(dev.saveSize > BIG_SAVE, windows + 1)
                        + (if file.pos >= dev.saveSize then [Sent(STOP_CMD, STOP_REPORTS)] else [])
  {
    ghost var before := file.data;
    ghost var window := Collect(dev.replies, dev.received, READ_DATA_REPORTS);
    DownloadGrows(dev.replies, r0, windows, before, window);
    ReadWindowsNext(w0, init, dev.saveSize > BIG_SAVE, windows);
    dev.Read(file, -1);
  }

  /** One `write` of the upload loop, stated for a source that is as long
      as the save and read a whole number of chunks so far. */
  method UploadStep(dev: R4iSaveDongle, file: ByteStream)
    requires dev.Valid() && file.Valid()
    requires |file.data| == dev.saveSize && file.pos < dev.saveSize
    requires file.pos % ChunkBytes(dev.saveSize) == 0 && dev.saveSize % ChunkBytes(dev.saveSize) == 0
    modifies dev`wire, dev`received, dev`firstPass, dev`inTransferMode, dev.describeCmd, dev.writeCmd, dev.largeCmd, file`pos
    ensures dev.Valid() && file.Valid() && dev.received == old(dev.received)
    ensures var big := dev.saveSize > BIG_SAVE;
            var ctr := dev.cardType == CTR;
            var fp := if old(dev.inTransferMode) then old(dev.firstPass) else true;
            var next := old(file.pos) + ChunkBytes(dev.saveSize);
            var rewind := big && ctr && fp && next >= dev.saveSize;
            && file.pos == (if rewind then 0 else if ctr && !fp && next >= 0x4000 then |file.data| else next)
            && dev.firstPass == (fp && !rewind)
            && dev.inTransferMode == !(big && next >= dev.saveSize && !rewind)
    ensures file.pos % ChunkBytes(dev.saveSize) == 0
  {
    ghost var c := ChunkBytes(dev.saveSize);
    ghost var next := file.pos + c;
    NextMultiple(file.pos, dev.saveSize, c);
    assert 0 % c == 0 && |file.data| % c == 0 && next % c == 0;
    dev.Write(file, -1);
    assert file.pos == 0 || file.pos == |file.data| || file.pos == next;
  }

  /** The upload loop: `write` from the file until its position reaches
      the save size. The whole file goes out; an NTR big save ends the
      transfer, a CTR big save makes its second pass and stays in transfer
      mode, and a small save never reaches the end-of-transfer rule. */
  method Upload(dev: R4iSaveDongle, file: ByteStream)
    requires dev.Valid() && file.Valid() && file.pos == 0 && !dev.inTransferMode
    requires dev.saveSize == |file.data| && Streamable(|file.data|, dev.saveSize)
    modifies dev`wire, dev`received, dev`firstPass, dev`inTransferMode, dev.describeCmd, dev.writeCmd, dev.largeCmd, file`pos
    ensures dev.Valid() && file.Valid() && dev.received == old(dev.received)
    ensures file.pos == |file.data|
    ensures var big := dev.saveSize > BIG_SAVE;
            var ctr := dev.cardType == CTR;
            && dev.inTransferMode == !(big && !ctr)
            && dev.firstPass == !(big && ctr)
  {
    ghost var big := dev.saveSize > BIG_SAVE;
    ghost var ctr := dev.cardType == CTR;
    var first := true;
    while true
      invariant dev.Valid() && file.Valid() && dev.received == old(dev.received)
      invariant |file.data| == dev.saveSize && file.pos < dev.saveSize
      invariant file.pos % ChunkBytes(dev.saveSize) == 0
      invariant first ==> !dev.inTransferMode && file.pos == 0
      invariant !first ==> dev.inTransferMode
      invariant !first && !(big && ctr) ==> dev.firstPass
      invariant !first && big && ctr && !dev.firstPass ==> file.pos < 0x4000
      decreases (if first then 2 else if dev.firstPass && big && ctr then 1 else 0), |file.data| - file.pos
    {
      UploadStep(dev, file);
      first := false;
      if file.pos >= dev.saveSize {
        break;
      }
    }
  }

  /** The 128 bytes of 0xFF erase writes again and again. */
  const ERASE_BLOCK: seq<byte> := seq(4 * WRITE_SIZE, _ => 0xFF)

  /** One `write` of the erase loop: the block from its start at offset
      `written`. */
  method EraseStep(dev: R4iSaveDongle, block: ByteStream, written: int)
    requires dev.Valid() && block.Valid() && block.pos == 0 && |block.data| == 4 * WRITE_SIZE
    requires 0 <= written < dev.saveSize
    modifies dev`wire, dev`received, dev`firstPass, dev`inTransferMode, dev.describeCmd, dev.writeCmd, dev.largeCmd, block`pos
    ensures dev.Valid() && block.Valid() && block.data == old(block.data) && dev.received == old(dev.received)
    ensures var big := dev.saveSize > BIG_SAVE;
            var ctr := dev.cardType == CTR;
            var fp := if old(dev.inTransferMode) then old(dev.firstPass) else true;
            var next := written + ChunkBytes(dev.saveSize);
            var rewind := big && ctr && fp && next >= dev.saveSize;
            && block.pos == (if rewind then 0 else ChunkBytes(dev.saveSize))
            && dev.firstPass == (fp && !rewind)
            && dev.inTransferMode == !(big && next >= dev.saveSize && !rewind)
  {
    dev.Write(block, written);
  }

  /** The erase loop: write the 0xFF block at `written`, then set `written`
      to the number of writes times the block position, until it reaches
      the save size. An NTR big save ends the transfer; a CTR big save
      rewinds once, writes its first chunk again and stays in transfer
      mode; a small save stays in transfer mode. Returns the number of
      writes. */
  method Erase(dev: R4iSaveDongle) returns (writes: nat)
    requires dev.Valid() && !dev.inTransferMode && dev.saveSize > 0
    modifies dev`wire, dev`received, dev`firstPass, dev`inTransferMode, dev.describeCmd, dev.writeCmd, dev.largeCmd
    ensures dev.Valid() && dev.received == old(dev.received)
    ensures var big := dev.saveSize > BIG_SAVE;
            var ctr := dev.cardType == CTR;
            && dev.inTransferMode == !(big && !ctr)
            && dev.firstPass == !(big && ctr)
            && writes * ChunkBytes(dev.saveSize) >= dev.saveSize
  {
    ghost var big := dev.saveSize > BIG_SAVE;
    ghost var ctr := dev.cardType == CTR;
    ghost var w := ChunkBytes(dev.saveSize);
    var block := new ByteStream(ERASE_BLOCK);
    writes := 0;
    var written := 0;
    while true
      invariant dev.Valid() && block.Valid() && block.pos == 0 && block.data == ERASE_BLOCK
      invariant dev.received == old(dev.received)
      invariant 0 <= written < dev.saveSize && writes * w < dev.saveSize + w
      invariant written == writes * w || (written == 0 && big && ctr && !dev.firstPass && writes * w >= dev.saveSize)
      invariant writes == 0 ==> !dev.inTransferMode
      invariant writes > 0 ==> dev.inTransferMode
      invariant writes > 0 && !(big && ctr) ==> dev.firstPass
      invariant writes > 0 && big && ctr && !dev.firstPass ==> written == 0 && writes * w >= dev.saveSize
      decreases dev.saveSize + w - writes * w
    {
      EraseStep(dev, block, written);
      writes := writes + 1;
      written := writes * block.pos;
      block.SeekBegin();
      if written >= dev.saveSize {
        break;
      }
    }
  }

  /** What the constructor sends: nothing when no device is found, else
      stop, the firmware request and the header request. */
  function OpeningExchanges(present: bool): seq<Exchange>
  {
    if present then [Sent(STOP_CMD, STOP_REPORTS), Sent(FIRMWARE_CMD, FIRMWARE_REPORTS),
                     Sent(GET_HEADER_CMD, GET_HEADER_REPORTS)]
    else []
  }

  /** The card the constructor decodes from the header reports. */
  function CardOf(replies: nat -> Report): CardInfo
  {
    DecodeHeader(Collect(replies, FIRMWARE_REPORTS, GET_HEADER_REPORTS))
  }

  /** The ending of a transfer: one of the three loops ran. */
  predicate Transferred(e: Ending)
  {
    e == Downloaded || e == Uploaded || e == Erased
  }

  /** A download's file: whole 512-byte windows covering the save size
      with less than a window to spare, holding the replies from `from` on,
      in order. */
  predicate PaddedReplies(saved: seq<byte>, replies: nat -> Report, from: nat, saveSize: int)
  {
    && |saved| % READ_WINDOW == 0 && saveSize <= |saved| < saveSize + READ_WINDOW
    && saved == Collect(replies, from, READ_DATA_REPORTS * (|saved| / READ_WINDOW))
  }

  /** The exchanges of a download of `windows` windows from outside
      transfer mode: the transfer start, the reads, the stop. */
  function DownloadExchanges(cardType: CardType, saveSize: int, weFlag: bool, windows: nat): seq<Exchange>
  {
    InitExchanges(false, cardType, saveSize, weFlag) + ReadWindows(saveSize > BIG_SAVE, windows)
    + [Sent(STOP_CMD, STOP_REPORTS)]
  }

  lemma Regroup(a: seq<Exchange>, b: seq<Exchange>, c: seq<Exchange>, d: seq<Exchange>)
    ensures a + b + c + d == a + (b + c + d)
  {
  }

  lemma WholeWindows(n: nat, windows: nat)
    requires n == READ_WINDOW * windows
    ensures n % READ_WINDOW == 0 && n / READ_WINDOW == windows
  {
  }

  /** The download branch: a fresh, truncated file read into until it
      covers the save size. */
  method DownloadFile(dev: R4iSaveDongle) returns (saved: seq<byte>)
    requires dev.Valid() && !dev.inTransferMode && dev.saveSize > 0
    modifies dev`wire, dev`received, dev`firstPass, dev`inTransferMode, dev.describeCmd, dev.readCmd
    ensures dev.Valid() && !dev.inTransferMode
    ensures PaddedReplies(saved, dev.replies, old(dev.received), dev.saveSize)
    ensures dev.wire == old(dev.wire)
                        + DownloadExchanges(dev.cardType, dev.saveSize, dev.ndsBlockWeFlag, |saved| / READ_WINDOW)
  {
    ghost var w0 := dev.wire;
    var file := new ByteStream([]);
    var windows := Download(dev, file);
    saved := file.data;
    WholeWindows(|saved|, windows);
    Regroup(w0, InitExchanges(false, dev.cardType, dev.saveSize, dev.ndsBlockWeFlag),
            ReadWindows(dev.saveSize > BIG_SAVE, windows), [Sent(STOP_CMD, STOP_REPORTS)]);
  }

  /** The upload branch: the file size check (an unknown save size is
      taken from the file), then the loop over a file the stream can read
      to its end. */
  method UploadFile(dev: R4iSaveDongle, fileContents: seq<byte>) returns (ending: Ending)
    requires dev.Valid() && !dev.inTransferMode
    modifies dev`wire, dev`received, dev`firstPass, dev`inTransferMode, dev`saveSize
    modifies dev.describeCmd, dev.writeCmd, dev.largeCmd
    ensures dev.Valid()
    ensures ending == Gate(Cli.ARG_UPLOAD, old(dev.saveSize), |fileContents|)
    ensures ending != Uploaded ==> dev.wire == old(dev.wire) && !dev.inTransferMode
    ensures ending == Uploaded ==>
              var big := dev.saveSize > BIG_SAVE;
              var ctr := dev.cardType == CTR;
              && dev.saveSize == |fileContents|
              && dev.inTransferMode == !(big && !ctr)
              && dev.firstPass == !(big && ctr)
  {
    var fileSize := FileSize(|fileContents|);
    if dev.saveSize <= 0 {
      dev.saveSize := fileSize;
    } else if dev.saveSize != fileSize {
      return SizeMismatch;
    }
    if !Streamable(|fileContents|, dev.saveSize) {
      return Stalled;
    }
    var file := new ByteStream(fileContents);
    Upload(dev, file);
    return Uploaded;
  }

  /** `device_ops` once a card is found: the override, then the save size
      gates and the loop of the command. `Stalled` leaves the wire alone
      only because the endless upload loop is not run. */
  method Transfer(dev: R4iSaveDongle, argPassed: int, overrideSaveSize: int, fileContents: seq<byte>)
    returns (ending: Ending, saved: seq<byte>)
    requires dev.Valid() && !dev.inTransferMode && dev.hasCard
    modifies dev`wire, dev`received, dev`firstPass, dev`inTransferMode, dev`saveSize
    modifies dev.describeCmd, dev.readCmd, dev.writeCmd, dev.largeCmd
    ensures dev.Valid() && dev.cardType == old(dev.cardType)
    ensures ending == Gate(argPassed, EffectiveSaveSize(old(dev.Info()), overrideSaveSize), |fileContents|)
    ensures !Transferred(ending) ==> dev.wire == old(dev.wire) && !dev.inTransferMode && saved == []
    ensures Transferred(ending) ==>
              dev.saveSize == (if ending == Uploaded then |fileContents|
                               else EffectiveSaveSize(old(dev.Info()), overrideSaveSize))
    ensures ending == Downloaded ==>
              && PaddedReplies(saved, dev.replies, old(dev.received), dev.saveSize)
              && !dev.inTransferMode
              && dev.wire == old(dev.wire)
                             + DownloadExchanges(dev.cardType, dev.saveSize, dev.ndsBlockWeFlag, |saved| / READ_WINDOW)
    ensures ending == Uploaded || ending == Erased ==>
              var big := dev.saveSize > BIG_SAVE;
              var ctr := dev.cardType == CTR;
              && dev.inTransferMode == !(big && !ctr)
              && dev.firstPass == !(big && ctr)
  {
    saved := [];
    if overrideSaveSize > 0 {
      dev.saveSize := overrideSaveSize;
    }
    if argPassed == Cli.ARG_INFO {
      return InfoShown, saved;
    }
    if argPassed != Cli.ARG_UPLOAD && dev.saveSize <= 0 {
      return UnknownSaveSize, saved;
    }
    if argPassed == Cli.ARG_ERASE {
      var writes := Erase(dev);
      return Erased, saved;
    }
    if argPassed == Cli.ARG_DOWNLOAD {
      saved := DownloadFile(dev);
      return Downloaded, saved;
    }
    if argPassed == Cli.ARG_UPLOAD {
      ending := UploadFile(dev, fileContents);
      return ending, saved;
    }
    return NothingToDo, saved;
  }

  /** `new R4iSaveDongle()` as `device_ops` opens it: the opening
      exchanges, and the card decoded from the header reports when the
      device is found. */
  method Open(present: bool, replies: nat -> Report, weFlag: bool) returns (dev: R4iSaveDongle)
    ensures fresh(dev) && dev.Valid() && dev.found == present && dev.replies == replies
    ensures fresh(dev.readCmd) && fresh(dev.writeCmd) && fresh(dev.largeCmd) && fresh(dev.describeCmd)
    ensures !dev.inTransferMode && dev.wire == OpeningExchanges(present)
    ensures dev.received == if present then FIRMWARE_REPORTS + GET_HEADER_REPORTS else 0
    ensures dev.Info() == if present then CardOf(replies) else NoCard
  {
    dev := new R4iSaveDongle(present, replies, weFlag);
  }

  /** `device_ops`: open the dongle, stop at the first gate that fails, and
      otherwise run the loop of the command. `present` says whether the
      device is found, `replies` are the reports it sends, `weFlag` is
      `nds_block_we_flag`, and `fileContents` is the upload file. `saved` is
      what a download writes to its file. Every ending other than the three
      loops leaves the wire as the constructor left it: no transfer was
      started and no write issued. That includes `Stalled`, only because
      the model does not run the upload loop that never ends there. */
  method RunDevice(argPassed: int, overrideSaveSize: int, present: bool, replies: nat -> Report, weFlag: bool,
                   fileContents: seq<byte>)
    returns (ending: Ending, dev: R4iSaveDongle, saved: seq<byte>)
    ensures fresh(dev) && dev.Valid() && dev.found == present && dev.replies == replies
    ensures ending == Route(present, CardOf(replies), argPassed, overrideSaveSize, |fileContents|)
    ensures !Transferred(ending) ==> dev.wire == OpeningExchanges(present) && !dev.inTransferMode && saved == []
    ensures Transferred(ending) ==>
              var card := CardOf(replies);
              && card.Card? && dev.cardType == card.cardType
              && dev.saveSize == (if ending == Uploaded then |fileContents|
                                  else EffectiveSaveSize(card, overrideSaveSize))
    ensures ending == Downloaded ==>
              && PaddedReplies(saved, replies, FIRMWARE_REPORTS + GET_HEADER_REPORTS, dev.saveSize)
              && !dev.inTransferMode
              && dev.wire == OpeningExchanges(present)
                             + DownloadExchanges(dev.cardType, dev.saveSize, dev.ndsBlockWeFlag, |saved| / READ_WINDOW)
    ensures ending == Uploaded || ending == Erased ==>
              var big := dev.saveSize > BIG_SAVE;
              var ctr := dev.cardType == CTR;
              && dev.inTransferMode == !(big && !ctr)
              && dev.firstPass == !(big && ctr)
  {
    saved := [];
    dev := Open(present, replies, weFlag);
    if !dev.found {
      return DeviceNotFound, dev, saved;
    }
    if !dev.hasCard {
      return NoCardInserted, dev, saved;
    }
    ending, saved := Transfer(dev, argPassed, overrideSaveSize, fileContents);
  }

  /** `main` after the declarations: parse the arguments; on success run
      `device_ops` and return 1, otherwise return -1. `override_save_size`
      is still 0 when `device_ops` runs, so its override never applies. */
  method RunMain(args: seq<string>, present: bool, replies: nat -> Report, weFlag: bool, fileContents: seq<byte>)
    returns (status: int, ending: Option<Ending>)
    ensures var r := Cli.ParseAll(args, Cli.START);
            && (status == 1 <==> r.outcome == Cli.Proceed)
            && (status == 1 || status == -1)
            && (ending.Some? <==> r.outcome == Cli.Proceed)
            && (ending.Some? ==> ending.value == Route(present, CardOf(replies), r.state.argPassed, 0, |fileContents|))
  {
    var cl := new Cli.CommandLine();
    var outcome := cl.Parse(args);
    if outcome != Cli.Proceed {
      return -1, None;
    }
    var e, dev, saved := RunDevice(cl.argPassed, cl.overrideSaveSize, present, replies, weFlag, fileContents);
    return 1, Some(e);
  }
}
