# R4i Save Dongle driver, modelled in Dafny

This project models the core of 005Tools, a command-line tool that reads,
writes and erases game saves on DS and 3DS cards through the R4i Save Dongle,
a USB HID device. It covers three parts of the tool.

- **The driver `R4iSaveDongle`** (`include/r4isd.h`), as the class
  `Dongle.R4iSaveDongle`. Its model has these parts:
  - **Wire.** The HID transport is abstract. Each `send_command` is one
    `Exchange` appended to the ghost log `wire`: the 65-byte report (report id
    0, then the 64 command bytes) and the number of 64-byte reports read back.
    Those reports come, in order, from a reply oracle `replies: nat -> Report`,
    and a counter `received` tracks the next one.
  - **Templates.** The four command templates the driver patches in place
    (CMD_READ_DATA, CMD_WRITE_DATA, CMD_WRITE_LARGE_DATA and CMD_DESCRIBE_CARD)
    are arrays owned by the object. The four it never patches are constants.
  - **Pure decoding.** The firmware and card-header decoding and the command
    byte patches are pure functions, in the modules `Card` and `Commands`.
    So are the decodings `ReadAddress`, `Address3` and `DescribedKiB`. The
    driver does not document how the device reads a command. These are
    decodings under which the patches lose nothing, and the round-trip
    lemmas are stated against them.
- **The tools file** (`source/tools.cpp`), as the class
  `Tools.ChunkTable`. `chunk_data` counts 512-byte blocks in the global map
  `chunks`, skipping blocks that are all 0xFF, and `get_key` finds the most
  frequent block.
- **`main` and `device_ops`** (`source/main.cpp`), as two modules:
  - `Cli` is the argument loop, with a recursive specification `ParseFrom` and
    the imperative `CommandLine.Parse` proved against it.
  - `DeviceOps` holds the save-size gates and the download, upload and erase
    loops, which run over the driver model.

Streams (`std::istream`, `std::ostream`, `std::fstream`) become
`Streams.ByteStream`: a byte sequence with a position. `int` offsets and
sizes are unbounded integers. Where the source narrows a value to a byte,
the model writes the truncation out (`Low8`, and `Shr` for `>>`). The
conversion of `pow(2.0, n)` to `int` is written out as `PowToInt`.

## Model

| member | source | states |
|---|---|---|
| Card.VersionOfByte | include/r4isd.h:188-194 | Every firmware byte decodes to a valid version, and the byte is recovered from it. |
| Card.DecodeFirmware | include/r4isd.h:184-197 | A version is decoded exactly when the three version bytes (offsets 2, 0x42, 0x82) agree. The version gives that byte back; a computed one has tenths below 10 and major `v/10+1`. |
| Card.VersionOfByteInjective | include/r4isd.h:187-194 | Two firmware bytes decode to the same version only if they are equal. |
| Card.FirmwareRoundTrip | include/r4isd.h:187-194 | A response carrying `v` in all three places decodes to `v`'s version; 1 gives "1.0", 11 gives 2.1. |
| Card.SaveSizeOf | include/r4isd.h:218-229 | Save size: 2^exp when 0 < exp < 31. With exp 0 and descriptor 1 equal to 0x62, it is 256 KiB iff descriptor 2 is 0x16, else 512 KiB. Otherwise it is 0. |
| Card.DecodeHeader | include/r4isd.h:199-229 | No card iff title[0] and save_desc1 are both 0. CTR iff title[0] is 0, and then no title or id. An NTR title is the NUL-free run at 0x40, 1 to 12 bytes long, ending at a zero byte unless it reaches 12. An NTR id is the C string at 0x4C. ROM size is set iff rom_size > 0, and is then `pow(2, rom_size)`. The save size is `SaveSizeOf`. |
| Card.TitleRun | include/r4isd.h:210 | For an NTR header, the title cut from the C string at 0x40 is a NUL-free run of 1 to 12 header bytes, ending at a zero byte unless it reaches 12. |
| Card.NtrHeaderRoundTrip | include/r4isd.h:87-100 | A header built from a title, an id and size exponents decodes back to that title, id, ROM size and save size. |
| Card.CtrHeaderDecodes | include/r4isd.h:202-216 | An encrypted card's header is "no card" iff save_desc1 is 0. Otherwise it is a CTR card with no title or id. |
| Card.IdRunsIntoUnitCode | include/r4isd.h:208-211 | The id is read as a C string, so a non-zero unit code after the 6 id bytes becomes part of it. |
| Commands.Template | include/r4isd.h:134-142 | A command template is its listed bytes followed by zeros, 64 bytes in all. |
| Commands.Outbound | include/r4isd.h:242-249 | The outbound report is report id 0 followed by exactly the 64 command bytes. |
| Commands.DescribeCardCommand | include/r4isd.h:272-276 | The patched describe-card command is a 64-byte report. Its bytes are stated by `DescribeCardEncodesSize`. |
| Commands.DescribePatchOfTemplate | include/r4isd.h:272-276 | Patching the describe-card array gives the same command whatever earlier patches left in it. |
| Commands.DescribeCardEncodesSize | include/r4isd.h:272-276 | For saves below 64 MiB, bytes 3-4 hold the save size in KiB (1 below 1 KiB), byte 2 the card type, and bytes 5-6 are 55 AA iff the card is NTR with the flag set, else 00 00. |
| Commands.ReadCommand | include/r4isd.h:399-402 | The patched read command is a 64-byte report. Its addressing is stated by `ReadCommandAddressesWindow`. |
| Commands.ReadPatchOfTemplate | include/r4isd.h:399-402 | Patching the read array gives the same command whatever earlier reads left in it. |
| Commands.ReadCommandAddressesWindow | include/r4isd.h:399-402 | A 256-aligned offset is read back exactly from the read command: below 16 MiB for big saves, below 64 KiB otherwise. Bytes 0-1 stay 33 33 and byte 5 stays 0. |
| Commands.StampedBlocks | include/r4isd.h:326-332 | The stamping loop keeps the 64-byte report size. |
| Commands.StampBlock | include/r4isd.h:327-331 | One round of the stamping loop keeps the 64-byte report size. Its bytes are stated by `StampBlockKeeps`. |
| Commands.StampBlockKeeps | include/r4isd.h:327-331 | One round writes 2, bytes 3 and 4, and byte 5 plus 32(i+1) into sub-block i, and changes no other byte. |
| Commands.StampedBlocksFrame | include/r4isd.h:326-332 | After n rounds, the bytes before 6 and from sub-block n on are unchanged. |
| Commands.StampedBlocksBytes | include/r4isd.h:326-332 | After n rounds, sub-block i holds 2, bytes 3 and 4, and byte 5 plus 32(i+1), wrapped to a byte. |
| Commands.WriteOffsetPatch | include/r4isd.h:318-322 | The offset patch keeps the 64-byte report size. Its bytes are stated by `WriteHeaderAddressesWindow` and `SmallWriteAddressesChunk`. |
| Commands.Marker | include/r4isd.h:333-346 | The marker patch keeps the 64-byte report size. Its bytes are stated by `WriteMarkerBytes` and `MarkerKeepsBlocks`. |
| Commands.WriteHeaderPatch | include/r4isd.h:318-347 | The prepared write header keeps the 64-byte report size. The sub-blocks and marker are applied only when `Stamps` holds: a CTR card, or a save above 512 KiB. Its bytes are stated by `HeaderBlocks`, `WriteHeaderAddressesWindow` and `WriteMarkerBytes`. |
| Commands.HeaderBlocks | include/r4isd.h:318-347 | The finished write header keeps bytes 0-5 from the offset patch and holds the three stamped sub-blocks. |
| Commands.MarkerKeepsBlocks | include/r4isd.h:333-346 | The marker leaves bytes 0-17 alone. |
| Commands.OffsetBytesAddress | include/r4isd.h:318-322 | For a big save, bytes 3-5 hold a 128-aligned offset below 16 MiB, and its low byte leaves room for three 32-byte steps. |
| Commands.WriteHeaderAddressesWindow | include/r4isd.h:318-332 | For a big stamped write, the header addresses the chunk's offset. Sub-block i addresses offset + 32(i+1), the next piece of the same 128-byte window. |
| Commands.WriteMarkerBytes | include/r4isd.h:333-346 | Bytes 18-25 are D8 00 00 00 FE FD FB F8 iff this is the first pass at offset 0. Otherwise 18-20 are 00 A5 5A, 25 is 55, and 21-24 are kept from before. |
| Commands.SmallWriteAddressesChunk | include/r4isd.h:318-322 | For a save of at most 64 KiB, byte 1 is 0x44, byte 2 is 0, byte 3 is 2, and bytes 4-5 hold the offset. |
| Commands.LargePatch | include/r4isd.h:352-354 | The patched large-write command is 64 bytes long. |
| Commands.LargePatchCarries | include/r4isd.h:352-354 | The patch keeps the opcode bytes, puts the index in bytes 2 and 3 and the chunk from byte 4, and leaves everything after the chunk as the previous command had it, so a short final read leaves old data there. |
| Commands.LargeFrames | include/r4isd.h:351-359 | The large-write loop yields one 64-byte command per round. |
| Commands.ChunkFrames | include/r4isd.h:349-362 | A `write` sends four large-write commands for a big save and none otherwise. |
| Commands.WriteCommand | include/r4isd.h:318-365 | The committed write command is 64 bytes long. |
| Commands.WriteCommandCarriesChunk | include/r4isd.h:318-362 | The committed command keeps the offset bytes 0-5. For a save of at most 64 KiB it carries the 32 source bytes from byte 6, over any stamps a CTR header put there. |
| Commands.LargeFramesNext | include/r4isd.h:351-359 | Each round appends one command, which patches the one before it. |
| Commands.LargeFramesCarryWindow | include/r4isd.h:351-359 | Command j carries j in bytes 2 and 3 and the j-th 32-byte piece of the source after position p. |
| Commands.LargeFramesPayload | include/r4isd.h:349-360 | The payloads of the four commands, joined in sending order, are the 128-byte source window. |
| Streams.Put | include/r4isd.h:406 | Writing at a position keeps the bytes before it, puts the new bytes there, and keeps any bytes after them. |
| Streams.PutAtEnd | include/r4isd.h:406 | Writing at the end of the data appends. |
| Streams.ByteStream.constructor | source/main.cpp:262 | A stream starts at position 0 over its contents. |
| Streams.ByteStream.ReadInto | include/r4isd.h:354 | `read` copies at most n bytes from the position into the buffer and advances the position by what it copied. |
| Streams.ByteStream.Write | include/r4isd.h:406 | `write` puts the bytes at the position and advances it by their count. |
| Streams.ByteStream.SeekBegin | include/r4isd.h:372 | `seekg(0, beg)` moves the position to 0. |
| Streams.ByteStream.SeekEnd | include/r4isd.h:368 | `seekg(0, end)` moves the position to the end. |
| Bytes.PowToInt | include/r4isd.h:213-214 | `int(pow(2.0, n))` is 2^n, between 1 and 2^30, for n below 31, and INT_MIN from 31 on. |
| Bytes.Pow2Below31 | include/r4isd.h:213-214 | Every power below 2^31 fits in a 32-bit `int`: at most 2^30. |
| Bytes.Slice | include/r4isd.h:354 | An `istream::read` of n bytes at a position yields at most n bytes: exactly the n there when that many remain, else the rest up to the end. |
| Bytes.SliceClamped | include/r4isd.h:354 | A read at a position past the end yields the same bytes as a read at the end. |
| Bytes.CStringAt | include/r4isd.h:208-211 | A C string read from a buffer: non-zero bytes of the buffer, ending at a zero byte or the end. |
| Bytes.CStringIs | include/r4isd.h:208-211 | A NUL-free run followed by a zero byte is exactly the C string read there. |
| Bytes.CStringStartsWith | include/r4isd.h:208-211 | A NUL-free run stored at a position begins the C string read there, whatever follows it. |
| Bytes.Take | include/r4isd.h:210 | `substr(0, n)` keeps the first min(n, length) bytes. |
| Dongle.Sent | include/r4isd.h:242-249 | The logged report is id 0 followed by the command bytes. |
| Dongle.Collect | include/r4isd.h:251-256 | `reports` replies give a buffer of exactly 64×`reports` bytes. |
| Dongle.CollectSplit | include/r4isd.h:251-256 | Collecting m+n replies is collecting m, then n more. |
| Dongle.CollectReport | include/r4isd.h:251-256 | The k-th 64 bytes of the buffer are the k-th reply. |
| Dongle.Unanswered | include/r4isd.h:357 | Commands sent without replies add one exchange each. |
| Dongle.UnansweredSnoc | include/r4isd.h:357 | Sending one more such command appends one exchange. |
| Dongle.NewCommand | include/r4isd.h:134-142 | A fresh 64-byte array holds the template. |
| Dongle.R4iSaveDongle.constructor | include/r4isd.h:163-232 | With no device, nothing is sent. Otherwise it sends stop, firmware (3 replies) and header (10 replies). Version and card fields are the decodings of those replies. It is not in transfer mode. |
| Dongle.R4iSaveDongle.Probe | include/r4isd.h:179-229 | The three exchanges of the constructor and the decoding of their replies. |
| Dongle.R4iSaveDongle.ReadVersion | include/r4isd.h:184-197 | `version` is `DecodeFirmware` of the firmware data. |
| Dongle.R4iSaveDongle.ReadCardInfo | include/r4isd.h:199-229 | The card fields are `DecodeHeader` of the header. |
| Dongle.R4iSaveDongle.SendCommand | include/r4isd.h:240-258 | Exactly one report goes out and exactly `reports` replies come back, in order. |
| Dongle.R4iSaveDongle.TransferInit | include/r4isd.h:266-283 | In transfer mode, nothing changes. Otherwise it patches describe-card, sends it and start-transfer, and sets first_pass and in_transfer_mode. |
| Dongle.R4iSaveDongle.DescribeCard | include/r4isd.h:272-276 | The describe-card array becomes `DescribeCardCommand` of the card type, save size and flag. |
| Dongle.R4iSaveDongle.TransferEnd | include/r4isd.h:291-299 | Stop is sent iff in transfer mode, and afterwards it is not. |
| Dongle.R4iSaveDongle.Destroy | include/r4isd.h:151-155 | Stop is sent whatever the state. |
| Dongle.R4iSaveDongle.Read | include/r4isd.h:388-413 | The offset defaults to the sink position. It runs transfer_init, sends one read (8 replies) and appends the 512 reply bytes at the sink position. Stop is sent and transfer mode left iff the sink position reaches the save size. |
| Dongle.R4iSaveDongle.ReadInTransfer | include/r4isd.h:399-411 | The part of `read` after transfer_init. |
| Dongle.R4iSaveDongle.AddressRead | include/r4isd.h:399-402 | The read array becomes `ReadCommand` for the offset. |
| Dongle.R4iSaveDongle.PrepareWriteHeader | include/r4isd.h:318-347 | The write array becomes `WriteHeaderPatch` of its previous bytes. |
| Dongle.R4iSaveDongle.StampSubBlocks | include/r4isd.h:326-332 | The loop leaves `StampedBlocks(h, 3)`. |
| Dongle.R4iSaveDongle.StampBlockAt | include/r4isd.h:327-331 | One round of the stamping loop. |
| Dongle.R4iSaveDongle.MarkWrite | include/r4isd.h:333-346 | The write array becomes `Marker` of its previous bytes. |
| Dongle.R4iSaveDongle.SendLargeChunks | include/r4isd.h:349-360 | Sends the four large-write commands of `LargeFrames`. The offset advances by 128 and the source by up to 128. |
| Dongle.R4iSaveDongle.SendLargeStep | include/r4isd.h:351-359 | One round extends the commands sent so far by the next frame. |
| Dongle.R4iSaveDongle.SendLargePiece | include/r4isd.h:352-357 | Patches and sends one large-write command. |
| Dongle.R4iSaveDongle.SendChunk | include/r4isd.h:349-365 | The data phase and the single commit: four large writes for a big save, or 32 bytes into the write command. |
| Dongle.R4iSaveDongle.Complete | include/r4isd.h:367-377 | The CTR 16 KiB seek-to-end rule. Then, once the offset reaches the save size, a CTR first pass rewinds and clears first_pass, staying in transfer mode, and every other case sends stop. |
| Dongle.R4iSaveDongle.Write | include/r4isd.h:307-380 | The whole of `write`: the wire (init, large writes, commit, stop when done), the final bytes of the write and large-write arrays, the source position, first_pass and in_transfer_mode. |
| Dongle.R4iSaveDongle.WriteInTransfer | include/r4isd.h:318-377 | The part of `write` after transfer_init. |
| Dongle.R4iSaveDongle.SendWrite | include/r4isd.h:318-365 | The header, the data phase and the commit: the write array becomes `WriteCommand`, the large frames and the commit go on the wire, and the offset advances by 128 only for a big save. |
| Tools.CharValue | source/tools.cpp:43 | On an unsigned-char target a byte keeps its value. On a signed one every value is below 128. |
| Tools.ReadChunk | source/tools.cpp:39-40 | The key is 512 bytes: the input where it reaches, zero after. |
| Tools.ErasedExactlyFullFF | source/tools.cpp:39-47 | With unsigned char, a chunk is discarded iff the input has 512 bytes and all are 0xFF. A short read is always kept. |
| Tools.SignedKeepsEveryChunk | source/tools.cpp:42-45 | With signed char, no chunk is ever discarded. |
| Tools.LexLessIrreflexive | source/tools.cpp:31 | The `std::string` order of the map's keys is irreflexive. |
| Tools.LexLessAsymmetric | source/tools.cpp:31 | It is asymmetric. |
| Tools.LexLessTransitive | source/tools.cpp:31 | It is transitive. |
| Tools.LexLessTotal | source/tools.cpp:31 | It is total on distinct keys. |
| Tools.LeastExists | source/tools.cpp:61 | Every non-empty key set has a first key, so the in-order walk is defined. |
| Tools.FirstMaxUnique | source/tools.cpp:61-66 | At most one key has the largest count with only smaller counts before it. |
| Tools.ChunkTable.constructor | source/tools.cpp:31 | `chunks` starts empty. |
| Tools.ChunkTable.ChunkData | source/tools.cpp:33-52 | A discarded chunk leaves the map unchanged. Otherwise the chunk's count rises by exactly one, and no other entry changes. |
| Tools.ChunkTable.GetKey | source/tools.cpp:55-69 | Returns the empty string when no count is positive. Otherwise it returns a key whose count is at least every count, with every earlier key's count strictly smaller (first on ties). The map is not changed. |
| Cli.IndexOf | source/main.cpp:356 | The name ends at the first '=' (or at the end). |
| Cli.SplitOption | source/main.cpp:352-357 | The name is the longest prefix without '='. With no '=' the value is empty. Otherwise the value is what follows the '=', up to the first newline or the end. |
| Cli.SplitOptionRoundTrip | source/main.cpp:352-357 | The name has no '='. Name, '=' and value rejoin to the token when it has an '=' and no newline. A token without '=' is all name, with an empty value. |
| Cli.ShortMatchFrom | source/main.cpp:362-367 | Finds the first option in map order with the given short name; if it finds none, no option has that short name. |
| Cli.Resolve | source/main.cpp:360-373 | A long name stands for itself, else the option whose short name matches. None means there is no such option. |
| Cli.CommandOf | source/main.cpp:394-406 | Exactly the words info, download, upload and erase are recognised, as ARG_INFO, ARG_DOWNLOAD, ARG_UPLOAD and ARG_ERASE respectively. Every other word is rejected. |
| Cli.ParseFrom | source/main.cpp:348-418 | A command set before stays as it is. A command set by the loop is one of the four. |
| Cli.ParseAll | source/main.cpp:344-418 | Fewer than two arguments show the help and change nothing. A command set by the parse is one of the four. |
| Cli.ParseKeepsOptions | source/main.cpp:375-392 | Parsing sets values in `opts_in` but never adds an option or changes a short name. |
| Cli.ParseKeepsFilenameRule | source/main.cpp:394-418 | A file name is only set after download or upload. The command is set once. A parse that proceeds has a file name for download and upload. |
| Cli.ProceedIsWellFormed | source/main.cpp:342-418 | A proceeding parse has no command or one of the four, a non-empty file name iff it is a transfer, and the five options. |
| Cli.OptionValueStep | source/main.cpp:388-389 | `--name=value` stores the value and marks the option as given. |
| Cli.OptionNextStep | source/main.cpp:380-387 | An option without a value takes the next argument and skips it. |
| Cli.CommandStep | source/main.cpp:394-409 | The first non-option word sets the command. |
| Cli.WordStep | source/main.cpp:410-412 | A later word becomes the file name for download or upload, and is otherwise ignored. |
| Cli.ResolveSaveSize | source/main.cpp:360-373 | `-s` resolves to `--save-size`. |
| Cli.SplitWithValue | source/main.cpp:352-357 | `-s=8192` splits into `-s` and `8192`. |
| Cli.SplitShortName | source/main.cpp:352-357 | A two-character short option is split off whole, with an empty value. |
| Cli.ResolveHelp | source/main.cpp:360-373 | `-?` resolves to `--help`. |
| Cli.ResolveUnknown | source/main.cpp:369-372 | `-x` resolves to nothing. |
| Cli.HelpExamples | source/main.cpp:344-346 | No arguments, or `-?`, shows the help. |
| Cli.MissingFilenameExample | source/main.cpp:415-418 | `download` without a file name fails. |
| Cli.UnknownCommandExample | source/main.cpp:403-406 | An unknown command word fails. |
| Cli.UnknownOptionExample | source/main.cpp:369-372 | An unknown option fails. |
| Cli.MissingValueExample | source/main.cpp:381-384 | An option needing a value fails when it is the last argument. |
| Cli.DownloadExample | source/main.cpp:342-418 | `-s=8192 download a.sav b.sav` proceeds: download, file `b.sav` (the last wins), and `--save-size` given as 8192. |
| Cli.ValueTakesNextExample | source/main.cpp:385-386 | `-s info` takes `info` as the value, so no command is set. |
| Cli.EraseExample | source/main.cpp:410-412 | `erase x.sav` proceeds and ignores the file name. |
| Cli.CommandLine.constructor | source/main.cpp:84-108 | The globals start as declared: no command, no file name, the five options, and no override. |
| Cli.CommandLine.ResolveName | source/main.cpp:360-373 | The short-name loop computes `Resolve`. |
| Cli.CommandLine.ParseStep | source/main.cpp:349-412 | One round of the loop either stops with the outcome and state `ParseFrom` gives at that argument, or moves on so that the rest of the parse is unchanged. |
| Cli.CommandLine.OptionStep | source/main.cpp:352-392 | The round for an option token, with the same stop-or-continue contract. The command and file name are untouched. |
| Cli.CommandLine.WordRound | source/main.cpp:394-412 | The round for a word: it stops only on an unknown command, and otherwise continues at the next argument. |
| Cli.CommandLine.Parse | source/main.cpp:342-418 | The loop leaves the outcome, `arg_passed`, `arg_filename` and `opts_in` as `ParseAll` says. It never writes `override_save_size`. |
| DeviceOps.FileSize | source/main.cpp:289 | The computed file size is the length, or 1 for an empty file. |
| DeviceOps.UploadSaveSize | source/main.cpp:289-293 | The upload's save size is positive: the known save size, or else the file's length. |
| DeviceOps.Gate | source/main.cpp:245-305 | Info ends first. Download and erase run iff the save size is known. An upload reports a mismatch iff a known save size differs from the file size. Otherwise it runs iff the file is `Streamable` (non-empty and a whole number of chunks), and a running upload has save size equal to the file length. Any other command does nothing. |
| DeviceOps.Route | source/main.cpp:181-216 | The device is not found iff it is absent, and no card is reported iff the device is found without a card. |
| DeviceOps.RouteGates | source/main.cpp:245-299 | Info ends before any transfer. Download and erase stop iff the save size is unknown. An upload runs only with the save size equal to the file length, and an unknown size never reports a mismatch. |
| DeviceOps.ReadWindows | source/main.cpp:280-284 | The k-th read of a download asks for the window at 512k. |
| DeviceOps.DownloadGrows | source/main.cpp:280-284 | Appending the next window extends the collected replies by 8. |
| DeviceOps.ReadWindowsNext | source/main.cpp:280-284 | The wire after one more read: the init exchanges come before the first window only. |
| DeviceOps.Download | source/main.cpp:279-286 | The loop ends, with transfer mode left. The file holds the replies in order, and its length is the save size rounded up to whole 512-byte windows. The wire is init, the k window reads, then stop. |
| DeviceOps.DownloadStep | source/main.cpp:280-284 | One read extends the file and the wire by one window. |
| DeviceOps.UploadStep | source/main.cpp:301-305 | One write over a chunk-aligned source: the new position, first_pass and transfer mode. |
| DeviceOps.Upload | source/main.cpp:301-305 | The loop ends with the whole file consumed. An NTR big save leaves transfer mode. A CTR big save makes its second pass and stays in transfer mode. A small save stays in transfer mode with first_pass set. |
| DeviceOps.EraseStep | source/main.cpp:265-268 | One write of the 0xFF block at `written`. |
| DeviceOps.Erase | source/main.cpp:256-275 | The loop ends, having written at least the save size, with the same final states as an upload. |
| DeviceOps.DownloadFile | source/main.cpp:277-286 | The download branch over a fresh, truncated file. |
| DeviceOps.UploadFile | source/main.cpp:287-305 | The upload branch: the size check or inference, then the loop. |
| DeviceOps.Open | source/main.cpp:179-185 | A fresh dongle outside transfer mode whose wire holds only the opening exchanges, and whose card is decoded from the header replies when the device is found. |
| DeviceOps.NextMultiple | source/main.cpp:301-305 | A chunk-aligned position below a chunk-aligned file length leaves room for one more whole chunk, and the next position stays aligned. |
| DeviceOps.Transfer | source/main.cpp:229-305 | A positive override replaces the save size first. The ending is `Gate` of the command, the effective save size and the file length. The three loops are the only endings that touch the wire. `Stalled` leaves the wire alone only because the endless upload loop is not run. |
| DeviceOps.RunDevice | source/main.cpp:175-305 | The ending is `Route` of presence, decoded card, command, override and file length. Every ending other than the loops leaves the wire as the constructor left it. That includes `Stalled` only because the endless upload loop is not run. A download saves the replies padded to a whole window. |
| DeviceOps.RunMain | source/main.cpp:342-466 | Returns 1 iff the parse proceeds, and then the device ending is `Route` with override 0; after help or an error it returns -1 and no device work happens. |

## Left out

- The hidapi calls (`hid_open`, `hid_write`, `hid_read`) are foreign I/O. They are replaced by the `present` parameter, the `wire` log and the `replies` oracle.
- `detect_save_size` is not part of this model. Its only call is commented out, so a header with no size information gives save size 0.
- `pow(2.0, n)` is modelled as integer 2^n for n < 31. For n >= 31 the double does not fit in `int`, and the model takes the usual x86 result, INT_MIN (`PowToInt`).
- The version string is kept as the decoded pair (major, tenths), `LiteralOne` or `Invalid`, not as printed text.
- `draw_progress`, every console message, the help text and the option descriptions are output only.
- The firmware and header debug dumps are left out. `firmware_output` and `rom_header_output` are never assigned, so those branches never run.
- The SIGINT handler and the terminal macros are left out. `dev` is deleted only in that handler, so on a normal exit the destructor's stop is never sent. `Destroy` models the destructor on its own.
- `chunk_data` takes its `std::istream` by value, which does not compile as written. Its input is modelled as the remaining bytes of the stream.
- Stream failure states are not modelled: `ByteStream` never sets failbit. An upload whose file is empty, unopenable, or not a whole number of chunks long makes a read come up short. From then on `tellg` returns -1 and the upload loop never ends. `RunDevice` reports this case as `Stalled` without running the loop.
- `nds_block_we_flag` is never initialised (its set is commented out, as is the game map), so it is the parameter `weFlag`. Other fields the constructor leaves uninitialised start at neutral values: `first_pass` false, NTR, save size 0.
- The four command templates that are never patched are constants rather than arrays. `send_command` copies the bytes it sends either way.
- The `int` arithmetic on counts, offsets and `i * tellg()` is unbounded here. The source's 32-bit overflow is not modelled; it would need saves of 2 GiB.
- DeviceOps.Upload: states the final session state and that the whole file is read, but not the exact sequence of exchanges on the wire.
- DeviceOps.Erase: likewise, it states the final session state and the bytes covered, not the exact exchanges.
- `main.h` contributes only `REPORT_SIZE` and the report layout, which are used as constants.
