# Firmware cores: a verified model

A Dafny 4.11 model of the algorithmic cores of the EK-RA8P1 vision firmware, with proofs of what they
promise. `dafny verify dfyconfig.toml` checks the whole project. Nothing of the firmware itself is built or
run here.

| area | modules |
|---|---|
| CRC-32, bit-serial and by table; error detection | `Crc` |
| PNG encoder, its layout, and a reader written from RFC 2083, RFC 1950 and RFC 1951 | `PngEncoder`, `PngLayout`, `PngReader`, `PngRoundTrip` |
| IOTV envelope, packer, zip unwrap | `Iotv`, `Zip` |
| model persistence in NOR flash | `ModelStore` |
| deferred transfers: net thread, MQTT task, transfer task; what they keep, and what they get done | `Transfer`, `TransferProgress` |
| console ring, line reader, PEM capture, and the three together | `RxRing`, `PemCapture`, `PemRoundTrip`, `Console` |
| sensor clock search | `ClockSearch` |
| start-up barrier | `InitBarrier` |
| detection overlays on the display and in the snapshot | `Overlay` |
| classifier top-N, crop and downsample | `TopN`, `CropSampler` |
| shared | `Bytes`, `Wrappers`, `Arith` |

Code that updates state in place is modelled by classes, arrays and loops whose contracts tie the new state
to a specification function; the theorems are lemmas about those functions. Interleaved tasks are step
relations over one shared state, one flag access per step, and the theorems quantify over all schedules.

## What came out

- **The model guard of the net thread has a stale read.** `iotc_app_poll` reads `s_model_pending` and then
  `s_model_running` (`src/iotc/iotc_app.c:692`). If the transfer task finishes a push between the two reads,
  the net thread starts a transfer for no push. `Transfer.StaleStartReachable` gives such a schedule.
  `Transfer.StaleStartDownloadsNothing` shows that every stale start can be followed by a download that is
  entered without strings, and `Transfer.StaleStartLosesPush` that, if the MQTT task was waiting at the time
  of the start, the next push can be accepted, told DOWNLOADING and never an outcome.
  `Transfer.StartSafeIffStillPending` states the exact condition: a start is followed by safe states only
  (each download has its strings in place, each push is told exactly what is due), on every continuation
  without a further stale start, exactly when `s_model_pending` still holds when the start is made. Wake-ups
  and teardown (`Transfer.NoLostWakeUp`, `Transfer.SafeTearDown`) need no condition.
- **A snapshot asked for is taken, with one exception.** `TransferProgress.SnapshotServedIff`: from every reachable
  state with the request up, the two tasks can come to a capture without another request, unless an upload has
  made its capture, has not yet lowered the request flag (`src/iotc/iotc_app.c:420`), and the connection has
  failed meanwhile; then that upload lowers the flag of the later request. `TransferProgress.UploadEnds`: when an
  upload ends, the request flag is up exactly if a snapshot was asked for after the upload had lowered it.
- **A payload of fewer than eight octets validates but may not load again**: the validator looks at payload
  octets 4 to 7 even when the payload is shorter, and on loading those octets are whatever the buffer held.
  `ModelStore.SaveThenLoad` states exactly when the load succeeds; `ModelStore.ShortPayloadNotReloaded` is
  an instance.
- **The packer's cap (8 MiB) is larger than the firmware's (4 MiB)**, although each file says it matches the
  other; `Iotv.FirmwareAcceptsPacked` gives the exact limit.
- **A PEM block of the wrong type is consumed through its END line exactly when no line of it reads
  `cancel`** (`PemRoundTrip.PasteCaptured`).
- **The snapshot's horizontal lines leave stray border pixels for boxes beside the picture.** For any list of
  boxes the snapshot shows what the display shows exactly when the frame paints each stray pixel as well
  (`Overlay.SnapshotShowsOverlay`); for one box that is a closed condition on its position and size
  (`Overlay.BoxAgreesIff`), which the boxes of the detector meet (`Overlay.DetectionsFit`) and a box at
  x = 192 does not (`Overlay.EdgeBoxDiffers`).
- **The sum in the bounds test of the zip unwrap wraps at 32 bits** (`src/iotc/iotc_app.c:348-349`).
  `Zip.MoveInBoundsIff`: an archive that passes the test is moved from within the download exactly when the
  sum does not wrap; `Zip.WrappedSumPasses` is a header for which it does.
- **The ring loses nothing of a paste of up to 8192 octets, however long the CLI is starved**, and the capture
  then takes the block whole (`Console.StarvedPasteCaptured`). A wait gives up after some time for every limit
  but 0xFFFFFFFF, although its counter wraps (`RxRing.GivesUpIff`).
- **An image without rows or columns encodes to a file the reader rejects**; every other encoding is read back
  exactly (`PngRoundTrip.RoundTrip`).
- **The divisor of the clock search vanishes for some setting exactly for crystals below 448 Hz times the bit
  divider** (`ClockSearch.NeverDividesByZeroIff`).

Where the code and its comments differ the model follows the code: the clock ratios with scaling enabled are
1:1:2 in `src/camera_layer/camera_control.c:217-218` although the comment above them says 1:1:4, and the
LittleFS region is 16 MiB in `ra_gen/common_data.c:287-288` although `src/model_store/model_store.c:8`
speaks of 32 MB.

## Domain

- `size_t` has 32 bits. PNG claims are for encoded lengths below 2^31, and for images whose pixels exist: one
  without columns has at most one row. A download has fewer than 2^32 octets. A save is given at most 8 MiB:
  with more its commands leave the flash (`ModelStore.PlanFitsIff`). The validator is given a buffer of at
  least 40 octets. A frame without rows is sampled for an empty output only (`CropSampler.SourceInFrameIff`).
- Flash reads see the flash directly. Each driver call is one step, which happens entirely or not at all, and
  power may be lost after it. Which commands the device takes and what each look at its status shows are
  arbitrary functions.
- A download either delivers octets, fails, or fails while heap is short; string allocation succeeds.
- Scores of the top-N are a total order (reals). The heap figure, the five-minute deadline, connection
  results and the download's outcome are free choices of a schedule.
- A line reader without a time limit waits for ever on an exhausted stream; this is answered `Blocked`.

## Model

| member | source | states |
|---|---|---|
| Bytes.Weights | src/iotc/png_gray.c:38-44 | the weight of each octet in the big-endian and little-endian layouts |
| Crc.IotvCrc32 | src/model_store/model_store.c:31-43 | the two nested loops compute the CRC-32 of a stretch of the buffer |
| Crc.Residue | src/model_store/model_store.c:31-43 | feeding the checksum of any string after it, least significant octet first, leaves the register at 0xDEBB20E3 |
| Crc.KnownChecksums | src/model_store/model_store.c:31-43 | the checksum of nothing is 0 and that of the tag IEND is 0xAE426082 |
| Crc.LfsCrcLoop | ra/arm/littlefs/lfs_util.c:17-33 | the table loop computes the same register as the bit-serial definition, from any starting value |
| Crc.TableRefinesBitSerial | ra/arm/littlefs/lfs_util.c:17-33 | two table look-ups per octet equal eight conditional shifts, for every string and starting register |
| Crc.IotvCrcIsComplementedLfsCrc | src/model_store/model_store.c:31-43 | the model store's CRC of any string is the complement of the LittleFS CRC started from all ones |
| Crc.LfsCrcChains | ra/arm/littlefs/lfs_util.c:25-32 | running over a concatenation is running over the parts in turn |
| Crc.EqualInputKeepsDifference | src/model_store/model_store.c:34-41 | two different registers never become equal under the same input |
| Crc.BurstDetected | src/model_store/model_store.c:31-43 | two different strings of one length that agree outside four consecutive octets have different CRCs |
| PngEncoder.Writer.PutBytes | src/iotc/png_gray.c:25-36 | a write either appends all its octets or sets an error that sticks; nothing at or past the capacity changes |
| PngEncoder.Writer.PutChunk | src/iotc/png_gray.c:53-63 | the requested stream grows by exactly one chunk with its checksum, error or not |
| PngEncoder.NextOctet | src/iotc/png_gray.c:117-128 | the (row, col) cursor yields the next scanline octet and moves on, across rows |
| PngEncoder.AdlerStep | src/iotc/png_gray.c:130-131 | one turn of the running sums modulo 65521 keeps them equal to the closed-form Adler sums |
| PngRoundTrip.AdlerOfRun | src/iotc/png_gray.c:99-134 | the value of the closed-form checksum on runs of one octet |
| PngEncoder.EmitScanlines | src/iotc/png_gray.c:99-134 | the loops write exactly the stored blocks of the scanlines and end with their two Adler sums |
| PngEncoder.PngEncode | src/iotc/png_gray.c:65-148 | answers 63 + raw + 5*ceil(raw/65535) when that fits, -12 exactly when it does not, -22 for other channel counts; nothing past the capacity changes; and the standards reader recovers width, height, colour type and pixels from the output, or rejects it if there are no rows or columns |
| PngLayout.BlocksLength | src/iotc/png_gray.c:104-115 | the stored blocks add five octets per started 65535 |
| PngLayout.FileLength | src/iotc/png_gray.c:75-147 | the encoding of an image is 63 + raw + 5*ceil(raw/65535) octets long |
| PngLayout.FileOctets | src/iotc/png_gray.c:68-145 | signature, IHDR fields, IDAT length, zlib header and IEND chunk stand octet for octet where the standards put them |
| PngRoundTrip.ReadMadeChunk | src/iotc/png_gray.c:53-63 | a reader of RFC 2083 chunks gets tag and body back and stops right behind the chunk |
| PngRoundTrip.ReadMadeBlocks | src/iotc/png_gray.c:104-134 | a reader of RFC 1951 stored blocks gets the raw octets back from blocks of which only the last is final |
| PngRoundTrip.UnfilterRaw | src/iotc/png_gray.c:88-128 | the filter-0 scanlines give back exactly the pixels |
| PngRoundTrip.RoundTrip | src/iotc/png_gray.c:65-148 | the standards reader accepts an encoding exactly when the image has rows and columns, and then returns the same image |
| PngRoundTrip.EncodingInjective | src/iotc/png_gray.c:65-148 | two images with the same encoding are the same image |
| PngRoundTrip.NoRowsNoFinalBlock | src/iotc/png_gray.c:104-135 | with height 0 there is no final block, and the reader rejects the zlib stream too |
| Iotv.HeaderOctets | src/model_store/model_store.c:77-88 | every field of the header in its octets |
| Iotv.ReasonIff | src/model_store/model_store.c:45-75 | each of the validator's answers, exactly when it is given |
| Iotv.ValidIffEnvelope | src/model_store/model_store.c:45-75 | the validator accepts a buffer exactly when it starts with the envelope of some payload that fits and shows the flatbuffer tag |
| Iotv.ValidateEnvelope | src/model_store/model_store.c:45-75 | what the validator answers for an envelope, whatever follows it: accepted up to 4 MiB, else the length reason |
| Iotv.AlteredPayloadRejected | src/model_store/model_store.c:65-74 | a valid blob altered only inside four consecutive payload octets is rejected |
| Iotv.WrapInPlace | src/model_store/model_store.c:77-88 | writes exactly the header of the payload already in place, and leaves the payload alone |
| Iotv.PackerRefusesIff | tools/pack_model.py:33-37 | the packer refuses exactly payloads over 8 MiB less the header, and those without the tag; other than ASCII characters become `?` |
| Iotv.BuildIsEnvelope | tools/pack_model.py:33-49 | a packed blob is the envelope of its payload, which is at least 8 octets and carries the tag |
| Iotv.FirmwareAcceptsPacked | tools/pack_model.py:30-35 | the firmware accepts a packed blob exactly when the payload fits the firmware's own cap |
| Iotv.NameFieldsAgree | src/model_store/model_store.c:86-87 | packer and firmware write the same name field exactly when only NULs follow a NUL among the 15 octets kept |
| Iotv.PackerAndFirmwareAgree | tools/pack_model.py:38-49 | for ASCII names without NUL both sides build the same blob |
| Zip.MoveDown | src/iotc/iotc_app.c:359 | an overlapping move towards the front keeps the moved octets and everything behind them |
| Zip.UnwrapInPlace | src/iotc/iotc_app.c:338-362 | recovers the one STORED entry in place, passes other data through, refuses, by the octets of the header, exactly what has another method, no size or does not end within the download, and tells when the wrapped sum would move octets from behind it |
| Zip.RefusedIff | src/iotc/iotc_app.c:338-349 | the refused downloads, by their octets; anything that is no archive is passed through |
| Zip.EntryRefusedIff | src/iotc/iotc_app.c:349 | the same by the fields of the local file header, for every header and trailer |
| Zip.MoveInBoundsIff | src/iotc/iotc_app.c:348-359 | an archive that passes the bounds test is moved from within the download exactly when offset plus size stay below 2^32 |
| Zip.WrappedSumPasses | src/iotc/iotc_app.c:348-359 | a header whose sum wraps and passes |
| Zip.UnwrapRecovers | tools/pack_model.py:76-80 | any STORED entry, with any name, extra field and trailing directory, gives back its data |
| Zip.BlobPassesThrough | src/iotc/iotc_app.c:338 | a packed blob that was not zipped is taken as it is |
| Zip.ReceivePacked | src/iotc/iotc_app.c:338-366 | a packed model, zipped or not, arrives octet for octet and passes the validator exactly up to the firmware's cap |
| ModelStore.Flash.Command | src/model_store/model_store.c:126-151 | a command takes full effect if the device takes it, and none and -5 otherwise; erasing gives 0xFF, programming clears bits |
| ModelStore.Flash.WaitIdle | src/model_store/model_store.c:90-105 | for whatever the status shows: 0, -5 or -110 exactly as the first look that is not busy is ready, unreadable, or not among four million |
| ModelStore.AndBits | src/model_store/model_store.c:143 | programming leaves exactly the bits set that were and are to be set |
| ModelStore.ErasedTakes | src/model_store/model_store.c:136-153 | programming an erased octet stores exactly the octet |
| ModelStore.PlanShape | src/model_store/model_store.c:122-151 | the commands of a save: 64 KiB blocks from 56 MiB on, then the blob in pieces of 64 octets |
| ModelStore.PlanFitsIff | src/model_store/model_store.c:122-151 | the erase and program commands of a save stay inside the flash exactly for at most 8 MiB |
| ModelStore.Save | src/model_store/model_store.c:107-166 | the flash always holds the effect of a prefix of the plan; -22 exactly for an invalid blob, else the error of the one failing driver call, or 0 and the blob stands in the slot |
| ModelStore.Load | src/model_store/model_store.c:168-199 | the answer, the octets loaded and the untouched rest of the buffer, for any flash contents |
| ModelStore.LoadAnswerIff | src/model_store/model_store.c:168-199 | each answer of a load, exactly when it is given, and the buffer it leaves |
| ModelStore.EraseModel | src/model_store/model_store.c:201-217 | after a successful erase every load finds no model |
| ModelStore.ErasedBeforeProgrammed | src/model_store/model_store.c:122-153 | every octet a save programs reads as erased just before |
| ModelStore.OutsideUntouched | src/model_store/model_store.c:122-153 | after any number of driver calls nothing outside the erased blocks has changed |
| ModelStore.LittleFsUntouched | ra_gen/common_data.c:287-288 | in particular the LittleFS region has not |
| ModelStore.InterruptedSave | src/model_store/model_store.c:107-199 | stopped after any number of driver calls, a successful load sees either the untouched flash or the new header with a prefix of the new payload followed by blank octets |
| ModelStore.TornTailDetected | src/model_store/model_store.c:107-199 | if at most four payload octets were still missing, a successful load returns the whole new blob |
| ModelStore.SaveThenLoad | src/model_store/model_store.c:107-199 | after a complete save the load returns the blob, on the exact condition that the loaded buffer shows the tag; always for payloads of 8 octets or more |
| ModelStore.ShortPayloadNotReloaded | src/model_store/model_store.c:65-69 | an accepted and stored blob that the next load does not find |
| Transfer.FlagsHold | src/iotc/iotc_app.c:423-456 | in every schedule: running transfers keep their flag up, what the net thread saw down stays down, and a raised flag is on its way to the transfer task |
| Transfer.NoLostWakeUp | src/iotc/iotc_app.c:423-456 | in every schedule a blocked transfer task without a notification, outside `prv_xfer_start`, has no flag raised |
| Transfer.SafeTearDown | src/iotc/iotc_app.c:558-566 | in every schedule the connection is torn down only when no transfer runs |
| Transfer.AckProtocol | src/iotc/iotc_app.c:247-388 | in every schedule without a stale start, over any retries: an accepted push with an ack id was told DOWNLOADING, and exactly one outcome unless that is still open, DONE exactly if its model was queued; a refused one its refusal; nothing else was told to any push; and a download runs for a pending push with its strings in place |
| Transfer.StartSafeIffStillPending | src/iotc/iotc_app.c:692-718 | starting the transfer leads only to states with every download's strings in place and every push told exactly what is due, exactly when the push is still pending at that moment |
| Transfer.StaleStartDownloadsNothing | src/iotc/iotc_app.c:288-292 | after any stale start, a schedule in which a download is entered with no strings: at once, or when the push being accepted has lost its own |
| Transfer.StaleStartLosesPush | src/iotc/iotc_app.c:380-387 | after a stale start with the MQTT task waiting, a schedule in which the next push is accepted, told DOWNLOADING and never an outcome |
| Transfer.StaleStartReachable | src/iotc/iotc_app.c:692 | a schedule in which the two reads of the guard straddle the end of a download |
| TransferProgress.ServiceRestored | src/iotc/iotc_app.c:554-765 | every schedule can be continued by the net thread and the transfer task to a connected device at rest, torn down on the way if that was asked for or the connection had failed |
| TransferProgress.RestartServed | src/iotc/iotc_app.c:560-566 | a restart asked for at any time can be carried out |
| TransferProgress.PushServed | src/iotc/iotc_app.c:692-718 | a pending push whose download has not just ended can be brought to its download, with its own strings |
| TransferProgress.SnapshotServedIff | src/iotc/iotc_app.c:721-724 | a requested snapshot can be brought to its capture, exactly unless an upload past its capture absorbs the request while the connection has failed |
| TransferProgress.UploadEnds | src/iotc/iotc_app.c:402-421 | when an upload ends its running flag is down, and the request flag is up exactly if asked for after the upload lowered it |
| TransferProgress.RoundStarts | src/iotc/iotc_app.c:692-724 | a poll round of a connected net thread that finds a push (with heap) or a snapshot asked for and not running raises the flag and notifies, whatever the other tasks do |
| RxRing.Ring.Isr | src/console_output/console_output.c:215-229 | the array with its 32-bit indices takes the octet as the bounded queue does: in order, dropped exactly when 8192 are unread |
| RxRing.Ring.ReaderStep | src/console_output/console_output.c:172-187 | each step of the reader is that of the bounded queue, and hands out exactly the octets that become delivered |
| RxRing.Interleave | src/console_output/console_output.c:172-229 | for any schedule, across index wrap, the caller is handed exactly what the bounded queue hands out and times out as often; never if told to wait for ever |
| RxRing.LostIffFull | src/console_output/console_output.c:219-223 | in any schedule an octet that finds 8192 unread leaves no trace, and any other stays at its place among the accepted |
| RxRing.Conservation | src/console_output/console_output.c:172-229 | received octets are the delivered, the unread and those that found 8192 unread |
| RxRing.NothingLostIff | src/console_output/console_output.c:219-223 | the accepted octets are the received ones exactly when none found 8192 unread |
| RxRing.ShortBurstFits | src/console_output/console_output.c:46-49 | a burst of at most 8192 octets is never lost, however long the reader is kept away |
| RxRing.Drains | src/console_output/console_output.c:172-187 | left alone the reader hands out everything accepted, in three steps an octet |
| RxRing.GivesUpAfter | src/console_output/console_output.c:174-183 | a read of a ring that stays empty gives up after a tenth of the limit, rounded up, and not before |
| RxRing.GivesUpIff | src/console_output/console_output.c:174-183 | although the counter wraps, it gives up for every limit except the one that stands for ever |
| PemCapture.Cli.ReadLine | src/iotc/iotc_cli.c:74-127 | the character loop yields the next line of the stream, its length, the rest, and the carriage-return memory |
| PemCapture.ContainsIff | src/iotc/iotc_cli.c:174 | the label is found exactly when it stands somewhere in the line |
| PemCapture.EndMarkIff | src/iotc/iotc_cli.c:117-118 | which lines end a read without a line end |
| PemCapture.Markers | src/iotc/iotc_cli.c:163-168 | the texts of the markers and of the cancel line |
| PemCapture.EraseTakesBack | src/iotc/iotc_cli.c:94-103 | backspace or delete takes back the last character |
| PemCapture.Ignored | src/iotc/iotc_cli.c:94-106 | other control characters, characters past the end and erasing nothing leave no mark |
| PemCapture.LineFeed | src/iotc/iotc_cli.c:81-93 | a line feed is dropped exactly behind a carriage return |
| PemCapture.ReadPem | src/iotc/iotc_cli.c:135-211 | for any input the captured text never exceeds 4094 octets |
| PemCapture.Cli.CapturePem | src/iotc/iotc_cli.c:135-211 | the capture loop leaves the captured text NUL-terminated in the buffer, answers its length or -1, and consumes exactly what it should |
| PemRoundTrip.PasteCaptured | src/iotc/iotc_cli.c:135-211 | any block after any other lines, abandoned blocks included, with any line ends and a left-over line feed: captured as its lines if the label stands in its BEGIN line and it fits, else refused through its END line, for the wrong type exactly when no line reads `cancel` |
| PemRoundTrip.RealLabels | src/iotc/iotc_cli.c:362-373 | certificates are captured by `set cert` and refused by `set key`, and private keys the other way round |
| PemRoundTrip.CancelGivesUp | src/iotc/iotc_cli.c:163-167 | `cancel` before any block gives up and leaves what follows |
| PemRoundTrip.BlankGivesUp | src/iotc/iotc_cli.c:153-160 | so does a blank line before anything was typed |
| PemRoundTrip.StrayEnd | src/iotc/iotc_cli.c:176-179 | an END line outside a block is passed over |
| PemRoundTrip.CaptureBlock | src/iotc/iotc_cli.c:150-210 | inside a block of the right type: the whole text, or refusal through END when it grows too large |
| PemRoundTrip.RefuseBlock | src/iotc/iotc_cli.c:163-190 | inside a block of the wrong type: refusal, through END exactly without a `cancel` line |
| PemRoundTrip.ReadEntry | src/iotc/iotc_cli.c:74-127 | a printable line is read as it is, whatever its terminator and whatever came before |
| Console.ReadPemMore | src/iotc/iotc_cli.c:135-211 | a capture that has ended does not depend on what is typed after it, and leaves that alone |
| Console.PasteThroughRing | src/iotc/iotc_cli.c:135-211 | a paste sent over the UART under any interleaving that never finds 8192 unread: the capture waits until the END marker was handed over, and then has the block, or has refused it, and nothing of what follows |
| Console.StarvedPasteCaptured | src/console_output/console_output.c:46-49 | a paste of at most 8192 octets is captured whole however long the CLI task was kept from reading |
| ClockSearch.Search | src/camera_layer/camera_control.c:168-242 | in plain inequalities: the eight cells hold a setting that meets the base clock limit and the clock ratios, `error` is how far its MIPI clock is off the target, and every other such setting is further off, or as far and visited earlier; none is stored only if there is none |
| ClockSearch.ClocksIff | src/camera_layer/camera_control.c:184-207 | the clocks of a setting are the quotients fixed by those inequalities |
| ClockSearch.BreakDropsNothing | src/camera_layer/camera_control.c:185-187 | leaving the multiplier loop at 800 MHz drops no feasible setting |
| ClockSearch.SysPllInRange | src/camera_layer/camera_control.c:185-202 | the 800 MHz bound also keeps the system PLL product inside 32 bits |
| ClockSearch.NextInRange | src/camera_layer/camera_control.c:183-185 | the product that first exceeds the bound still fits 32 bits |
| ClockSearch.RankIsLoopOrder | src/camera_layer/camera_control.c:170-183 | the rank used by the theorem is the order in which the seven loops visit the settings |
| ClockSearch.NeverDividesByZeroIff | src/camera_layer/camera_control.c:202-209 | the divisor of the ratio tests is never 0 exactly for crystals of at least 448 Hz times the bit divider |
| ClockSearch.SlowestVanishes | src/camera_layer/camera_control.c:202-209 | below that it is 0 for the slowest setting, which the search does visit |
| InitBarrier.Barrier | ra_gen/main.c:49-83 | for 1 to 257 threads and any schedule: one initialisation, finished before any thread leaves; no refused give, at most 256 tokens; after the give loop N-1 tokens were given and one is left for each waiting thread |
| InitBarrier.NoDeadlock | ra_gen/main.c:49-83 | until every thread is through, some thread can move |
| InitBarrier.Completes | ra_gen/main.c:49-83 | every schedule can be continued until all are through, with exactly one initialisation and N-1 tokens |
| InitBarrier.NoGiveFailsIff | ra_gen/main.c:87-112 | no give is ever refused exactly for at most 257 threads |
| Overlay.OverlayDraw | src/display_layer/detection_overlay.c:58-82 | for any boxes exactly the boxes' pixels change, inside the frame |
| Overlay.DisplayShows | src/display_layer/detection_overlay.c:58-82 | a detection within the frame is a green border of three pixels, 80 columns in, and nothing else |
| Overlay.ScaledIs | src/iotc/iotc_snapshot.c:117-120 | coordinates are two and a half times the model's, cut off towards zero |
| Overlay.Snapshot | src/iotc/iotc_snapshot.c:91-127 | for any boxes the picture is the cropped frame with the boxes drawn, inside the buffer |
| Overlay.SnapshotShows | src/iotc/iotc_snapshot.c:91-127 | a detection within the snapshot is the same border on the middle 480 columns of the frame |
| Overlay.ChannelBits | src/iotc/iotc_snapshot.c:97-104 | red, green and blue come from their bit fields, stretched to eight bits |
| Overlay.HLineAgrees | src/iotc/iotc_snapshot.c:56-66 | a horizontal line looks the same in both renderers exactly when it leaves no stray border pixel |
| Overlay.BoxesAgreeIff | src/display_layer/detection_overlay.c:24-82 | for any boxes both renderers paint the same pixels of the common area exactly when each stray pixel is painted in the frame as well |
| Overlay.SnapshotShowsOverlay | src/iotc/iotc_snapshot.c:91-127 | annotating the crop equals cropping the annotated frame, for every frame, exactly on the same condition |
| Overlay.BoxAgreesIff | src/iotc/iotc_snapshot.c:107-127 | for one box the condition in closed form: no stray pixel, all of them off the screen, or all under the box's own vertical line |
| Overlay.HarmlessBoxesAgree | src/iotc/iotc_snapshot.c:107-127 | any list of such boxes looks the same in both |
| Overlay.DetectionsFit | src/iotc/iotc_snapshot.c:117-120 | for all boxes inside the detector's input the snapshot shows what the display shows |
| Overlay.EdgeBoxDiffers | src/iotc/iotc_snapshot.c:61-62 | a box at x = 192 for which the two pictures differ |
| Overlay.CoveredStrayAgrees | src/iotc/iotc_snapshot.c:61-62 | a box whose stray pixels lie under its own vertical line, for which they do not |
| TopN.GetTopNResults | src/ai_application/ai_common/Classifier.cc:42-74 | distinct labels with their own scores in descending order, equal to the first scores of a full sort, none left out being greater |
| TopN.TakesTheTop | src/ai_application/ai_common/Classifier.cc:51-71 | what the streaming set holds is what sorting everything and taking the first would give |
| TopN.SetVectorResults | src/ai_application/ai_common/Classifier.cc:30-40 | the vector is filled from the greatest element down |
| CropSampler.ImageRgb565ToRgb888 | src/camera_thread_entry.c:115-152 | exactly 3*outW*outH octets are written, in order, the rest and the error cases unchanged |
| CropSampler.OutputAt | src/camera_thread_entry.c:131-149 | each output octet is the channel of its source pixel |
| CropSampler.OutputPixel | src/camera_thread_entry.c:131-149 | in plain inequalities: which row and column of the frame an output pixel shows, and its three octets from the pixel's bit fields |
| CropSampler.SourceInside | src/camera_thread_entry.c:129-135 | every read lies in the centred square of the frame |
| CropSampler.SourceInFrameIff | src/camera_thread_entry.c:129-135 | the source pixel belongs to the frame exactly when the frame has rows |
| CropSampler.ProductsFit | src/camera_thread_entry.c:133-135 | the products of the sampler fit 32 bits |
| CropSampler.SampleMonotone | src/camera_thread_entry.c:133-135 | sampled rows and columns never go back |
| CropSampler.NeverRepeatsIff | src/camera_thread_entry.c:133-135 | no source row is shown twice exactly when the picture is not enlarged |

## Left out

- AckProtocol: holds for schedules without a stale start, because it fails after one; `StartSafeIffStillPending` is the exact condition for a start.
- Save: more than 8 MiB, for which its commands leave the flash.
- Flash.Command: a driver call that stops half way through an erase or a program is not modelled; each call happens entirely or not at all.
- Load: cache invalidation and the memory-mapped window are taken to show the flash as it is.
- PngEncode: images whose encoding reaches 2^31 octets, and images without columns but with two rows or more, for which the source reads past the pixels.
- UnwrapInPlace: what the buffer holds after a move from behind the download; the method stops before it.
- GetTopNResults: NaN scores, dequantisation and softmax; which of several equal scores is kept is not stated.
- Transfer: the three strings of a push are one slot freed and filled as a whole; a push without a download URL, the reboot request, telemetry and the acknowledgment of a snapshot are not modelled.
- Transfer: the three download attempts of one execution are one step, and the heap test and five-minute deadline a free choice.
- InitBarrier: the error callback of a refused give is recorded but does not stop the thread.
- The serial snapshot entry may raise the snapshot flag at any time; no ownership is claimed for the snapshot's ack id.
- The register writes that follow the clock search, and the sensor, display and flash drivers beneath the models.
- TLS, HTTP, MQTT, cJSON, PKCS#11, KVS and the file upload: library wrappers and string formatting.
- LittleFS and the configuration files on it; CLI command dispatch; telemetry formatting.
- `ra_gen` apart from the barrier and the partition bounds, and the board configuration.
