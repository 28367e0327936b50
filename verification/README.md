# Verified models of the VPN client's protocol and storage cores

The modules model the parts of the client where correctness spans many calls, many bytes or many
interleavings, and prove what those parts promise for every input, every run or every reachable state.

| module | what it models |
|---|---|
| `Codec`, `Session`, `Offer`, `ReadRace` | the CSTP frame decoder, the session read task, the offer head in front of it, and the race with cancellation |
| `Journal` | the hash-chained journal: crash at any byte, tampering |
| `Crc32`, `Paths`, `ArchiveFormat`, `ArchiveReader`, `ArchiveWriter` | the installer payload: in-place writer, two independent readers, extraction, where names lead, checksum |
| `CommandLine`, `Cli`, `SetupOptions` | argument quoting against the `CommandLineToArgvW` rules, the elevated relaunch, and what any command line means |
| `Xml`, `Opaque`, `ReplyFields`, `Chunked`, `ChunkGrammar` | entity escaping, verbatim echo of opaque nodes, the fields of the reply, chunked bodies and their grammar |
| `Mux` | the byte-budgeted round-robin scheduler |
| `Reducer`, `ActorRun`, `ActorEras`, `ActorStranding`, `ActorResources`, `ActorOutcomes`, `RuntimeActor` | the connection state machine, the actor over whole runs, eras and held resources, and the actor object |
| `LogStore`, `LogPaging` | the log ring, the file it is rebuilt from, and cursor paging |
| `EventBus` | gated publishers and unsynchronised subscribers, all interleavings |
| `Teardown`, `Retirement`, `Helper` | the teardown barrier with the host, the retirement saga, the helper |
| `Netmask`, `Routes` | mask arithmetic and route normalisation |

`Bytes` and `Wrappers` hold shared byte-sequence facts and result types.

Objects that the source updates in place are classes. Each of their methods is proved against a function on
values, and the guarantees are lemmas about runs of those functions. Reads from the network, the consumer
that may go away, disk outcomes, identities and compression are parameters. The journal's digest is a
parameter too: its results hold for every digest function, or else exhibit two different inputs, among those
digested for the journals at hand, with one digest.

## Where the code and a natural expectation part

- An offer whose terminator ends beyond the limit plus one, but within the limit plus one read of 512 bytes, is accepted or refused depending on how the bytes arrive (`Offer.OfferAcceptedIff`, `Offer.OfferAcceptableIff`).
- The range test of extraction adds 64-bit numbers that wrap. An entry can claim a slice that leaves the blob, or start in front of the data region and extract header bytes (`ArchiveReader.UndefinedIff`, `ArchiveReader.InRegionIff`, with an archive for each).
- The line break behind a chunk's data is passed over unread (`Chunked.ChunkEndIsNotChecked`).
- The archive writer packs names that contain two dots in a row, and the installer refuses the whole archive (`ArchiveWriter.ReadBackIff`, `ArchiveWriter.DottedNameIsNotReadBack`).
- `clear` on the log returns before emptying memory when truncation fails; its comment says memory is emptied (`LogStore.ClearEmptiesIff`).
- Filtered paging reads the counter under a second lock, so an append in between can be skipped (`LogPaging.PageExactIff`, `LogPaging.TextFilterRaces`).
- `verify_chain` does not look at the first record's number; it is 0 only up to a collision (`Journal.FirstNumberIsNotChecked`, `Journal.SequencesAreIndices`).
- `subscribe` looks and joins in two steps, so a publish can be missed or seen twice (`EventBus.CompleteIff` and the two lemmas after it).
- An effect in flight whose era is not the current one is not consumed unless the host is lost back into its era. It gets there when the host is lost into another era, and also without any lost host when a queued Connect of another era is revoked, because only the first effect sets the era (`ActorEras.ConsumableIff`, `ActorStranding.HostLossStrands`, `ActorStranding.RevokedConnectStrands`). The reducer passes completions through, so a run from rest never connects (`ActorRun.RunMovesOn`).
- Losing the host, and entering recovery on a stale completion, overwrite the state: a queued Connect or a session's lease and ownership are then neither held nor given up (`ActorResources.CommandForgetsIff`, `ActorResources.CompletionForgetsIff`).
- The helper's barrier takes joins in every phase, so both sides can have joined before the ownership that is released was acquired (`Helper.JoinFollowsIff`, `Helper.JoinsBeforeOwning`).
- A paging client that kept its cursor over a clear skips what was logged since (`LogPaging.StaleCursorSkips`).
- A file beyond 512 MiB is compressed into the archive and then refused by the decompressor (`ArchiveWriter.ExtractsWritten`).
- A `ProtocolEstablished` that arrives in Stopped makes the reopening a no-op until another Disconnect (`Teardown.ReopenableIff`, `Teardown.LateEstablishedSticks`).
- The refusal that names a teardown in progress is never returned: the closed admission is noticed first (`Teardown.TeardownRefusalNeverHeard`).
- A session closed in the middle of a frame ends like one closed between frames (`Session.CutFrameIsDropped`).
- A retirement with a repeated obligation can never be completed (`Helper.ReleaseReachableIff`).
- The leading-ones mask form shifts by the whole width on a non-zero mask with a clear top bit (`Netmask.PanicsIff`).

## Model

| member | source | states |
|---|---|---|
| `Codec.DecodeStepOfWire` | src/common/rust/crates/exv-vpn-cstp/src/codec.rs:84-124 | a whole frame of the wire grammar at the front of the buffer is taken off exactly and classified by its type, whatever the eighth header byte is and whatever follows |
| `Codec.DecodeStepIsWire` | src/common/rust/crates/exv-vpn-cstp/src/codec.rs:84-124 | conversely, whenever bytes are consumed, those bytes are one frame of the grammar |
| `Codec.DecodeStepExtends` | src/common/rust/crates/exv-vpn-cstp/src/codec.rs:84-124 | a verdict reached on a buffer is the verdict on every longer buffer |
| `Codec.ResidueBound` | src/common/rust/crates/exv-vpn-cstp/src/codec.rs:85-106 | when more bytes are needed, at most 8 + 4096 - 1 are held |
| `Codec.FrameMeaning` | src/common/rust/crates/exv-vpn-cstp/src/codec.rs:84-124 | byte by byte, what each packet type decodes to: data unless empty, control for types 5, 7 and 9, and an unknown type otherwise |
| `Codec.DecodeVerdict` | src/common/rust/crates/exv-vpn-cstp/src/codec.rs:84-106 | on any bytes at all, decoding waits exactly while a header or the body it declares is incomplete, refuses the stream exactly when no header is there, and refuses a length exactly when it is above 4096 |
| `Codec.DrainSplit` | src/common/rust/crates/exv-vpn-cstp/src/codec.rs:75-124 | draining after one chunk and then after the next gives what draining both at once gives, including where a fatal error stops it |
| `Codec.EncodableIff` | src/common/rust/crates/exv-vpn-cstp/src/codec.rs:139-169 | encoding then decoding is the identity exactly on non-empty, non-IPv6 data of at most 4096 bytes and on control kinds 5, 7 and 9 |
| `Codec.DrainOfEncodeAll` | src/common/rust/crates/exv-vpn-cstp/src/codec.rs:84-169 | the concatenated encodings of any list of encodable frames drain to that list with nothing left |
| `Codec.Decoder.Feed` | src/common/rust/crates/exv-vpn-cstp/src/codec.rs:75-77 | the chunk is appended to what is buffered |
| `Codec.Decoder.Decode` | src/common/rust/crates/exv-vpn-cstp/src/codec.rs:84-124 | verdict and remaining buffer are those of the step the laws are about; nothing is consumed when more is needed |
| `Codec.Decoder.Finish` | src/common/rust/crates/exv-vpn-cstp/src/codec.rs:128-136 | accepts the end exactly on an empty buffer, and otherwise tells a short header from a truncated body |
| `Codec.EncodeRawInto` | src/common/rust/crates/exv-vpn-cstp/src/codec.rs:153-169 | the appended header and body are the grammar's frame, or the oversize error |
| `Codec.DecodeChunks` | src/common/rust/crates/exv-vpn-cstp/src/codec.rs:75-136 | however the stream is cut: the items of the whole stream, the residue bound, and for every list of encodable frames that list back with a clean finish |
| `Session.ReadTask` | src/common/rust/crates/exv-vpn-cstp/src/session.rs:733-782 | the events sent equal a function of the whole byte stream, the way it closes and how many payloads the consumer takes; read boundaries do not enter |
| `Session.EmitDecoded` | src/common/rust/crates/exv-vpn-cstp/src/session.rs:739-761 | the inner loop sends the session's next events and stops only when more bytes are needed or the session ended |
| `Session.SessionEndsOnce` | src/common/rust/crates/exv-vpn-cstp/src/session.rs:634-700 | every session has exactly one terminal event and it is the last |
| `Session.UnknownControlSkipped` | src/common/rust/crates/exv-vpn-cstp/src/session.rs:634-688 | an unknown control frame costs its own bytes and one event; the rest of the stream is decoded as if it started there |
| `Session.FramesDelivered` | src/common/rust/crates/exv-vpn-cstp/src/session.rs:634-782 | the frames a gateway encodes come out as their payloads and control events, one each and in order, while the consumer takes them |
| `Session.DisconnectEnds` | src/common/rust/crates/exv-vpn-cstp/src/session.rs:670-688 | a disconnect frame ends the session with its code and reason, and no byte behind it matters |
| `Session.GatewaySession` | src/common/rust/crates/exv-vpn-cstp/src/session.rs:656-782 | a gateway that sends some frames and closes gives exactly those events and the close reason |
| `Session.CodecFailureEnds` | src/common/rust/crates/exv-vpn-cstp/src/session.rs:634-700 | a stream that stops making sense behind some frames gives their events and ends with the codec's error, and nothing behind that point is looked at |
| `Session.ConsumerGoneEnds` | src/common/rust/crates/exv-vpn-cstp/src/session.rs:733-761 | the first payload the consumer no longer takes ends the session; it is not delivered, and neither is anything behind it |
| `Session.CutFrameIsDropped` | src/common/rust/crates/exv-vpn-cstp/src/session.rs:733-782 | a close in the middle of a frame is reported as the close alone |
| `Offer.FindHeaderEnd` | src/common/rust/crates/exv-vpn-cstp/src/session.rs:604-609 | finds the end of the first blank line |
| `Offer.HeaderEndIsFirst` | src/common/rust/crates/exv-vpn-cstp/src/session.rs:604-609 | the offset found ends a terminator, no earlier one exists, and none exists when none is found |
| `Offer.ReadOffer` | src/common/rust/crates/exv-vpn-cstp/src/session.rs:423-449 | the loop computes the offer split that the laws below describe |
| `Offer.OfferSplitsStream` | src/common/rust/crates/exv-vpn-cstp/src/session.rs:423-449 | a stream with a terminator is found or refused as too long; within the limit plus one always found; and found, head, leftover and the unread part of the stream are the stream cut at the terminator: no byte is lost |
| `Offer.OfferWithoutTerminator` | src/common/rust/crates/exv-vpn-cstp/src/session.rs:423-449 | without a terminator the refusal depends on the stream length alone |
| `Offer.OfferAcceptedIff` | src/common/rust/crates/exv-vpn-cstp/src/session.rs:423-449 | an offer is accepted under every chunking into reads of at most 512 bytes if and only if its terminator ends by the limit plus one |
| `Offer.OfferAcceptableIff` | src/common/rust/crates/exv-vpn-cstp/src/session.rs:423-449 | and under some such chunking if and only if it ends by the limit plus 512 |
| `Offer.OpenAndRead` | src/common/rust/crates/exv-vpn-cstp/src/session.rs:423-792 | opened, offer and session together are a function of the byte stream, the close and the consumer; within the limit plus one it is always opened, beyond the limit plus 512 always refused |
| `ReadRace.EveryRunIsSafe` | src/common/rust/crates/exv-vpn-cstp/src/session.rs:733-792 | with cancellation racing every step: at most one terminal event, nothing after it, and all other events are a prefix of what the stream calls for |
| `ReadRace.DueIsPrefix` | src/common/rust/crates/exv-vpn-cstp/src/session.rs:733-792 | events due so far are never withdrawn by later bytes or by the way the stream closes |
| `ReadRace.NothingWithheld` | src/common/rust/crates/exv-vpn-cstp/src/session.rs:733-792 | a task that waits for the network has sent everything that the bytes handed over so far call for |
| `ReadRace.UncutRaceIsTheSession` | src/common/rust/crates/exv-vpn-cstp/src/session.rs:733-792 | a race that is never cut off can send exactly the session of the byte stream, and end |
| `ReadRace.CutIsFinal` | src/common/rust/crates/exv-vpn-cstp/src/session.rs:733-792 | a cut is final: the consumer going away is reported, the write side's end is not, and nothing more is sent whatever arrives |
| `Journal.PreimageInjective` | src/common/rust/crates/exv-vpn-resource/src/journal.rs:37-45 | the digest input determines sequence, previous digest and payload |
| `Journal.DecodeOfEncode` | src/common/rust/crates/exv-vpn-resource/src/journal.rs:58-67 | an encoded durable record decodes to itself whatever follows |
| `Journal.EncodeOfDecode` | src/common/rust/crates/exv-vpn-resource/src/journal.rs:94-170 | only encodings of durable records are consumed |
| `Journal.DecodeOfCutFrame` | src/common/rust/crates/exv-vpn-resource/src/journal.rs:94-170 | a frame cut in its header or digest is torn, cut in its payload is bad |
| `Journal.DecodeOne` | src/common/rust/crates/exv-vpn-resource/src/journal.rs:98-167 | the loop body reads one frame in place as the frame law says |
| `Journal.Decode` | src/common/rust/crates/exv-vpn-resource/src/journal.rs:94-170 | the loop computes the decoding that recovery and tamper evidence are about |
| `Journal.RecoveredIsPrefix` | src/common/rust/crates/exv-vpn-resource/src/journal.rs:94-170 | on arbitrary bytes, re-encoding what was recovered reproduces exactly the consumed prefix |
| `Journal.CrashRecovery` | src/common/rust/crates/exv-vpn-resource/src/journal.rs:94-170 | cutting a valid journal at any byte recovers exactly the records whose whole frame survived, with Clean, TornTail or Corrupt decided by where the cut fell |
| `Journal.DecodeExact` | src/common/rust/crates/exv-vpn-resource/src/journal.rs:94-170 | on arbitrary bytes, an outcome is the decoding if and only if it consumed whole good records as far as they go and names what stands behind them: nothing, a record cut before its digest ends, or damage |
| `Journal.DamageIsCorruption` | src/common/rust/crates/exv-vpn-resource/src/journal.rs:139-157 | a whole record with a wrong digest is corruption at its offset, behind any good records and whatever follows |
| `Journal.EncodedBytes` | src/common/rust/crates/exv-vpn-resource/src/journal.rs:58-67 | the layout of a record, byte by byte |
| `Journal.VerifyChain` | src/common/rust/crates/exv-vpn-resource/src/journal.rs:185-219 | accepts exactly the linked chains; an error names the first record that breaks the chain and says whether its number or its digest is wrong |
| `Journal.ChainedIff` | src/common/rust/crates/exv-vpn-resource/src/journal.rs:185-219 | the chain check accepts exactly what appending payloads one by one to a journal writes |
| `Journal.FirstNumberIsNotChecked` | src/common/rust/crates/exv-vpn-resource/src/journal.rs:190-195 | a chain that starts at any number is accepted, and can come out of a file exactly if the digest confuses that number with zero |
| `Journal.SequencesAreIndices` | src/common/rust/crates/exv-vpn-resource/src/journal.rs:94-219 | records that decoded and verified carry their positions, or two digest inputs of this journal collide |
| `Journal.ChainsAgree` | src/common/rust/crates/exv-vpn-resource/src/journal.rs:185-219 | two verified chains with one digest at the same position agree up to it, or a collision among their own digest inputs is exhibited |
| `Journal.TamperEvidence` | src/common/rust/crates/exv-vpn-resource/src/journal.rs:94-219 | two verified journals ending in one digest are equal in length, numbers and payloads, or a collision among their own digest inputs is exhibited |
| `Journal.FileTamperEvidence` | src/common/rust/crates/exv-vpn-resource/src/journal.rs:94-219 | the same for the files: equal bytes, or a collision |
| `Crc32.TableEntry` | src/platform/win32/windows_setup_rust/payload/crc32.cpp:6-16 | a table entry is eight bit-serial steps |
| `Crc32.TableStep` | src/platform/win32/windows_setup_rust/payload/crc32.cpp:23-25 | one lookup equals eight message bits through the bit-serial register |
| `Crc32.Crc32` | src/platform/win32/windows_setup_rust/payload/crc32.cpp:20-27 | the table-driven loop computes the bit-serial reflected CRC |
| `Crc32.CrcResumes` | src/platform/win32/windows_setup_rust/payload/crc32.cpp:20-27 | continuing from a checksum gives the checksum of the concatenation |
| `Crc32.BurstDetected` | src/platform/win32/windows_setup_rust/payload/crc32.cpp:6-27 | equally long, different messages that agree outside 32 consecutive bits, on any bit boundary, have different checksums |
| `Crc32.PolyOfTheStandard` | src/platform/win32/windows_setup_rust/payload/crc32.cpp:6-16 | the polynomial is the one of the standard, term by term |
| `Crc32.CheckValue` | src/platform/win32/windows_setup_rust/payload/crc32.cpp:6-27 | the digits one to nine give 0xCBF43926, the published check value of CRC-32 |
| `ArchiveReader.ReadU16` | src/platform/win32/windows_setup_rust/payload/archive_reader.cpp:13-20 | a little-endian field, or failure without advancing |
| `ArchiveReader.ReadUint` | src/platform/win32/windows_setup_rust/payload/archive_reader.cpp:22-45 | the same for the wider fields |
| `ArchiveReader.ReadEntry` | src/platform/win32/windows_setup_rust/payload/archive_reader.cpp:81-102 | an entry exactly when the bytes are there and the name is safe |
| `Paths.SafeStaysBelow` | src/platform/win32/windows_setup_rust/payload/archive_reader.cpp:47-58 | a name the reader accepts, resolved component by component under either separator and with drives, never leaves the directory it is joined to |
| `Paths.SafeIff` | src/platform/win32/windows_setup_rust/payload/archive_reader.cpp:47-58 | accepted are exactly the non-empty names that name no root, no drive and have no two dots in a row |
| `Paths.JoinedLeads` | src/platform/win32/windows_setup_rust/payload/archive_reader.cpp:47-58 | plain components joined by separators are accepted and lead to themselves below the directory |
| `Paths.NamesTried` | src/platform/win32/windows_setup_rust/payload/archive_reader.cpp:47-58 | names that leave the directory by root, drive or parent, each refused |
| `Paths.StricterThanNeeded` | src/platform/win32/windows_setup_rust/payload/archive_reader.cpp:51-53 | the converse fails: a name with two dots inside a component stays below and is refused |
| `ArchiveReader.ParseArchive` | src/platform/win32/windows_setup_rust/payload/archive_reader.cpp:62-107 | accepts exactly the blobs with a structural index whose names are all safe, and returns that index and data start; every name returned stays below the directory |
| `ArchiveReader.PyParseArchive` | scripts/inspect-windows-setup.py:20-46 | accepts exactly the blobs with the same structural index whose names decode and whose ranges lie inside, and returns that same index and data start |
| `ArchiveReader.ExtractArchive` | src/platform/win32/windows_setup_rust/payload/archive_reader.cpp:143-177 | writes the extracted files in table order up to the first failing entry and reports that entry's error; every path written to stays below the directory |
| `ArchiveReader.ExtractedIsSound` | src/platform/win32/windows_setup_rust/payload/archive_reader.cpp:143-177 | what is written has the size and the checksum its entry declares, and a path that stays below the directory |
| `ArchiveFormat.HeaderLayout` | src/platform/win32/windows_setup_rust/payload/archive_writer.cpp:107-110 | the header, byte by byte |
| `ArchiveFormat.EntryLayout` | src/platform/win32/windows_setup_rust/payload/archive_writer.cpp:140-159 | a table entry, byte by byte |
| `ArchiveFormat.ChecksumOfDigits` | src/platform/win32/windows_setup_rust/payload/crc32.cpp:6-27 | the checksum of the bytes of the digits one to nine is the published check value |
| `ArchiveReader.UndefinedIff` | src/platform/win32/windows_setup_rust/payload/archive_reader.cpp:143-156 | extraction leaves the blob if and only if the entry passes the earlier tests and start plus size wraps to an end inside the blob |
| `ArchiveReader.InRegionIff` | src/platform/win32/windows_setup_rust/payload/archive_reader.cpp:147-156 | what passes the range test is the data region's own bytes if and only if neither sum wraps, which is exactly when the script accepts the entry |
| `ArchiveReader.LeavesTheBlob` | src/platform/win32/windows_setup_rust/payload/archive_reader.cpp:147-156 | an archive that parses and whose extraction leaves the blob |
| `ArchiveReader.ReadsTheHeader` | src/platform/win32/windows_setup_rust/payload/archive_reader.cpp:147-156 | an archive that parses and whose entry extracts header bytes as its contents, while the script refuses it |
| `ArchiveReader.CrcDetectsDamage` | src/platform/win32/windows_setup_rust/payload/archive_reader.cpp:174-177 | damage confined to four consecutive bytes changes the checksum |
| `ArchiveReader.StoredDamageIsDetected` | src/platform/win32/windows_setup_rust/payload/archive_reader.cpp:143-177 | such damage inside a stored entry turns a successful extraction into a checksum error |
| `ArchiveWriter.SortIsOrdered` | src/platform/win32/windows_setup_rust/payload/archive_writer.cpp:103-104 | the files come out in path order and are the same files |
| `ArchiveWriter.WriteEntry` | src/platform/win32/windows_setup_rust/payload/archive_writer.cpp:140-159 | an entry's bytes are written in place at the cursor, and what lies before and behind them stays |
| `ArchiveWriter.ReserveTable` | src/platform/win32/windows_setup_rust/payload/archive_writer.cpp:113-121 | the reserved size is exactly that of the table to be filled, or a name is too long |
| `ArchiveWriter.FillTable` | src/platform/win32/windows_setup_rust/payload/archive_writer.cpp:126-160 | the in-place fill ends exactly at the reserved end with the table of the entries, and the data region is the concatenation of what was stored |
| `ArchiveWriter.BuildArchive` | src/platform/win32/windows_setup_rust/payload/archive_writer.cpp:102-164 | the result is the header, table and data of the sorted files, or nothing exactly when the algorithm, a name length or a compression fails |
| `ArchiveWriter.GivesUpIff` | src/platform/win32/windows_setup_rust/payload/archive_writer.cpp:72-137 | the writer gives up exactly on an unknown algorithm, a name beyond 65535 bytes, or a compression that returns nothing for something |
| `ArchiveWriter.TotalIsLength` | src/platform/win32/windows_setup_rust/payload/archive_writer.cpp:86-110 | the total in the header is the length of all the files' contents |
| `ArchiveWriter.EntriesTile` | src/platform/win32/windows_setup_rust/payload/archive_writer.cpp:126-160 | entry slices start at zero, each where the one before ends, and the last ends the region |
| `ArchiveWriter.IndexOfWritten` | src/platform/win32/windows_setup_rust/payload/archive_writer.cpp:102-164 | the structural index of the output is the written table, as far as the 32-bit count reaches |
| `ArchiveWriter.ReadBackIff` | src/platform/win32/windows_setup_rust/payload/archive_writer.cpp:102-164 | the installer reads the whole archive back if and only if every path is one its reader accepts and the count fits 32 bits |
| `ArchiveWriter.DottedNameIsNotReadBack` | src/platform/win32/windows_setup_rust/payload/archive_reader.cpp:51-53 | a file named a..b is packed and the archive holding it is refused |
| `ArchiveWriter.WrittenInRange` | src/platform/win32/windows_setup_rust/payload/archive_writer.cpp:126-163 | written entries lie inside the archive and fill the data region exactly, so the inspection script accepts them |
| `ArchiveWriter.ExtractsWritten` | src/platform/win32/windows_setup_rust/payload/archive_reader.cpp:143-177 | extraction gives every packed path its contents back, for both algorithms, except that a compressed file beyond 512 MiB fails to decompress |
| `ArchiveWriter.PackAndInstall` | src/platform/win32/windows_setup_rust/payload/archive_writer.cpp:102-164 | packing, parsing and extracting together write exactly the packed files, in path order, and the script finds the same index in range |
| `CommandLine.QuoteCommandLineArgument` | src/platform/win32/windows_setup_rust/util/command_line.hpp:9-32 | the one-pass loop prints the quoted form the round trip is about |
| `CommandLine.QuoteRoundTrip` | src/platform/win32/windows_setup_rust/util/command_line.hpp:9-32 | under the documented backslash rules, every string, also the empty one, parses back from its quoted form as one argument |
| `CommandLine.ArgumentsOfLine` | src/platform/win32/windows_setup_rust/util/command_line.hpp:9-32 | a line of plain and quoted tokens parses back to the tokens |
| `Cli.ParseCli` | src/platform/win32/windows_setup_rust/cli.cpp:115-262 | the loop computes the scan that the relaunch theorem is about |
| `Cli.BuildUninstallElevationParameters` | src/platform/win32/windows_setup_rust/cli.cpp:78-113 | the built line is the printed token list |
| `Cli.RelaunchRestores` | src/platform/win32/windows_setup_rust/cli.cpp:78-262 | parsing the built parameters through argument splitting and the option parser restores role, flags, directory and all six user-context strings |
| `SetupOptions.RoleOfLine` | src/platform/win32/windows_setup_rust/cli.cpp:115-262 | for every list of options, in any order and with any repetitions: the line is refused exactly if it asks for a worker and lacks a pipe or a token, and the role follows from the switches and the executable's name |
| `SetupOptions.TextsOfLine` | src/platform/win32/windows_setup_rust/cli.cpp:115-262 | every text setting is what its last option says, in either spelling, and empty if it has none, but an install with no directory takes the default one |
| `SetupOptions.ChoicesOfLine` | src/platform/win32/windows_setup_rust/cli.cpp:115-262 | every yes-or-no setting is what its last option says, or its default; the plain switches are on exactly if given |
| `SetupOptions.CaseBlind` | src/platform/win32/windows_setup_rust/cli.cpp:12-62 | upper and lower case are the same in every argument, but for the text a joined option carries |
| `SetupOptions.UnknownRefused` | src/platform/win32/windows_setup_rust/cli.cpp:115-240 | a slash or a dash in front of anything that is no option, in whatever case, refuses the whole line, whatever stands around it |
| `SetupOptions.MissingValueRefused` | src/platform/win32/windows_setup_rust/cli.cpp:160-222 | an option that lacks its value refuses the line |
| `SetupOptions.UninstallByName` | src/platform/win32/windows_setup_rust/cli.cpp:21-66 | a copy of the program uninstalls by itself exactly if its file is called Uninstall.exe, in any case and in any directory |
| `Xml.XmlEscapeInto` | src/common/rust/crates/exv-vpn-cstp/src/webvpn.rs:1133-1144 | appends the escaped value |
| `Xml.XmlUnescape` | src/common/rust/crates/exv-vpn-cstp/src/webvpn.rs:1149-1161 | the five replacement passes in order |
| `Xml.PassOpens` | src/common/rust/crates/exv-vpn-cstp/src/webvpn.rs:1149-1161 | one pass turns exactly the entities of its own character back |
| `Xml.UnescapeInvertsEscape` | src/common/rust/crates/exv-vpn-cstp/src/webvpn.rs:1133-1161 | the five passes undo the escape on every string |
| `Opaque.OpaqueNodes` | src/common/rust/crates/exv-vpn-cstp/src/webvpn.rs:1417-1430 | the loop collects the nodes of the scan |
| `Opaque.ScannedAreNodes` | src/common/rust/crates/exv-vpn-cstp/src/webvpn.rs:1417-1430 | everything collected starts with the opening tag and ends at its first closing tag |
| `Opaque.BuildAggregateAuthReplyXml` | src/common/rust/crates/exv-vpn-cstp/src/webvpn.rs:1087-1130 | the reply is assembled from its parts with empty values omitted |
| `Opaque.EchoIsVerbatim` | src/common/rust/crates/exv-vpn-cstp/src/webvpn.rs:1087-1430 | scanning the reply returns exactly the nodes scanned from the request, in order, whatever user agent, credentials and group contain |
| `ReplyFields.ReplyCarries` | src/common/rust/crates/exv-vpn-cstp/src/webvpn.rs:1087-1130 | a reader that looks for each element behind the echoed nodes finds user agent, username, password and group in their own elements, unescaped, and an element is absent exactly if its value is empty |
| `Chunked.ReadMore` | src/common/rust/crates/exv-vpn-cstp/src/webvpn.rs:1885-1899 | a read moves bytes from the stream to the buffer and fails exactly at the end |
| `Chunked.DecodeChunkedBody` | src/common/rust/crates/exv-vpn-cstp/src/webvpn.rs:1912-1970 | the result is that of the whole byte stream, however it is split between buffer and reads, and the nested loops terminate |
| `Chunked.ChunkedRoundTrip` | src/common/rust/crates/exv-vpn-cstp/src/webvpn.rs:1912-1970 | any chunks under any accepted size lines, any terminating line and any trailers decode to the chunks' data if it fits the limit, and fail otherwise |
| `Chunked.SizeLineRoundTrip` | src/common/rust/crates/exv-vpn-cstp/src/webvpn.rs:1928-1936 | every 64-bit size printed in hexadecimal, with any extension, is read back |
| `Chunked.BodyRoundTrip` | src/common/rust/crates/exv-vpn-cstp/src/webvpn.rs:1912-1970 | any body cut into any non-empty pieces and printed with hexadecimal sizes, extensions and trailers decodes to itself exactly if it fits the limit, whatever follows on the connection |
| `Chunked.ChunkEndIsNotChecked` | src/common/rust/crates/exv-vpn-cstp/src/webvpn.rs:1957-1963 | the two bytes behind a chunk's data are passed over whatever they are |
| `ChunkGrammar.Utf8Iff` | src/common/rust/crates/exv-vpn-cstp/src/webvpn.rs:1928-1936 | the size line's UTF-8 test accepts exactly the byte strings that encode some Unicode scalar values |
| `ChunkGrammar.BlankIff` | src/common/rust/crates/exv-vpn-cstp/src/webvpn.rs:1928-1936 | the white space trimmed is exactly the code points with the property White_Space |
| `ChunkGrammar.BlankIsChar` | src/common/rust/crates/exv-vpn-cstp/src/webvpn.rs:1928-1936 | and nothing but whole characters of that kind is trimmed |
| `ChunkGrammar.HexDigitIff` | src/common/rust/crates/exv-vpn-cstp/src/webvpn.rs:1928-1936 | the digits of a size are the sixteen hexadecimal ones, in either case |
| `ChunkGrammar.SizeLineIff` | src/common/rust/crates/exv-vpn-cstp/src/webvpn.rs:1928-1936 | a size line gives a size exactly if it is UTF-8 text made of a 64-bit hexadecimal number, white space around it and perhaps an extension behind a semicolon |
| `ChunkGrammar.BodyIff` | src/common/rust/crates/exv-vpn-cstp/src/webvpn.rs:1912-1970 | bytes decode to a body exactly if they are chunks with that data, a zero-size line and trailers, with anything behind, and the data fits the limit |
| `Mux.Mux.constructor` | src/common/rust/crates/exv-vpn-cstp/src/mux.rs:89-101 | starts empty with its budgets, inside the invariant |
| `Mux.Mux.PushControlFrame` | src/common/rust/crates/exv-vpn-cstp/src/mux.rs:103-112 | accepted, refused as full or refused after end of stream, as the step says, keeping the invariant |
| `Mux.Mux.PushDataFrame` | src/common/rust/crates/exv-vpn-cstp/src/mux.rs:114-128 | accepted only within the byte budget shared with what is in flight |
| `Mux.Mux.NextItem` | src/common/rust/crates/exv-vpn-cstp/src/mux.rs:130-142 | control first, then round-robin data, then one end item |
| `Mux.Mux.TakeNextData` | src/common/rust/crates/exv-vpn-cstp/src/mux.rs:177-211 | serves the producer whose turn it is or else the other, and moves its bytes in flight |
| `Mux.Mux.PeerReadBytes` | src/common/rust/crates/exv-vpn-cstp/src/mux.rs:144-146 | frees in-flight bytes, never below zero |
| `Mux.Mux.Eof` | src/common/rust/crates/exv-vpn-cstp/src/mux.rs:152-154 | sets the end of stream and nothing else |
| `Mux.StepKeeps` | src/common/rust/crates/exv-vpn-cstp/src/mux.rs:103-211 | queued bytes are the sum of both queues, queued plus in flight stays within the budget, and the end item is emitted only on an empty mux |
| `Mux.RunConserves` | src/common/rust/crates/exv-vpn-cstp/src/mux.rs:103-211 | over every run, each producer's output and backlog are its accepted input in order |
| `Mux.RunConservesControl` | src/common/rust/crates/exv-vpn-cstp/src/mux.rs:103-142 | over every run, the control kinds accepted are, in order, those emitted and those queued |
| `Mux.ControlFirst` | src/common/rust/crates/exv-vpn-cstp/src/mux.rs:130-142 | over every run, whenever a control item is queued the next item is the oldest of them, never data and never the end |
| `Mux.ControlLeavesInOrder` | src/common/rust/crates/exv-vpn-cstp/src/mux.rs:130-142 | a control item at position k has left after k+1 calls, as the k-th, whatever was pushed meanwhile |
| `Mux.InflightIsUnread` | src/common/rust/crates/exv-vpn-cstp/src/mux.rs:130-146 | over every run, the bytes in flight are those emitted as data and not yet read by the peer |
| `Mux.AdmissionIff` | src/common/rust/crates/exv-vpn-cstp/src/mux.rs:103-128 | after every run, a push is taken if and only if the stream has not ended and it fits: data by the bytes queued and in flight, control by its own count |
| `Mux.FreshRun` | src/common/rust/crates/exv-vpn-cstp/src/mux.rs:89-211 | the same from a new multiplexer: per lane accepted is emitted and queued in order, and the limits are those it was made with |
| `Mux.ItemLeavesInOrder` | src/common/rust/crates/exv-vpn-cstp/src/mux.rs:130-211 | over every run with 2k+2 data emissions, the item at position k has left as its producer's k-th, whatever was pushed meanwhile |
| `Mux.EofDrains` | src/common/rust/crates/exv-vpn-cstp/src/mux.rs:130-154 | after end of stream the backlog drains, then exactly one end item, then nothing forever |
| `LogStore.ReplayFromDisk` | src/platform/darwin/rust/crates/exv-vpn-darwin-core/src/log_aggregator.rs:373-393 | the loop rebuilds ring and counter from the lines that parse |
| `LogStore.LogAggregator.AppendEntry` | src/platform/darwin/rust/crates/exv-vpn-darwin-core/src/log_aggregator.rs:278-306 | numbers, stores, writes and compacts on schedule, degrading to memory when the disk fails |
| `LogStore.LogAggregator.CompactFile` | src/platform/darwin/rust/crates/exv-vpn-darwin-core/src/log_aggregator.rs:416-432 | rewrites the file from the ring |
| `LogStore.LogAggregator.ClearAll` | src/platform/darwin/rust/crates/exv-vpn-darwin-core/src/log_aggregator.rs:335-350 | truncates first and empties memory only if that succeeded |
| `LogStore.ReplayOfEnd` | src/platform/darwin/rust/crates/exv-vpn-darwin-core/src/log_aggregator.rs:373-393 | replaying any end of the log that covers the ring rebuilds ring and counter |
| `LogStore.ReplayExact` | src/platform/darwin/rust/crates/exv-vpn-darwin-core/src/log_aggregator.rs:373-393 | replaying any file, damaged or foreign: lines that do not parse are skipped wherever they stand, the ring is the end of the others, and the counter is the highest number among them in whatever order |
| `LogStore.RestartRefinement` | src/platform/darwin/rust/crates/exv-vpn-darwin-core/src/log_aggregator.rs:278-432 | after any run of appends, compactions, clears and reopenings with a working disk, reopening rebuilds exactly the live store; the ring is the end of the log and the file stays within its bound |
| `LogStore.FailingDiskRun` | src/platform/darwin/rust/crates/exv-vpn-darwin-core/src/log_aggregator.rs:278-432 | over every run with any disk outcomes, memory stays the end of the log, and once the disk is lost the file stays as that failure left it |
| `LogStore.PersistedIff` | src/platform/darwin/rust/crates/exv-vpn-darwin-core/src/log_aggregator.rs:278-432 | over every run with any disk outcomes, the store still persists if and only if no attempt ran into a failure, and then reopening rebuilds it; a failure of a compaction that is not due costs nothing |
| `LogStore.FirstFailureDecidesFile` | src/platform/darwin/rust/crates/exv-vpn-darwin-core/src/log_aggregator.rs:278-432 | the first failure decides the file for good, whatever follows |
| `LogStore.CounterSaturates` | src/platform/darwin/rust/crates/exv-vpn-darwin-core/src/log_aggregator.rs:278-306 | over every run the counter stays within 64 bits: it counts up by one and stays at the top |
| `LogStore.ClearEmptiesIff` | src/platform/darwin/rust/crates/exv-vpn-darwin-core/src/log_aggregator.rs:335-350 | clear empties the store exactly when truncation does not fail, although the comment promises it in both cases |
| `LogStore.FailingClearKeepsTheLog` | src/platform/darwin/rust/crates/exv-vpn-darwin-core/src/log_aggregator.rs:335-350 | an append and a failing clear leave the entry and the counter |
| `LogPaging.ListEntries` | src/platform/darwin/rust/crates/exv-vpn-darwin-core/src/log_aggregator.rs:313-326 | the entries above the cursor up to the limit, and where to continue |
| `LogPaging.List` | src/platform/darwin/rust/crates/exv-vpn-darwin-core/src/log_control.rs:54-92 | the filtered, tail and plain paths, with the counter read under a second lock on the first two |
| `LogPaging.PageSplits` | src/platform/darwin/rust/crates/exv-vpn-darwin-core/src/log_control.rs:54-92 | a page is every retained match up to a position; a non-empty one advances the cursor; and the matches between the old cursor and the new one are those the ring had forgotten, the page, and those appended between the two locks |
| `LogPaging.PageExactIff` | src/platform/darwin/rust/crates/exv-vpn-darwin-core/src/log_control.rs:54-92 | a page is every match between the old and the new cursor if and only if the ring had forgotten none and, when nothing retained matched, none was appended between the two locks |
| `LogPaging.PagingAccounts` | src/platform/darwin/rust/crates/exv-vpn-darwin-core/src/log_control.rs:54-92 | over every sequence of requests from any non-zero cursor on a growing log, deliveries are in log order and every match between the first and the last cursor is delivered once or lost once, never both |
| `LogPaging.PagingExactIff` | src/platform/darwin/rust/crates/exv-vpn-darwin-core/src/log_control.rs:54-92 | paging is exact, every match once and in order, if and only if no request lost anything |
| `LogPaging.PagingTerminates` | src/platform/darwin/rust/crates/exv-vpn-darwin-core/src/log_control.rs:54-92 | on a log that stopped growing, from any non-zero cursor, also one behind the oldest entry kept, paging delivers every retained match above the cursor exactly once, in order, and reaches the end |
| `LogPaging.FirstPage` | src/platform/darwin/rust/crates/exv-vpn-darwin-core/src/log_control.rs:58-83 | with no cursor: the newest retained matches up to the limit, in order; the next cursor stands behind the newest match, or at the counter if nothing matched |
| `LogPaging.FirstPageThenPaging` | src/platform/darwin/rust/crates/exv-vpn-darwin-core/src/log_control.rs:54-92 | the first page and the paging behind it deliver every later match once, in order, if and only if no request lost anything and, when the first page found nothing, nothing matching was appended between its two locks |
| `LogPaging.StaleCursor` | src/platform/darwin/rust/crates/exv-vpn-darwin-core/src/log_control.rs:54-92 | a cursor at or above the last number, as after a clear, gets an empty page and falls back to the end of the log |
| `LogPaging.StaleCursorSkips` | src/platform/darwin/rust/crates/exv-vpn-darwin-core/src/log_control.rs:54-92 | and no later request delivers what was logged up to there |
| `LogPaging.RaceSkipsAnEntry` | src/platform/darwin/rust/crates/exv-vpn-darwin-core/src/log_control.rs:54-92 | an entry appended between the two locks is skipped by any filter that matches it and nothing retained |
| `LogPaging.TextFilterRaces` | src/platform/darwin/rust/crates/exv-vpn-darwin-core/src/log_control.rs:130-133 | a text filter and two messages for which that happens |
| `Reducer.EmittedEffectsAreFenced` | src/common/rust/crates/exv-vpn-domain/src/reducer.rs:352-748 | every emitted effect passes the scheduler's fence check, and effects carry the issued identities in order |
| `Reducer.ConnectKeepsLiveAttempt` | src/common/rust/crates/exv-vpn-domain/src/reducer.rs:352-490 | a Connect never replaces a live attempt, starts work exactly from rest, and gets one answer: Accepted exactly if work starts, AlreadyCurrent exactly if its own intent is live |
| `Reducer.SchedulerRunsIff` | src/common/rust/crates/exv-vpn-runtime/src/effect.rs:54-90 | of the requests with a fence of their own, the scheduler runs exactly those whose effect is the one they are fenced under, and every other request |
| `Reducer.ConnectAnswers` | src/common/rust/crates/exv-vpn-domain/src/reducer.rs:352-490 | every answer a Connect can get and exactly when, also while another one waits; only an accepted or a queued one changes the state |
| `Reducer.RepeatedConnectIsHarmless` | src/common/rust/crates/exv-vpn-domain/src/reducer.rs:333-490 | over every run without a Stop, a Connect sent again is told it is current, starts nothing and changes nothing |
| `Reducer.StartNamesItsAttempt` | src/common/rust/crates/exv-vpn-domain/src/reducer.rs:718-748 | a Connect that starts works under the identities issued for it, and shows the failure it recovers from |
| `Reducer.StopNamesItsAttempt` | src/common/rust/crates/exv-vpn-domain/src/reducer.rs:492-695 | stopping a session works under that session's attempt and ownership, and under the operation that opened it |
| `Reducer.StopSays` | src/common/rust/crates/exv-vpn-domain/src/reducer.rs:492-695 | a prompt is revoked under its own fence and announced, a waiting Connect under its own operation, a stop in progress keeps its intent, and only rest answers that it is stopped already |
| `Reducer.StopGivesUpWhatIsHeld` | src/common/rust/crates/exv-vpn-domain/src/reducer.rs:492-695 | of the reducer: a Stop gives up every held resource exactly once, each under a fence of its own era, holds nothing afterwards and keeps the attempt it tears down |
| `Reducer.QueuedConnectsAccounted` | src/common/rust/crates/exv-vpn-domain/src/reducer.rs:333-748 | of the reducer, over every sequence of commands: the Connects told they were queued are, in order, those told they were cancelled and the one still waiting |
| `RuntimeActor.BoundedMailbox.TrySend` | src/common/rust/crates/exv-vpn-runtime/src/mailbox.rs:26-32 | accepts exactly below capacity and appends |
| `RuntimeActor.BoundedMailbox.TryRecv` | src/common/rust/crates/exv-vpn-runtime/src/mailbox.rs:44-46 | takes the oldest |
| `RuntimeActor.RuntimeActor.Submit` | src/common/rust/crates/exv-vpn-runtime/src/actor.rs:89-92 | a command joins its inbox or is dropped when that is full |
| `RuntimeActor.RuntimeActor.CompleteEffect` | src/common/rust/crates/exv-vpn-runtime/src/actor.rs:95-98 | the same for completions |
| `RuntimeActor.RuntimeActor.RegisterLateHandle` | src/common/rust/crates/exv-vpn-runtime/src/actor.rs:144-151 | adds an unconsumed cleanup entry |
| `RuntimeActor.RuntimeActor.Pump` | src/common/rust/crates/exv-vpn-runtime/src/actor.rs:103-111 | drains commands, then completions, each in order, through the steps the run theorems are about |
| `RuntimeActor.RuntimeActor.HandleCommand` | src/common/rust/crates/exv-vpn-runtime/src/actor.rs:164-181 | loses the host or reduces and commits |
| `RuntimeActor.RuntimeActor.HandleCompletion` | src/common/rust/crates/exv-vpn-runtime/src/actor.rs:185-222 | ignored, settled or treated as stale, as the completion step says |
| `RuntimeActor.RuntimeActor.ApplyStale` | src/common/rust/crates/exv-vpn-runtime/src/actor.rs:227-247 | converges by disposition |
| `RuntimeActor.RuntimeActor.ConsumeLateHandle` | src/common/rust/crates/exv-vpn-runtime/src/actor.rs:251-260 | runs the first entry's cleanup unless it has run |
| `RuntimeActor.RuntimeActor.BeginHostLostTeardown` | src/common/rust/crates/exv-vpn-runtime/src/actor.rs:275-309 | stopping state and one fenced effect of the new era |
| `RuntimeActor.RuntimeActor.CommitEffects` | src/common/rust/crates/exv-vpn-runtime/src/actor.rs:315-323 | records each effect in flight before scheduling it; the first fence sets the era |
| `ActorRun.EveryRunIsSafe` | src/common/rust/crates/exv-vpn-runtime/src/actor.rs:103-323 | over every run with identities that never repeat: fences in flight are distinct, none is consumed twice or while still in flight, every scheduled effect passes the fence check, late cleanups run at most once, and a protocol connection is started at most once |
| `ActorRun.RunMovesOn` | src/common/rust/crates/exv-vpn-runtime/src/actor.rs:103-323 | over every run the state only moves onwards: teardown is never left for a new attempt, and a run from rest never reaches an established session |
| `ActorRun.CurrentCompletion` | src/common/rust/crates/exv-vpn-runtime/src/actor.rs:195-222 | a completion of an effect in flight consumes that effect alone |
| `ActorRun.LateCleanupRunsIff` | src/common/rust/crates/exv-vpn-runtime/src/actor.rs:185-260 | a late cleanup runs exactly if a stale completion of this era names its resource and the first entry for it has not been consumed |
| `ActorOutcomes.LateCompletion` | src/common/rust/crates/exv-vpn-runtime/src/actor.rs:185-272 | a late completion leaves schedule, flight and era alone; it leaves the state alone unless something may be left behind, and then the actor reconciles in its own era, under a fresh recovery and with the obligation that applies |
| `ActorOutcomes.HostLossTearsDown` | src/common/rust/crates/exv-vpn-runtime/src/actor.rs:275-309 | in whatever state, a lost host moves the actor into its era, stopping a fresh attempt of that era with one effect under that attempt's fence and nothing waiting |
| `ActorOutcomes.CommandReduces` | src/common/rust/crates/exv-vpn-runtime/src/actor.rs:164-181 | any other command runs the reducer once, on five identities drawn for it alone, and commits what it decides |
| `ActorOutcomes.EraOfRun` | src/common/rust/crates/exv-vpn-runtime/src/actor.rs:315-323 | over every run in which no host is lost, the era is that of the first effect ever scheduled |
| `ActorOutcomes.InboxesHold` | src/common/rust/crates/exv-vpn-runtime/src/actor.rs:89-98 | until it is pumped, each inbox holds the first messages that fit, in order, and drops the rest |
| `ActorOutcomes.PumpTakesAll` | src/common/rust/crates/exv-vpn-runtime/src/actor.rs:103-111 | a pump takes them all, commands before completions, and leaves both inboxes empty |
| `ActorRun.CompletionsDrain` | src/common/rust/crates/exv-vpn-runtime/src/actor.rs:185-222 | completions of everything in flight drain it in whatever order they arrive, each consumed once |
| `ActorEras.ConsumesIff` | src/common/rust/crates/exv-vpn-runtime/src/actor.rs:185-222 | over every run, the completion of an effect in flight consumes it if and only if the effect is of the current era |
| `ActorEras.ConsumableIff` | src/common/rust/crates/exv-vpn-runtime/src/actor.rs:103-323 | after every run that ends in a pump, an effect in flight can still be consumed, by some further run that does not lose the host into its era, if and only if it is of the current era |
| `ActorResources.CommandForgetsIff` | src/common/rust/crates/exv-vpn-runtime/src/actor.rs:164-181 | in any state, a command leaves a held resource neither held nor given up if and only if it is a lost host and anything is held |
| `ActorResources.CompletionForgetsIff` | src/common/rust/crates/exv-vpn-runtime/src/actor.rs:185-272 | and a completion does if and only if it is stale in this era, sends the actor into recovery, and anything is held |
| `ActorResources.CommandsForgetNothing` | src/common/rust/crates/exv-vpn-runtime/src/actor.rs:103-111 | over every list of commands without a lost host, what was held is still held or was given up |
| `ActorResources.QueuedConnectIsDropped` | src/common/rust/crates/exv-vpn-runtime/src/actor.rs:275-309 | from rest, a queued Connect is dropped by a lost host: not waiting any more and not revoked |
| `ActorRun.StrandedForever` | src/common/rust/crates/exv-vpn-runtime/src/actor.rs:164-222 | an effect in flight under another era stays in flight over every run that does not lose the host back to its era |
| `ActorStranding.HostLossStrands` | src/common/rust/crates/exv-vpn-runtime/src/actor.rs:164-172 | from rest, a Connect and a host lost into another era strand the connection effect |
| `ActorStranding.RevokedConnectStrands` | src/common/rust/crates/exv-vpn-runtime/src/actor.rs:315-323 | from rest and with no host lost, a Connect of another era that is queued and then revoked strands its revocation |
| `ActorEras.OneEraStrandsNothing` | src/common/rust/crates/exv-vpn-runtime/src/actor.rs:103-323 | if all Connects and lost hosts of a run carry one era, as does what the initial state holds, nothing is ever stranded |
| `EventBus.RunKeeps` | src/common/rust/crates/exv-vpn-host/src/event_bus.rs:100-196 | over every interleaving: the n-th broadcast carries tick n, what a subscriber holds is its replay and live events in order, and each sample is shown by the event of its tick |
| `EventBus.SeenInOrder` | src/common/rust/crates/exv-vpn-host/src/event_bus.rs:129-148 | over every interleaving a subscriber's ticks never go back, and only the replayed one can be seen twice |
| `EventBus.LostOnlyIfPushedOut` | src/common/rust/crates/exv-vpn-host/src/event_bus.rs:129-148 | over every interleaving, a subscriber loses only events that sixty-four newer ones have pushed out of the channel |
| `EventBus.ReceiveMovesOn` | src/common/rust/crates/exv-vpn-host/src/event_bus.rs:129-148 | a receive that finds anything new moves on, and tells a lag exactly when it skipped something, no further than it has to |
| `EventBus.LatestSample` | src/common/rust/crates/exv-vpn-host/src/event_bus.rs:158-196 | over every interleaving, the latest sample is the last one sent on its lane or the one about to be |
| `EventBus.StepKeepsSamples` | src/common/rust/crates/exv-vpn-host/src/event_bus.rs:158-196 | a sample taken while connected is carried by the event of its own fresh tick, which is otherwise the event before it; any other sample leaves the events alone |
| `EventBus.CompleteIff` | src/common/rust/crates/exv-vpn-host/src/event_bus.rs:129-148 | without lag a subscriber sees exactly the events from the one it looked at or behind its resume point on, once each and without a gap, if and only if no event was written or broadcast between its look and its join, or none above its resume point |
| `EventBus.PublishBetweenIsMissed` | src/common/rust/crates/exv-vpn-host/src/event_bus.rs:130-139 | a publish between look and join is missed |
| `EventBus.JoinDuringPublishRepeats` | src/common/rust/crates/exv-vpn-host/src/event_bus.rs:130-139 | joining between a publisher's write and its broadcast sees the event twice |
| `EventBus.Channel.PublishComposing` | src/common/rust/crates/exv-vpn-host/src/event_bus.rs:100-119 | one publish is the gate's three steps: a fresh tick, the snapshot composed from it, the latest event and the broadcast agree |
| `EventBus.Channel.PublishSample` | src/common/rust/crates/exv-vpn-host/src/event_bus.rs:158-196 | connected: event and sample share one fresh tick and the phase is kept; otherwise no tick is minted and nothing is broadcast |
| `Teardown.TeardownBarrier.Join` | src/common/rust/crates/exv-vpn-data-plane/src/teardown.rs:61-76 | refuses a repeated or late join and releases with the second side |
| `Teardown.HostComposition.Dispatch` | src/common/rust/crates/exv-vpn-host/src/composition.rs:156-255 | every event has the effect and the next state of the step |
| `Teardown.ReconnectNeedsTeardown` | src/common/rust/crates/exv-vpn-host/src/composition.rs:156-255 | over every run, a Connect admitted after a Disconnect comes behind both barrier joins since the latest Disconnect and a reopening in Stopped that followed them |
| `Teardown.RegistersOfRun` | src/common/rust/crates/exv-vpn-host/src/composition.rs:156-255 | over every run, phase, error shown, progress shown, admission and peer each hold what the latest event that decides them wrote |
| `Teardown.EffectsTell` | src/common/rust/crates/exv-vpn-host/src/composition.rs:156-255 | each effect is returned exactly when the change it stands for takes place |
| `Teardown.TeardownRefusalNeverHeard` | src/common/rust/crates/exv-vpn-host/src/composition.rs:158-176 | over every run, a host that stops or reconciles does not admit, so the refusal that names a teardown in progress is never returned |
| `Teardown.TeardownReadmits` | src/common/rust/crates/exv-vpn-host/src/composition.rs:156-255 | from any state, a Disconnect, both joins in either order and a reopening admit the next Connect exactly if a peer is bound |
| `Teardown.ReopenableIff` | src/common/rust/crates/exv-vpn-host/src/composition.rs:156-255 | some run without a Disconnect leads to an admitted Connect if and only if the host is not closed with a used-up barrier outside Stopped |
| `Teardown.EveryRunKeepsBarrier` | src/common/rust/crates/exv-vpn-host/src/composition.rs:233-239 | over every run the barrier is released exactly when both sides have joined |
| `Teardown.StuckUntilDisconnect` | src/common/rust/crates/exv-vpn-host/src/composition.rs:177-255 | a host closed with a used-up barrier outside Stopped refuses every Connect over every run without a Disconnect |
| `Teardown.LateEstablishedSticks` | src/common/rust/crates/exv-vpn-host/src/composition.rs:177-186 | from a new host, a Disconnect, both joins and a late ProtocolEstablished lead to such a host |
| `Retirement.RetirementSaga.Begin` | src/common/rust/crates/exv-vpn-resource/src/retirement.rs:132-195 | starts once, fixing identity and obligations |
| `Retirement.RetirementSaga.GrantCleanup` | src/common/rust/crates/exv-vpn-resource/src/retirement.rs:202-213 | granted exactly in Started and to the durable identity |
| `Retirement.RetirementSaga.ObserveCleanup` | src/common/rust/crates/exv-vpn-resource/src/retirement.rs:221-243 | accepted exactly in Started when all is verified, the observed labels are the expected ones and no expected label repeats |
| `Retirement.RetirementSaga.ProveClean` | src/common/rust/crates/exv-vpn-resource/src/retirement.rs:250-278 | proves exactly after a complete observation |
| `Retirement.RetirementSaga.RetireOwnership` | src/common/rust/crates/exv-vpn-resource/src/retirement.rs:285-300 | retires once, exactly after the proof |
| `Retirement.CountDecides` | src/common/rust/crates/exv-vpn-resource/src/retirement.rs:228-241 | counting distinct labels decides completeness |
| `Helper.HelperComposition.Acquire` | src/common/rust/crates/exv-vpn-helper/src/composition.rs:112-125 | accepted exactly when idle |
| `Helper.HelperComposition.Attach` | src/common/rust/crates/exv-vpn-helper/src/composition.rs:132-143 | accepted exactly once ownership is held and not attached |
| `Helper.HelperComposition.Begin` | src/common/rust/crates/exv-vpn-helper/src/composition.rs:151-182 | starts a saga exactly while ownership is held |
| `Helper.HelperComposition.Join` | src/common/rust/crates/exv-vpn-helper/src/composition.rs:185-187 | joins the barrier |
| `Helper.HelperComposition.ObserveThenProve` | src/common/rust/crates/exv-vpn-helper/src/composition.rs:195-213 | succeeds exactly on a started saga whose obligations do not repeat |
| `Helper.HelperComposition.Retire` | src/common/rust/crates/exv-vpn-helper/src/composition.rs:225-246 | drives the saga to Retired from where it stands, or changes nothing |
| `Helper.HelperComposition.Release` | src/common/rust/crates/exv-vpn-helper/src/composition.rs:253-267 | succeeds exactly with the barrier released and the saga Retired |
| `Helper.HelperComposition.Admit` | src/common/rust/crates/exv-vpn-helper/src/composition.rs:275-289 | admits exactly attached, current, not retiring |
| `Helper.ReleaseIsClean` | src/common/rust/crates/exv-vpn-helper/src/composition.rs:112-289 | over every run, ownership is released only after both sides joined and the saga retired over obligations without repeats |
| `Helper.ReleaseIff` | src/common/rust/crates/exv-vpn-helper/src/composition.rs:253-267 | over every run, release succeeds if and only if both sides joined and the saga is Retired |
| `Helper.JoinFollowsIff` | src/common/rust/crates/exv-vpn-helper/src/composition.rs:185-267 | over every released run, a side's join comes behind a given point, such as the start of the retirement, if and only if that side had not joined by then |
| `Helper.JoinsBeforeOwning` | src/common/rust/crates/exv-vpn-helper/src/composition.rs:112-267 | both sides can join before anything is owned, and that ownership is then released without a further join |
| `Helper.NothingAfterRetirement` | src/common/rust/crates/exv-vpn-helper/src/composition.rs:112-289 | once retirement begins, no later call admits a frame, attaches, acquires or begins again |
| `Helper.FrameIsOwned` | src/common/rust/crates/exv-vpn-helper/src/composition.rs:275-289 | over every run, a frame is admitted only under the version that was acquired and while active |
| `Helper.ReleaseReachableIff` | src/common/rust/crates/exv-vpn-helper/src/composition.rs:151-267 | a begun retirement can be completed if and only if its obligations do not repeat |
| `Helper.TwiceNamedNeverReleases` | src/common/rust/crates/exv-vpn-helper/src/composition.rs:151-267 | a retirement begun with one obligation named twice stays in Retiring over every run |
| `Netmask.NetmaskToPrefix` | src/common/rust/crates/exv-vpn-cstp/src/session.rs:585-601 | Some(p) exactly for p ones followed by zeros |
| `Netmask.TrickIsMask` | src/platform/darwin/rust/crates/exv-vpn-darwin-core/src/proxy_tun.rs:356-365 | wherever it returns, the leading-ones form meets the same specification |
| `Netmask.PrefixIsUnique` | src/platform/darwin/rust/crates/exv-vpn-darwin-core/src/proxy_tun.rs:356-365 | only one answer meets it, so loop and leading-ones form agree |
| `Netmask.PanicsIff` | src/platform/darwin/rust/crates/exv-vpn-darwin-core/src/proxy_tun.rs:358-360 | the checked build panics exactly on a non-zero mask whose top bit is clear |
| `Netmask.LoopbackMaskPanics` | src/platform/darwin/rust/crates/exv-vpn-darwin-core/src/proxy_tun.rs:358-360 | 127.0.0.0 is such a mask; the other build refuses it |
| `Routes.ReadsIff` | src/platform/darwin/rust/crates/exv-vpn-darwin-core/src/credential.rs:182-200 | a text is read as a route exactly if it is a canonical dotted address with a plain prefix from 1 to 32, or alone for 32 |
| `Routes.MaskedBits` | src/platform/darwin/rust/crates/exv-vpn-darwin-core/src/credential.rs:201-203 | masking keeps the prefix bits and clears the host bits |
| `Routes.TextRoundTrip` | src/platform/darwin/rust/crates/exv-vpn-darwin-core/src/credential.rs:170-204 | a route without host bits reads back from its own text |
| `Routes.NormalizedConnectRoutes` | src/platform/darwin/rust/crates/exv-vpn-darwin-core/src/credential.rs:170-180 | the loop prints the routes kept, in order |
| `Routes.KeptIsNormal` | src/platform/darwin/rust/crates/exv-vpn-darwin-core/src/credential.rs:170-204 | what is kept has zero host bits, no repeats, and is exactly the set of routes spelled |
| `Routes.NormalizingAgain` | src/platform/darwin/rust/crates/exv-vpn-darwin-core/src/credential.rs:170-204 | normalisation is idempotent and its texts are distinct |
| `Routes.CoversTheSame` | src/platform/darwin/rust/crates/exv-vpn-darwin-core/src/credential.rs:170-204 | an address is covered by the output if and only if a valid input covers it |

## Left out

- Session diagnostics and timing events, and the outbound half of the session: they do not touch the read path.
- The text of the offer (`parse_offer`), TLS, sockets, task scheduling and the wire transports.
- Digest and LZMS internals: the digest is a parameter, and decompression is only required to undo compression.
- Reading the directory tree before the archive is sorted, and writing extracted files to disk: the file list and the written list stand for them.
- Paths in the archive are bytes; converting them between encodings is not modelled, and whether a name decodes is a parameter of the script's reader.
- Null entries in argv, embedded NUL characters, and the two credential-manager fields of the options, which parsing never sets.
- Bytes that are not text in the credentials of the auth reply: the model starts from the decoded text.
- Log redaction, the text of a log line beyond whether it parses back, and normalising the filter text.
- Machine integers wrap only where the code depends on it (archive fields and range checks, chunk sizes, shifts, the journal's length field). Byte counters of the mux, log numbers, event ticks and prefix counters are unbounded.
- ArchiveWriter.ReadBackIff: assumes the archive, its total and each file fit 64 bits, as memory does.
- Journal.VerifyChain: assumes fewer than 2^64 records, as memory does.
- LogPaging.PagingAccounts: assumes a cursor inside the log it pages; a cursor above it, as after a clear, is the subject of `LogPaging.StaleCursor`.
- LogStore.RestartRefinement: assumes disk writes succeed; with failing writes `LogStore.FailingDiskRun` holds, and a restart then replays whatever the failure left.
- Session.DisconnectEnds: the reason is the frame's raw bytes; decoding them as text, redacting them, dropping control characters and keeping 256 characters are not modelled, because redaction works on patterns outside this model.
- EventBus.CompleteIff: speaks of subscribers that did not fall behind by the channel's capacity; for those that did, `EventBus.SeenInOrder` and `EventBus.LostOnlyIfPushedOut` still hold.
- Helper.HelperComposition.Retire: the evidence of the proof it synthesises is a parameter.
- Sealing a retirement record and reading it back is taken to reproduce it.
- `try_send_drop_oldest`, end-of-file signalling on the barrier, the stats subscription (the same shape as the event subscription) and the read-only accessors: easy members.
- The admission index, packet budget, late-cleanup vault, attach guards and login classification: tables or single-branch facts.
