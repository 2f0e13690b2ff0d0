# bt-daemon core, modelled in Dafny

The program is a small BitTorrent service made of three layers:

- `BtCore` (C++, `src/bt_core.cpp`) owns a libtorrent session on a worker
  thread. Every public operation posts a closure to a command queue and
  waits for it. The closures keep a map from the lower-case hex of a
  torrent's v1 SHA-1 info-hash to its handle.
- A C API (`src/bt_api.cpp`) wraps a `BtCore` in an opaque `BtHandle`. It
  checks arguments and output buffers, copies info-hashes out as C strings,
  and re-adds every `*.torrent` file of a directory (`bt_resume_all_torrents`).
- A daemon (`src/bt_daemon.c`) reads length-prefixed JSON-RPC frames from
  standard input and dispatches them to the API through a single global
  instance. It writes one framed JSON response per well-formed frame to
  standard output, until end of input or a `shutdown` request.

The model follows that structure, one module per concern:

| file | module | what it holds |
|---|---|---|
| `base.dfy` | `Base` | bytes, `Option`, C strings in fixed buffers |
| `types.dfy` | `BtTypes` | `BtState`, `BtTorrentStatus`, the buffer sizes of `bt_api.h` |
| `hex.dfy` | `Hex` | `sha1_to_hex` and its inverse |
| `config.dfy` | `Config` | `loadConfig` (line parsing, keys, fallbacks) and the session settings of `threadFunc` |
| `actor.dfy` | `Actor` | what one queued closure does to the info-hash map, given the engine's answer |
| `core.dfy` | `Core` | class `BtCore`: running flag, command queue, worker steps and the blocking operations |
| `api.dfy` | `Api` | class `BtHandle` and the `bt_*` functions, including in-place copies into caller arrays |
| `framing.dfy` | `Framing` | `recv_frame` / `send_frame` over partial reads and writes |
| `rpc.dfy` | `Rpc` | request envelopes, responses, state names, the status result object |
| `daemon.dfy` | `Daemon` | class `Daemon` (the `bt_instance` singleton), the handlers and the main loop |

libtorrent is not modelled. Each engine call is answered by an `Oracle`
value the caller supplies: whether `add_torrent` (or the preparation of a
seed torrent) succeeded, the new handle and its v1 digest, and the
`torrent_status` of a handle. Every operation also records the engine calls
it makes in `engineLog`. File contents, directory listings and stat results
are a `FileSystem` / `Directories` value. Byte streams are a `Pipe` (the
data plus how many bytes each `read` returns) and a `Sink` (how many each
`write` accepts).

## Model

| member | source | states |
|---|---|---|
| Base.CString | src/bt_api.cpp:35-42 | the C string held in a buffer is the longest NUL-free prefix, and it is followed by NUL whenever it is shorter than the buffer |
| Base.CStringOfTerminated | src/bt_api.cpp:35-42 | a NUL-free string written before a NUL reads back as exactly that string, whatever follows |
| Base.FindFirst | src/bt_core.cpp:110-113 | `find` gives the first position of the character, or none exactly when it does not occur |
| BtTypes.Ordinal | src/bt_api.h:14-21 | the enumeration values run 0..5 with UNKNOWN = 0 |
| BtTypes.OrdinalRoundTrip | src/bt_api.h:14-21 | the value-to-state mapping is a bijection between the states and 0..5 |
| BtTypes.ZeroStatus | src/bt_api.cpp:119-127 | a status record that has been cleared reads as UNKNOWN, 0 progress and an empty message |
| Hex.NibbleChar | src/bt_core.cpp:18-32 | every nibble maps to its own lower-case hex digit |
| Hex.HexEncode | src/bt_core.cpp:18-32 | the hex of n bytes has 2n characters, all lower-case hex digits |
| Hex.NibbleValue | src/bt_core.cpp:18-32 | a character has a nibble value exactly when it is a lower-case hex digit, and that value encodes back to it |
| Hex.HexDecode | src/bt_core.cpp:18-32 | a decoded string has half as many bytes as it has characters |
| Hex.HexRoundTrip | src/bt_core.cpp:18-32 | decoding the hex of any bytes gives those bytes back |
| Hex.HexEncodeInjective | src/bt_core.cpp:18-32 | two digests with the same hex are equal, so distinct torrents get distinct keys |
| Hex.DigestIsInfohash | src/bt_core.cpp:267-269 | the hex of a 20-byte v1 digest is a 40-character lower-case info-hash |
| Hex.Sha1ToHex | src/bt_core.cpp:18-32 | the loop over the digest bytes writes exactly the hex encoding of the digest |
| Config.OnDhtPort | src/bt_core.cpp:84-88 | the built-in routers are one `host:6881` per bootstrap host |
| Config.TrimLeft | src/bt_core.cpp:114-122 | the left-trimmed text is no longer than the input and does not start with space, tab, CR or LF |
| Config.TrimLeftDrops | src/bt_core.cpp:114-122 | trimming the left keeps a suffix and drops only space, tab, CR and LF before it; the result does not start with one of them |
| Config.TrimRight | src/bt_core.cpp:114-122 | the right-trimmed text is no longer than the input and does not end with space, tab, CR or LF |
| Config.TrimRightDrops | src/bt_core.cpp:114-122 | trimming the right keeps a prefix and drops only space, tab, CR and LF after it; the result does not end with one of them |
| Config.Trim | src/bt_core.cpp:114-122 | the result neither starts nor ends with white space and is no longer than the input |
| Config.TrimKeeps | src/bt_core.cpp:114-122 | trimming keeps every non-space character that occurs in the line |
| Config.StripComment | src/bt_core.cpp:110-113 | the line is cut before its first `#`, and only when it has one |
| Config.ParseLineSkips | src/bt_core.cpp:108-132 | a line yields a setting exactly when its comment-free part has `=` |
| Config.ParseLineShape | src/bt_core.cpp:108-132 | the key and value of a kept line are trimmed, the key has no `=` and neither has `#` |
| Config.Entries | src/bt_core.cpp:108-132 | every line of the file is parsed, in order |
| Config.SkipSpace | src/bt_core.cpp:139-145 | `std::stoi` skips leading white space, and never lengthens the text |
| Config.DigitRun | src/bt_core.cpp:139-145 | the digit run that `std::stoi` reads lies within the text |
| Config.DigitRunDigits | src/bt_core.cpp:139-145 | the run is all digits and stops at the first non-digit |
| Config.Stoi | src/bt_core.cpp:139-145 | a converted value always lies within the 32-bit `int` range |
| Config.StoiNumeral | src/bt_core.cpp:139-145 | a numeral followed by any non-digit text converts to the numeral's value when it fits in an `int`, and fails when it does not |
| Config.StoiExamples | src/bt_core.cpp:139-145 | `std::stoi` reads a prefix: "100kb" gives 100, and "kb" fails |
| Config.LoadConfig | src/bt_core.cpp:78-161 | the line loop always succeeds and produces the configuration that `LoadedConfig` defines; a missing or empty path gives the built-in fallback |
| Config.ApplySetting | src/bt_core.cpp:134-148 | one recognised key updates exactly its field |
| Config.ApplyEntriesMeaning | src/bt_core.cpp:134-148 | each switch and number takes the last value given for its key, else keeps its value; limits are KiB times 1024; routers accumulate in file order |
| Config.ParseConfigMeaning | src/bt_core.cpp:104-157 | starting from the defaults 1/1/6881/6891/0/0, a file with no `dht_router` line gets the three built-in routers |
| Config.SplitRouter | src/bt_core.cpp:201-206 | an entry is skipped exactly when it has no `:` |
| Config.SplitRouterParts | src/bt_core.cpp:201-206 | a split entry's host is the text before its first `:`, and its port is the number after it |
| Config.RouterEndpointsCount | src/bt_core.cpp:200-207 | exactly one DHT router is added per entry that contains `:` |
| Config.SessionFor | src/bt_core.cpp:171-209 | the listen port is listen_start with listen_end - listen_start retries; rate limits are set only when positive; DHT routers are used only when DHT is enabled, and only then must their ports convert |
| Config.StartSession | src/bt_core.cpp:171-209 | the settings loop over the routers builds exactly `SessionFor(cfg)`; router ports are read only when DHT is enabled |
| Config.SplitDefaultRouter | src/bt_core.cpp:84-88 | a built-in `host:6881` entry splits into that host and port 6881 |
| Config.AppendDhtRouter | src/bt_core.cpp:201-206 | appending a `host:6881` entry appends exactly that endpoint |
| Config.PortEndpoints | src/bt_core.cpp:84-88 | one endpoint on port 6881 per bootstrap host |
| Config.RoutersOnDhtPort | src/bt_core.cpp:84-88 | port-less hosts placed on 6881 come back as exactly those endpoints |
| Config.DefaultRoutersSplit | src/bt_core.cpp:151-157 | the three built-in routers split without error into the three bootstrap hosts on port 6881 |
| Config.DhtPortNumeral | src/bt_core.cpp:84-88 | the port text "6881" of a built-in router converts to 6881 |
| Config.FallbackNeverThrows | src/bt_core.cpp:78-102 | with no path or no file, loading never throws and the fallback session can be set up |
| Config.BootstrapHostsPlain | src/bt_core.cpp:151-157 | no built-in host name holds a `:`, so each splits at the `:` before its port |
| Config.FallbackSession | src/bt_core.cpp:80-102 | without a config file the session listens on 6881 with 10 retries, no rate limits, DHT on and the three bootstrap routers |
| Actor.FindLastSeparator | src/bt_core.cpp:356 | finds the last `/` or `\`, or none exactly when the path has neither |
| Actor.ParentDir | src/bt_core.cpp:354-364 | the parent is ".", "/", or a proper prefix of the folder; "/" only for a folder that starts with a separator |
| Actor.ParentDirCases | src/bt_core.cpp:354-364 | no separator gives ".", a separator at position 0 gives "/", otherwise the text before the last separator |
| Actor.ParentOfJoin | src/bt_core.cpp:354-364 | the parent of `dir/name` is `dir`, or "/" when `dir` is empty |
| Actor.DeriveState | src/bt_core.cpp:519-529 | seeding wins, then paused, then error, then progress >= 0.9999f (exactly 8387769/2^23) for finished, else downloading; each state holds exactly under its condition |
| Actor.Truncated | src/bt_core.cpp:516-517 | `snprintf("%s")` into a buffer keeps a NUL-free prefix shorter than the buffer, and the whole string when it fits |
| Actor.MakeStatus | src/bt_core.cpp:503-529 | each field of the record copies the engine's status; leechers = complete + incomplete; the message is empty without an error code and a prefix of the error text with one |
| Actor.StatusConsistent | src/bt_core.cpp:503-529 | a found torrent is never UNKNOWN, is SEEDING exactly when is_seeding = 1, and is ERROR only with a non-zero code |
| Actor.AddRequestFor | src/bt_core.cpp:256-258 | the flags the code itself ORs in or sets: auto_managed and paused for magnets, auto_managed for torrent files, seed_mode alone for seeds |
| Actor.Execute | src/bt_core.cpp:248-533 | an add succeeds exactly when the engine added the torrent and files it under the hex of its v1 digest; lookups succeed exactly when the key is registered; only remove changes the map, deleting the key; outputs are written only on success |
| Actor.ExecuteKeepsInfohashKeys | src/bt_core.cpp:267-273 | every key of the map is a 40-character lower-case info-hash, before and after any command |
| Actor.ReAddNeverDuplicates | src/bt_core.cpp:271-274 | re-adding a torrent replaces its entry: the map gains at most one key |
| Actor.AddThenStatusFound | src/bt_core.cpp:267-275 | the key an add returns is found by a following status query |
| Actor.RemoveThenUnknown | src/bt_core.cpp:473-481 | after a remove, every lookup of that key fails |
| Actor.RunAllAppend | src/bt_core.cpp:211-227 | running two command batches in turn is running their concatenation |
| Actor.RunAllSnoc | src/bt_core.cpp:211-227 | running one more command applies `Execute` to the registry of the commands before it |
| Actor.RunTrace | src/bt_core.cpp:211-227 | a run yields one reply per command, and its registry is that of `RunAll` |
| Actor.RunTraceSnoc | src/bt_core.cpp:211-227 | the trace of the first i + 1 commands extends that of the first i by the reply and the engine calls of command i |
| Actor.RunTraceAppend | src/bt_core.cpp:211-227 | one more command extends the trace by its reply and engine calls |
| Actor.RunAllKeepsInfohashKeys | src/bt_core.cpp:211-227 | the keys stay info-hashes over any sequence of commands |
| Actor.LookupsKeepRegistry | src/bt_core.cpp:425-463 | pause, resume and status never change the map |
| Core.BtCore.Init | src/bt_core.cpp:41-59 | a running core answers true and is unchanged, whatever the config; otherwise the config is loaded and the core runs exactly when `enable_bt`; queue, map and engine log are kept |
| Core.BtCore.Shutdown | src/bt_core.cpp:61-71 | afterwards the core is stopped with no session; the map and queue are kept; a stopped core is unchanged |
| Core.BtCore.PostCommand | src/bt_core.cpp:163-169 | a running core appends the command to its queue; a stopped core drops it |
| Core.BtCore.RunCommand | src/bt_core.cpp:225-227 | running a closure applies `Execute` to the map and logs its engine calls |
| Core.BtCore.WorkerStep | src/bt_core.cpp:211-227 | a running worker with queued work runs exactly the oldest command; otherwise nothing changes |
| Core.BtCore.Drain | src/bt_core.cpp:211-227 | the worker empties the queue; the replies, the map and the appended engine calls are those of running its commands in order (`RunTrace`) |
| Core.BtCore.Call | src/bt_core.cpp:240-283 | post-and-wait answers exactly when the core runs, with the reply and map of executing that one command |
| Core.BtCore.AddMagnet | src/bt_core.cpp:240-284 | a stopped core is unchanged; otherwise true exactly when the engine added it, the hex key then maps to the handle, and the engine log gains a paused, auto-managed add followed by a resume |
| Core.BtCore.AddTorrentFile | src/bt_core.cpp:286-331 | a stopped core is unchanged; otherwise true exactly when the engine added it, the hex key then maps to the handle, the map is unchanged on failure, and the engine log gains the auto-managed add |
| Core.BtCore.SeedFolder | src/bt_core.cpp:333-422 | a stopped core is unchanged; otherwise true exactly when the engine added it; the logged add uses seed mode with the folder's parent as save path |
| Core.BtCore.PauseTorrent | src/bt_core.cpp:425-443 | true exactly when the key is registered; the map is unchanged and the engine log gains a pause of its handle |
| Core.BtCore.ResumeTorrent | src/bt_core.cpp:445-463 | true exactly when the key is registered; the map is unchanged and the engine log gains a resume of its handle |
| Core.BtCore.RemoveTorrent | src/bt_core.cpp:465-488 | true exactly when the key is registered; the key is gone afterwards and the engine log gains the removal of its handle, deleting files when asked |
| Core.BtCore.GetStatus | src/bt_core.cpp:490-537 | true exactly when the key is registered, and the record is then `MakeStatus` of the engine's status; the engine log gains the status query |
| Api.BtInit | src/bt_api.cpp:11-23 | a handle is returned exactly when allocation succeeds and the loaded config enables BitTorrent; NULL config path means ""; a config is read only when allocation succeeds |
| Api.BtShutdown | src/bt_api.cpp:25-33 | the core is stopped with no session; its configuration, queue, map and engine log are kept; nothing happens for NULL |
| Api.CheckOutBuf | src/bt_api.cpp:35-42 | -1 exactly for a NULL buffer or one shorter than 41; otherwise the buffer starts with NUL and nothing else changes |
| Api.StrNCopied | src/bt_api.cpp:53-56 | `strncpy` fills exactly n characters |
| Api.StrNCopy | src/bt_api.cpp:53-56 | the copy loops write exactly the `strncpy` image and leave the rest of the array alone |
| Api.CopyOut | src/bt_api.cpp:53-56 | after `strncpy` plus the final NUL, the buffer holds the info-hash truncated to the buffer |
| Api.CopiedCString | src/bt_api.cpp:53-56 | `strncpy` of n characters followed by NUL reads back as the source truncated to n + 1 |
| Api.InfohashFits | src/bt_api.h:44 | a 40-character info-hash is never truncated in a buffer of at least 41 |
| Api.SubmitAdd | src/bt_api.cpp:44-96 | 0 exactly when the engine added the torrent, and the buffer then holds its hex as a C string; the engine log gains exactly the add's calls |
| Api.BtAddMagnet | src/bt_api.cpp:44-60 | -1 with the core untouched for a NULL argument or a short buffer; otherwise the map and engine log are those of executing the add, 0 exactly on success with the hex in the buffer, and on failure the buffer holds the empty C string; configuration and session are kept, and the buffer past its length is untouched |
| Api.BtAddTorrentFile | src/bt_api.cpp:62-78 | as `bt_add_magnet`, for a torrent file |
| Api.BtSeedFolder | src/bt_api.cpp:80-96 | as `bt_add_magnet`, for a folder to seed |
| Api.BtPauseTorrent | src/bt_api.cpp:98-103 | 0 exactly for a live handle and a registered key; the map is unchanged; a NULL key leaves the core untouched, any other call logs the engine calls of executing the pause; configuration and session are kept |
| Api.BtResumeTorrent | src/bt_api.cpp:105-110 | 0 exactly for a live handle and a registered key; the map is unchanged; a NULL key leaves the core untouched, any other call logs the engine calls of executing the resume; configuration and session are kept |
| Api.BtRemoveTorrent | src/bt_api.cpp:112-117 | 0 exactly for a registered key, which is then removed; any non-zero `remove_files` deletes files; the engine log gains the calls of executing the remove; configuration and session are kept |
| Api.BtGetTorrentStatus | src/bt_api.cpp:119-127 | a rejected call leaves the record and the core untouched; otherwise the record is cleared, then filled on success, and the engine log gains the status query; configuration and session are kept |
| Api.AttemptCount | src/bt_api.cpp:148-179 | at most one add is attempted per directory entry |
| Api.AttemptedAdds | src/bt_api.cpp:148-186 | one torrent-file add per eligible entry, in directory order |
| Api.AttemptedOracles | src/bt_api.cpp:148-186 | one engine answer per attempted add |
| Api.Successes | src/bt_api.cpp:187-188 | the resumed count never exceeds the attempts |
| Api.AttemptedAddsAreTorrentFiles | src/bt_api.cpp:149-179 | every attempted add is a torrent-file add with the given save path, of `dir/` + a name ending in `.torrent`, shorter than PATH_MAX |
| Api.ResumeOne | src/bt_api.cpp:149-193 | one directory entry is added exactly when it passes every filter and the engine accepts it; the engine log gains that add's calls, or nothing for a filtered entry |
| Api.AttemptedSnoc | src/bt_api.cpp:148-186 | one more entry extends the attempted adds, their answers and the success count by that entry alone |
| Api.ResumeStep | src/bt_api.cpp:148-194 | the loop invariant survives one more entry: map, engine log and count are those of the attempted adds so far |
| Api.BtResumeAllTorrents | src/bt_api.cpp:129-198 | -1 with the core untouched for a NULL argument or a directory that cannot be opened; otherwise the count of successful adds, with the map and engine calls of running them in order; configuration and session are kept |
| Api.ResumeEntries | src/bt_api.cpp:148-194 | the `readdir` loop counts exactly the successes and leaves the map and engine log of running the attempted adds in order |
| Rpc.ValueString | src/bt_daemon.c:242-250 | a parameter has a string value exactly when it is a JSON string |
| Rpc.ValueInt | src/bt_daemon.c:338-344 | `true` reads as non-zero and `false` as zero; strings and other values read as 0 |
| Rpc.ErrorResponse | src/bt_daemon.c:133-149 | an error response carries its id, a null result and the code and message |
| Rpc.OkResponse | src/bt_daemon.c:218-240 | a success response carries its id, its result and a null error |
| Rpc.FailureMessage | src/bt_daemon.c:218-374 | every known method except `resume_all_torrents` and `shutdown` has a failure message, and no other method has one |
| Rpc.FailureMessagesDistinct | src/bt_daemon.c:218-374 | each method that can fail has its own 500 message, distinct from the fixed ones |
| Rpc.StateName | src/bt_daemon.c:61-70 | states 1..5 get their own names, every other value "unknown" |
| Rpc.StateNameRoundTrip | src/bt_daemon.c:61-70 | each name reads back as its state |
| Rpc.StateNameInjective | src/bt_daemon.c:61-70 | two values share a name exactly when equal or both outside the enumeration |
| Rpc.StatusFields | src/bt_daemon.c:72-92 | the result object has the 13 keys in order |
| Rpc.StatusFieldsRoundTrip | src/bt_daemon.c:72-92 | the result object loses nothing: the record is recovered from it |
| Framing.BE32 | src/bt_daemon.c:120-121 | the length prefix is 4 bytes |
| Framing.FromBE32 | src/bt_daemon.c:100 | a 4-byte prefix decodes to a 32-bit length |
| Framing.BE32RoundTrip | src/bt_daemon.c:100-121 | `ntohl(htonl(n)) == n` for every 32-bit length |
| Framing.FromBE32RoundTrip | src/bt_daemon.c:100-121 | every 4-byte prefix is the encoding of its length |
| Framing.Read | src/bt_daemon.c:96-106 | a read returns -1, 0, or a count no larger than asked, with that many bytes |
| Framing.ReadConsumes | src/bt_daemon.c:96-106 | a read returns 0 only at end of data, takes the bytes it returns off the front of the pending data, and uses one step of the script |
| Framing.ReliableRead | src/bt_daemon.c:96-106 | a read that cannot fail, on pending data, returns a non-empty prefix and consumes it |
| Framing.ReadExactly | src/bt_daemon.c:104-112 | a gathered payload has exactly the requested length |
| Framing.RecvSpec | src/bt_daemon.c:94-118 | `recv_frame` answers 0, 1 or -1 |
| Framing.AllocSizeAsWritten | src/bt_daemon.c:100-101 | `len + 1` computed in 32 bits stays below 2^32 |
| Framing.AllocWrapsForLargestLength | src/bt_daemon.c:100-101 | for a length of 0xFFFFFFFF the allocation wraps to 0 bytes |
| Framing.AllocSize | src/bt_daemon.c:100-101 | the corrected allocation is len + 1 bytes, one more than the payload |
| Framing.RecvFrame | src/bt_daemon.c:94-118 | answers as `RecvSpec`; on 0 the fresh buffer holds the payload followed by NUL |
| Framing.ReadPayload | src/bt_daemon.c:104-112 | the read loop succeeds exactly when the whole payload arrives and then stores it |
| Framing.CopyInto | src/bt_daemon.c:106 | bytes read land after those already read |
| Framing.Write | src/bt_daemon.c:125-128 | a write accepts a non-empty prefix or fails, and never loses accepted bytes |
| Framing.WriteAll | src/bt_daemon.c:124-130 | the write loop ends with 0 or -1 |
| Framing.SendSpec | src/bt_daemon.c:120-131 | `send_frame` answers 0 or -1 |
| Framing.SendFrame | src/bt_daemon.c:120-131 | the method answers exactly as `SendSpec` |
| Framing.ReadExactlyReliable | src/bt_daemon.c:104-112 | without failing reads, a payload that is present is read whatever the read sizes |
| Framing.ReadExactlyTruncated | src/bt_daemon.c:107-110 | a payload cut short by end of input is an error |
| Framing.WriteAllReliable | src/bt_daemon.c:124-130 | without failing writes, every byte is written whatever the write sizes |
| Framing.SendReliable | src/bt_daemon.c:120-131 | a frame is its big-endian length followed by the payload |
| Framing.RecvReliable | src/bt_daemon.c:94-118 | a frame on input is received as its payload, and the rest stays unread |
| Framing.FrameRoundTrip | src/bt_daemon.c:94-131 | what `send_frame` writes, `recv_frame` reads back |
| Framing.EofBeforePrefix | src/bt_daemon.c:96-97 | end of input before a frame answers 1 |
| Framing.ShortPrefix | src/bt_daemon.c:98 | a read of fewer than 4 prefix bytes answers -1 |
| Framing.TruncatedFrame | src/bt_daemon.c:104-110 | a frame shorter than its prefix says answers -1 |
| Daemon.Answered | src/bt_daemon.c:185-201 | only frames that parse as JSON get a response, in order |
| Daemon.CoreCallAnswers | src/bt_daemon.c:242-390 | every outcome of a core call is a well-formed answer to its request |
| Daemon.Daemon.CoreInit | src/bt_daemon.c:5-14 | a second init changes nothing; it answers 0 exactly when an instance exists; a new instance means allocation succeeded and holds a fresh core with the loaded configuration and an empty map |
| Daemon.Daemon.CoreShutdown | src/bt_daemon.c:16-21 | the instance's core is stopped with no session; its configuration, queue, map and engine log are kept |
| Daemon.Daemon.HandleInit | src/bt_daemon.c:218-240 | ok with the version exactly when an instance exists, else 500 "init failed"; a second init changes nothing; `config_path` is read only when a string |
| Daemon.Daemon.HandleAdd | src/bt_daemon.c:242-312 | ok exactly when both strings are present and the engine added it, with the hex of its digest; otherwise 500 with the method's message; the map and engine log are those of executing the add built from the method's two params in order, and untouched when one is missing; the core's configuration and session are kept |
| Daemon.Daemon.HandleLookup | src/bt_daemon.c:314-350 | ok with `{}` exactly when the key is registered; remove deletes the key; the engine log gains the calls of executing the pause, resume or remove (with `remove_files` non-zero deleting files); the core's configuration and session are kept |
| Daemon.Daemon.HandleStatus | src/bt_daemon.c:352-374 | ok with the status object exactly when found and printed; 500 "internal error" when printing fails, "status failed" otherwise; the map is kept and the engine log gains the status query; the core's configuration and session are kept |
| Daemon.Daemon.HandleResumeAll | src/bt_daemon.c:376-390 | always ok with `resumed_count`: -1 with the core untouched when the call is rejected, else the successes, with the map and engine calls of running the adds attempted from `torrents_dir` into `data_dir`; the core's configuration and session are kept |
| Daemon.Daemon.HandleCoreCall | src/bt_daemon.c:242-390 | each core-calling method answers with `CoreCallOutcome`: without an instance every call fails (resume_all gives -1), with one the response, the map and the engine calls appended to the log are those of executing the call, and the core's configuration and session are kept |
| Daemon.Daemon.Handle | src/bt_daemon.c:185-412 | unparseable frames get no response; malformed envelopes 400 "bad request" with id 0; unknown methods 400 "unknown method"; these and a second init leave the daemon and core untouched; only init can create the instance; init answers the version exactly when an instance exists, and a first init that creates it had allocation succeed and holds the loaded configuration with an empty map; core calls answer `CoreCallOutcome`, leave its map and engine calls, and keep configuration and session; shutdown answers ok, stops the core with no session, keeps configuration, queue, map and log, and ends the loop |
| Daemon.Daemon.ServeOne | src/bt_daemon.c:176-412 | one turn of the loop stops exactly at end of input or shutdown and answers the frame, if parsed, after those before it |
| Daemon.Daemon.Serve | src/bt_daemon.c:176-415 | the loop stops at the first end of input or shutdown and answers each parsed frame before it, in order |

## Left out

- Threads, the mutex, the condition variable and the futures: calls are sequential. The worker's queue is a `seq`, and a call returns once its command has run. A call on a stopped core answers `None`, where the source waits forever on its future.
- libtorrent itself: magnet parsing, `torrent_info`, `add_files`, `create_torrent`, piece hashing, the session and its alerts. These are oracle answers. The `.torrent` file that `seed_folder` writes is not modelled.
- cJSON's text parser and printer: requests are abstract envelopes and responses abstract values. `printFails` stands for a failing `cJSON_PrintUnformatted` of the status object. The other allocation failures of cJSON and `asprintf` are not modelled.
- Handler parameters: each handler dereferences the parameter items it needs without checking them, so a missing one crashes the daemon. The model requires them (`HasRequiredParams`).
- `std::stoi` exceptions: `Stoi` follows `std::stoi`'s reading of a prefix (leading white space, an optional sign, the longest digit run, range of a 32-bit `int`). Where it fails, `std::stoi` throws out of `loadConfig` (a numeric key) or out of the session setup (a DHT router's port, read only when DHT is on); nothing catches either, so the process ends. The model has no exceptions: those inputs are excluded by preconditions (`EntryNumeric`, `SessionStarts`, `InitNeverThrows`), and the daemon's `init` handler requires `InitNeverThrows` of its config path only while no instance exists (`Fits`), since a later `init` loads nothing.
- libtorrent's default `add_torrent_params` flags: `AddRequest` records only the flags the code ORs in or sets (auto_managed, paused, seed_mode). The flags libtorrent sets by default, auto_managed among them, are part of the engine and are not modelled.
- cJSON's key lookup: `cJSON_GetObjectItem` compares keys case-insensitively and returns the first of several equal keys. `Params` is a map with exact keys, so a request with "Config_Path" or with a repeated key is outside the model.
- Actor.Truncated: counts characters where `snprintf` counts bytes; a UTF-8 error message with multi-byte characters is cut at a different place.
- Api.PathFits: counts characters where `PATH_MAX` bounds bytes; a directory or file name with multi-byte UTF-8 characters may pass the model's check and not the source's, or the reverse.
- Integer widths: `std::stoi(v) * 1024` and the `int`/`long` status fields may overflow. JSON numbers are doubles and lose precision above 2^53. All of these are unbounded `int` in the model, and progress is a `real`.
- File stream I/O (`std::ifstream`, `std::getline`): a config file is a sequence of lines.
- Standard-output hygiene: `bt_resume_all_torrents` prints progress lines with `printf` on standard output, the same channel that carries the response frames. The model has no output stream.
- The return value of `send_frame`: the daemon ignores it, and the model does not connect the framing layer to the dispatcher. `Incoming` stands for the result of `recv_frame` followed by `cJSON_Parse`.
- Freeing: `bt_shutdown` deletes the handle while `bt_instance` still points to it. The loop leaves right after, and the model does not track deallocation.
- Logging (`iloge`, `perror`), the `-d` flag and the version string.
- `opendir` failures other than a missing directory, and `stat` failures: a directory entry carries its file kind, or none when `stat` fails.
- Daemon.Daemon.Serve: requires `InputsFit` (as does `Daemon.Daemon.ServeOne`), which holds every `init` frame of the stream to `InitNeverThrows`, also one that arrives after the instance exists and loads nothing. Which `init` first creates the instance depends on the run (allocation and `enable_bt`), so the loop's precondition does not track it; `Handle` itself demands the clause only while no instance exists.

## Findings

| source | as written | input that shows it | evidently intended | confidence | as-written member | corrected member |
|---|---|---|---|---|---|---|
| src/bt_daemon.c:100-101 | `malloc(len + 1)` adds 1 to a `uint32_t`, which wraps to 0 for the largest length; the read loop and `buf[len] = '\0'` then write past the allocation | a frame prefix of FF FF FF FF | allocate len + 1 bytes without wrap-around | not executed | Framing.AllocWrapsForLargestLength | Framing.AllocSize |
