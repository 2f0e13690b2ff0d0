/** The C API over `BtCore` (src/bt_api.cpp, src/bt_api.h): argument and
    out-buffer checks, the bounded copy of the infohash, the mapping of the
    core's boolean answers to 0 / -1, and re-adding every `.torrent` file of a
    directory. A C string argument that may be NULL is an `Option<string>`. */
module Api {
  import opened Base
  import opened BtTypes
  import opened Hex
  import opened Config
  import opened Actor
  import opened Core

  /** `struct BtHandle { BtCore* core; }`. */
  class BtHandle {
    const core: BtCore?

    constructor (c: BtCore?)
      ensures core == c
    {
      core := c;
    }

    /** A handle from `bt_init` that has not been shut down: its core runs and
        no command is pending. */
    ghost predicate Live()
      reads if core != null then {core} else {}
    {
      core != null ==> core.Valid() && core.Idle() && core.running
    }
  }

  /** `bt_init`: a NULL path means "", and a core whose `init` fails is
      discarded so the caller gets NULL. `callocFails` says whether the handle
      allocation fails. */
  method BtInit(configPath: Option<string>, fs: FileSystem, callocFails: bool) returns (h: BtHandle?)
    requires !callocFails ==> InitNeverThrows(if configPath.Some? then configPath.value else "", fs)
    ensures var path := if configPath.Some? then configPath.value else "";
      h != null <==> !callocFails && LoadedConfig(path, fs).enableBt
    ensures h != null ==>
      var path := if configPath.Some? then configPath.value else "";
      fresh(h) && h.core != null && fresh(h.core) && h.Live() &&
      h.core.cfg == LoadedConfig(path, fs) && h.core.torrents == map[]
  {
    if callocFails {
      return null;
    }
    var core := new BtCore();
    var ok := core.Init(if configPath.Some? then configPath.value else "", fs);
    if !ok {
      return null;
    }
    h := new BtHandle(core);
  }

  /** `bt_shutdown`: stops the core if there is one. Freeing the handle and
      the core is not modelled; the handle is not used again. */
  method BtShutdown(h: BtHandle?)
    requires h != null ==> h.Live()
    modifies if h != null && h.core != null then {h.core} else {}
    ensures h != null && h.core != null ==>
      && !h.core.running && h.core.session == None
      && h.core.cfg == old(h.core.cfg) && h.core.queue == old(h.core.queue)
      && h.core.torrents == old(h.core.torrents) && h.core.engineLog == old(h.core.engineLog)
  {
    if h == null {
      return;
    }
    if h.core != null {
      h.core.Shutdown();
    }
  }

  /** `check_out_buf`: NULL or fewer than 41 bytes is refused; otherwise the
      buffer is made the empty C string. */
  method CheckOutBuf(out: array?<char>, outLen: nat) returns (rc: int)
    requires out != null ==> outLen <= out.Length
    modifies if out != null then {out} else {}
    ensures rc == (if out == null || outLen < InfohashBufferMin then -1 else 0)
    ensures rc == 0 ==> out[0] == NUL && out[1..] == old(out[1..])
    ensures rc != 0 && out != null ==> out[..] == old(out[..])
  {
    if out == null || outLen < InfohashBufferMin {
      return -1;
    }
    out[0] := NUL;
    return 0;
  }

  /** What `strncpy(dst, src, n)` leaves in the first `n` bytes: the C string
      of `src`, cut at `n` or padded with NULs up to `n`. */
  function StrNCopied(src: string, n: nat): (r: seq<char>)
    ensures |r| == n
  {
    var c := CString(src);
    if |c| >= n then c[..n] else c + seq(n - |c|, i => NUL)
  }

  /** `strncpy`: copy until the terminator or `n` bytes, then pad with NULs. */
  method StrNCopy(dst: array<char>, src: string, n: nat)
    requires n <= dst.Length
    modifies dst
    ensures dst[..n] == StrNCopied(src, n)
    ensures dst[n..] == old(dst[n..])
  {
    var i := 0;
    while i < n && i < |src| && src[i] != NUL
      invariant 0 <= i <= n && i <= |src|
      invariant NUL !in src[..i]
      invariant dst[..i] == src[..i]
      invariant dst[n..] == old(dst[n..])
    {
      dst[i] := src[i];
      assert src[..i + 1] == src[..i] + [src[i]];
      i := i + 1;
    }
    ghost var copied := i;
    CStringPrefix(src, copied);
    while i < n
      invariant copied <= i <= n
      invariant dst[..copied] == src[..copied]
      invariant forall j :: copied <= j < i ==> dst[j] == NUL
      invariant dst[n..] == old(dst[n..])
    {
      dst[i] := NUL;
      i := i + 1;
    }
    assert dst[..n] == StrNCopied(src, n) by {
      var c := CString(src);
      if copied == n {
        assert c[..n] == src[..n];
      } else {
        assert c == src[..copied];
        assert dst[..n] == c + seq(n - |c|, j => NUL);
      }
    }
  }

  /** A C string runs at least as far as the first NUL-free `k` characters,
      and stops right there when a NUL or the end follows them. */
  lemma {:induction false} CStringPrefix(s: string, k: nat)
    requires k <= |s| && NUL !in s[..k]
    ensures |CString(s)| >= k
    ensures k == |s| || s[k] == NUL ==> CString(s) == s[..k]
  {
    if k > 0 {
      assert s[0] == s[..k][0];
      assert s[1..][..k - 1] == s[..k][1..];
      CStringPrefix(s[1..], k - 1);
    }
  }

  /** The infohash copy-out: `strncpy(out, info, out_len - 1)` then a NUL in
      the last byte, so the caller reads back the text cut to `out_len - 1`
      characters, exactly as a truncating `snprintf` would. */
  method CopyOut(out: array<char>, outLen: nat, info: string)
    requires 0 < outLen <= out.Length
    modifies out
    ensures out[outLen - 1] == NUL
    ensures CString(out[..outLen]) == Truncated(info, outLen)
    ensures out[outLen..] == old(out[outLen..])
  {
    StrNCopy(out, info, outLen - 1);
    out[outLen - 1] := NUL;
    assert out[..outLen] == StrNCopied(info, outLen - 1) + [NUL];
    CopiedCString(info, outLen - 1);
  }

  lemma CopiedCString(src: string, n: nat)
    ensures CString(StrNCopied(src, n) + [NUL]) == Truncated(src, n + 1)
  {
    var c := CString(src);
    if |c| >= n {
      assert StrNCopied(src, n) + [NUL] == c[..n] + [NUL] + [];
      CStringOfTerminated(c[..n], []);
    } else {
      var pad := seq(n - |c|, i => NUL);
      assert StrNCopied(src, n) + [NUL] == c + [NUL] + (pad[1..] + [NUL]);
      CStringOfTerminated(c, pad[1..] + [NUL]);
    }
  }

  /** A 40-character infohash always fits a buffer the API accepts. */
  lemma InfohashFits(info: string, outLen: nat)
    requires IsInfohash(info) && outLen >= InfohashBufferMin
    ensures Truncated(info, outLen) == info
  {
    assert NUL !in info[..|info|] by {
      forall i | 0 <= i < |info|
        ensures info[..|info|][i] != NUL
      {
        assert IsLowerHexChar(info[i]);
      }
    }
    CStringPrefix(info, |info|);
  }

  /** The argument checks every `bt_add_*` makes before calling the core. */
  predicate AddArgsOk(handle: BtHandle?, a: Option<string>, b: Option<string>, out: array?<char>, outLen: nat)
  {
    handle != null && handle.core != null && a.Some? && b.Some? && out != null && outLen >= InfohashBufferMin
  }

  /** The common tail of the three `bt_add_*` functions: clear the buffer,
      run the add, and copy the infohash out on success. */
  method SubmitAdd(core: BtCore, cmd: Command, out: array<char>, outLen: nat, o: Oracle) returns (rc: int)
    requires IsAdd(cmd) && core.Valid() && core.Idle() && core.running
    requires InfohashBufferMin <= outLen <= out.Length
    modifies core, out
    ensures core.Valid() && core.Idle() && core.running
    ensures core.cfg == old(core.cfg) && core.session == old(core.session)
    ensures out[outLen..] == old(out[outLen..])
    ensures core.torrents == Execute(old(core.torrents), cmd, o).registry
    ensures core.engineLog == old(core.engineLog) + Execute(old(core.torrents), cmd, o).calls
    ensures rc == (if o.add.Added? then 0 else -1)
    ensures rc == 0 ==> out[outLen - 1] == NUL && CString(out[..outLen]) == HexEncode(o.add.v1)
    ensures rc != 0 ==> out[0] == NUL
  {
    var check := CheckOutBuf(out, outLen);
    var reply;
    if cmd.AddMagnet? {
      reply := core.AddMagnet(cmd.magnetUri, cmd.saveDir, o);
    } else if cmd.AddTorrentFile? {
      reply := core.AddTorrentFile(cmd.torrentPath, cmd.saveDir, o);
    } else {
      reply := core.SeedFolder(cmd.folder, cmd.torrentOut, o);
    }
    if !reply.value.ok {
      return -1;
    }
    var info := reply.value.infohash.value;
    DigestIsInfohash(o.add.v1);
    InfohashFits(info, outLen);
    CopyOut(out, outLen, info);
    rc := 0;
  }

  /** `bt_add_magnet`. */
  method BtAddMagnet(handle: BtHandle?, magnet: Option<string>, saveDir: Option<string>,
                     out: array?<char>, outLen: nat, o: Oracle) returns (rc: int)
    requires handle != null ==> handle.Live()
    requires out != null ==> outLen <= out.Length
    modifies if handle != null && handle.core != null then {handle.core} else {}
    modifies if out != null then {out} else {}
    ensures handle != null ==> handle.Live()
    ensures handle != null && handle.core != null ==>
      handle.core.cfg == old(handle.core.cfg) && handle.core.session == old(handle.core.session)
    ensures out != null ==> out[outLen..] == old(out[outLen..])
    ensures !AddArgsOk(handle, magnet, saveDir, out, outLen) ==>
      rc == -1 && (out != null ==> out[..] == old(out[..])) &&
      (handle != null && handle.core != null ==> unchanged(handle.core))
    ensures AddArgsOk(handle, magnet, saveDir, out, outLen) ==>
      var cmd := Command.AddMagnet(magnet.value, saveDir.value);
      handle.core.torrents == Execute(old(handle.core.torrents), cmd, o).registry &&
      handle.core.engineLog == old(handle.core.engineLog) + Execute(old(handle.core.torrents), cmd, o).calls &&
      rc == (if o.add.Added? then 0 else -1) &&
      (rc == 0 ==> out[outLen - 1] == NUL && CString(out[..outLen]) == HexEncode(o.add.v1)) &&
      (rc != 0 ==> out[0] == NUL)
  {
    if handle == null || handle.core == null || magnet.None? || saveDir.None? {
      return -1;
    }
    if out == null || outLen < InfohashBufferMin {
      return -1;
    }
    rc := SubmitAdd(handle.core, Command.AddMagnet(magnet.value, saveDir.value), out, outLen, o);
  }

  /** `bt_add_torrent_file`. */
  method BtAddTorrentFile(handle: BtHandle?, torrentPath: Option<string>, saveDir: Option<string>,
                          out: array?<char>, outLen: nat, o: Oracle) returns (rc: int)
    requires handle != null ==> handle.Live()
    requires out != null ==> outLen <= out.Length
    modifies if handle != null && handle.core != null then {handle.core} else {}
    modifies if out != null then {out} else {}
    ensures handle != null ==> handle.Live()
    ensures handle != null && handle.core != null ==>
      handle.core.cfg == old(handle.core.cfg) && handle.core.session == old(handle.core.session)
    ensures out != null ==> out[outLen..] == old(out[outLen..])
    ensures !AddArgsOk(handle, torrentPath, saveDir, out, outLen) ==>
      rc == -1 && (out != null ==> out[..] == old(out[..])) &&
      (handle != null && handle.core != null ==> unchanged(handle.core))
    ensures AddArgsOk(handle, torrentPath, saveDir, out, outLen) ==>
      var cmd := Command.AddTorrentFile(torrentPath.value, saveDir.value);
      handle.core.torrents == Execute(old(handle.core.torrents), cmd, o).registry &&
      handle.core.engineLog == old(handle.core.engineLog) + Execute(old(handle.core.torrents), cmd, o).calls &&
      rc == (if o.add.Added? then 0 else -1) &&
      (rc == 0 ==> out[outLen - 1] == NUL && CString(out[..outLen]) == HexEncode(o.add.v1)) &&
      (rc != 0 ==> out[0] == NUL)
  {
    if handle == null || handle.core == null || torrentPath.None? || saveDir.None? {
      return -1;
    }
    if out == null || outLen < InfohashBufferMin {
      return -1;
    }
    rc := SubmitAdd(handle.core, Command.AddTorrentFile(torrentPath.value, saveDir.value), out, outLen, o);
  }

  /** `bt_seed_folder`. */
  method BtSeedFolder(handle: BtHandle?, folder: Option<string>, torrentOut: Option<string>,
                      out: array?<char>, outLen: nat, o: Oracle) returns (rc: int)
    requires handle != null ==> handle.Live()
    requires out != null ==> outLen <= out.Length
    modifies if handle != null && handle.core != null then {handle.core} else {}
    modifies if out != null then {out} else {}
    ensures handle != null ==> handle.Live()
    ensures handle != null && handle.core != null ==>
      handle.core.cfg == old(handle.core.cfg) && handle.core.session == old(handle.core.session)
    ensures out != null ==> out[outLen..] == old(out[outLen..])
    ensures !AddArgsOk(handle, folder, torrentOut, out, outLen) ==>
      rc == -1 && (out != null ==> out[..] == old(out[..])) &&
      (handle != null && handle.core != null ==> unchanged(handle.core))
    ensures AddArgsOk(handle, folder, torrentOut, out, outLen) ==>
      var cmd := Command.SeedFolder(folder.value, torrentOut.value);
      handle.core.torrents == Execute(old(handle.core.torrents), cmd, o).registry &&
      handle.core.engineLog == old(handle.core.engineLog) + Execute(old(handle.core.torrents), cmd, o).calls &&
      rc == (if o.add.Added? then 0 else -1) &&
      (rc == 0 ==> out[outLen - 1] == NUL && CString(out[..outLen]) == HexEncode(o.add.v1)) &&
      (rc != 0 ==> out[0] == NUL)
  {
    if handle == null || handle.core == null || folder.None? || torrentOut.None? {
      return -1;
    }
    if out == null || outLen < InfohashBufferMin {
      return -1;
    }
    rc := SubmitAdd(handle.core, Command.SeedFolder(folder.value, torrentOut.value), out, outLen, o);
  }

  /** `bt_pause_torrent`. */
  method BtPauseTorrent(handle: BtHandle?, infohash: Option<string>, o: Oracle) returns (rc: int)
    requires handle != null ==> handle.Live()
    modifies if handle != null && handle.core != null then {handle.core} else {}
    ensures handle != null ==> handle.Live()
    ensures handle != null && handle.core != null ==>
      handle.core.cfg == old(handle.core.cfg) && handle.core.session == old(handle.core.session)
    ensures rc == (if handle != null && handle.core != null && infohash.Some? &&
                      infohash.value in old(handle.core.torrents) then 0 else -1)
    ensures handle != null && handle.core != null ==> handle.core.torrents == old(handle.core.torrents)
    ensures handle != null && handle.core != null ==>
      if infohash.None? then unchanged(handle.core)
      else handle.core.engineLog == old(handle.core.engineLog) + Execute(old(handle.core.torrents), Pause(infohash.value), o).calls
  {
    if handle == null || handle.core == null || infohash.None? {
      return -1;
    }
    var reply := handle.core.PauseTorrent(infohash.value, o);
    rc := if reply.value.ok then 0 else -1;
  }

  /** `bt_resume_torrent`. */
  method BtResumeTorrent(handle: BtHandle?, infohash: Option<string>, o: Oracle) returns (rc: int)
    requires handle != null ==> handle.Live()
    modifies if handle != null && handle.core != null then {handle.core} else {}
    ensures handle != null ==> handle.Live()
    ensures handle != null && handle.core != null ==>
      handle.core.cfg == old(handle.core.cfg) && handle.core.session == old(handle.core.session)
    ensures rc == (if handle != null && handle.core != null && infohash.Some? &&
                      infohash.value in old(handle.core.torrents) then 0 else -1)
    ensures handle != null && handle.core != null ==> handle.core.torrents == old(handle.core.torrents)
    ensures handle != null && handle.core != null ==>
      if infohash.None? then unchanged(handle.core)
      else handle.core.engineLog == old(handle.core.engineLog) + Execute(old(handle.core.torrents), Resume(infohash.value), o).calls
  {
    if handle == null || handle.core == null || infohash.None? {
      return -1;
    }
    var reply := handle.core.ResumeTorrent(infohash.value, o);
    rc := if reply.value.ok then 0 else -1;
  }

  /** `bt_remove_torrent`: any nonzero `remove_files` asks for the data to be deleted. */
  method BtRemoveTorrent(handle: BtHandle?, infohash: Option<string>, removeFiles: int, o: Oracle)
    returns (rc: int)
    requires handle != null ==> handle.Live()
    modifies if handle != null && handle.core != null then {handle.core} else {}
    ensures handle != null ==> handle.Live()
    ensures handle != null && handle.core != null ==>
      handle.core.cfg == old(handle.core.cfg) && handle.core.session == old(handle.core.session)
    ensures rc == (if handle != null && handle.core != null && infohash.Some? &&
                      infohash.value in old(handle.core.torrents) then 0 else -1)
    ensures handle != null && handle.core != null ==>
      handle.core.torrents ==
        (if infohash.Some? then old(handle.core.torrents) - {infohash.value} else old(handle.core.torrents))
    ensures handle != null && handle.core != null ==>
      if infohash.None? then unchanged(handle.core)
      else handle.core.engineLog == old(handle.core.engineLog) +
                                      Execute(old(handle.core.torrents), Remove(infohash.value, removeFiles != 0), o).calls
  {
    if handle == null || handle.core == null || infohash.None? {
      return -1;
    }
    var reply := handle.core.RemoveTorrent(infohash.value, removeFiles != 0, o);
    rc := if reply.value.ok then 0 else -1;
  }

  /** `bt_get_torrent_status`: `before` is the caller's record and `st` the
      record afterwards. Bad arguments leave it alone; otherwise it is zeroed
      first, so a failed lookup reads back as all zeros. */
  method BtGetTorrentStatus(handle: BtHandle?, infohash: Option<string>, hasOut: bool,
                            before: BtTorrentStatus, o: Oracle) returns (rc: int, st: BtTorrentStatus)
    requires handle != null ==> handle.Live()
    modifies if handle != null && handle.core != null then {handle.core} else {}
    ensures handle != null ==> handle.Live()
    ensures handle != null && handle.core != null ==>
      handle.core.cfg == old(handle.core.cfg) && handle.core.session == old(handle.core.session)
    ensures handle == null || handle.core == null || infohash.None? || !hasOut ==>
      rc == -1 && st == before && (handle != null && handle.core != null ==> unchanged(handle.core))
    ensures handle != null && handle.core != null && infohash.Some? && hasOut ==>
      handle.core.torrents == old(handle.core.torrents) &&
      handle.core.engineLog == old(handle.core.engineLog) + Execute(old(handle.core.torrents), Status(infohash.value), o).calls &&
      rc == (if infohash.value in old(handle.core.torrents) then 0 else -1) &&
      st == (if rc == 0 then MakeStatus(o.status) else ZeroStatus())
  {
    st := before;
    if handle == null || handle.core == null || infohash.None? || !hasOut {
      return -1, st;
    }
    st := ZeroStatus();
    var reply := handle.core.GetStatus(infohash.value, o);
    if reply.value.ok {
      st := reply.value.status.value;
    }
    rc := if reply.value.ok then 0 else -1;
  }

  // ---------------------------------------------------------------------------
  // bt_resume_all_torrents

  /** What `stat` says about a directory entry's path. */
  datatype FileKind = RegularFile | OtherFile

  /** One `readdir` entry; `kind` is `None` when `stat` fails. */
  datatype DirEntry = DirEntry(name: string, kind: Option<FileKind>)

  /** The directories `opendir` can open, each with its entries in `readdir` order. */
  type Directories = map<string, seq<DirEntry>>

  /** `PATH_MAX`, the size of the path buffer. */
  const PathMax: nat := 4096

  const TorrentSuffix: string := ".torrent"

  /** The name checks: not "." or "..", longer than ".torrent", and ending in it. */
  predicate NameEligible(name: string)
  {
    name != "." && name != ".." && |name| > |TorrentSuffix| &&
    name[|name| - |TorrentSuffix|..] == TorrentSuffix
  }

  /** `snprintf(path, PATH_MAX, "%s/%s", dir, name)` returns the full length;
      the entry is skipped unless it is below `PATH_MAX`. */
  predicate PathFits(dir: string, name: string)
  {
    |dir| + 1 + |name| < PathMax
  }

  /** Whether the loop goes as far as calling `bt_add_torrent_file` for the entry. */
  predicate Attempted(dir: string, e: DirEntry)
  {
    NameEligible(e.name) && PathFits(dir, e.name) && e.kind == Some(RegularFile)
  }

  function JoinPath(dir: string, name: string): string
  {
    dir + "/" + name
  }

  /** How many entries the loop tries to add. */
  function AttemptCount(dir: string, es: seq<DirEntry>): (n: nat)
    ensures n <= |es|
  {
    if es == [] then 0
    else AttemptCount(dir, es[..|es| - 1]) + (if Attempted(dir, es[|es| - 1]) then 1 else 0)
  }

  /** The registry after the loop has handled one entry. */
  function AfterEntry(reg: Registry, dir: string, save: string, e: DirEntry, o: Oracle): Registry
  {
    if Attempted(dir, e) then Execute(reg, Command.AddTorrentFile(JoinPath(dir, e.name), save), o).registry
    else reg
  }

  /** The engine calls the loop makes for one entry. */
  function EntryCalls(reg: Registry, dir: string, save: string, e: DirEntry, o: Oracle): seq<EngineCall>
  {
    if Attempted(dir, e) then Execute(reg, Command.AddTorrentFile(JoinPath(dir, e.name), save), o).calls
    else []
  }

  /** The adds the loop makes, in directory order. */
  function AttemptedAdds(dir: string, save: string, es: seq<DirEntry>): (cmds: seq<Command>)
    ensures |cmds| == AttemptCount(dir, es)
  {
    if es == [] then []
    else
      var e := es[|es| - 1];
      AttemptedAdds(dir, save, es[..|es| - 1]) +
        (if Attempted(dir, e) then [Command.AddTorrentFile(JoinPath(dir, e.name), save)] else [])
  }

  /** The engine answers those adds get: entry i is answered by `os[i]`. */
  function AttemptedOracles(dir: string, es: seq<DirEntry>, os: seq<Oracle>): (r: seq<Oracle>)
    requires |os| == |es|
    ensures |r| == AttemptCount(dir, es)
  {
    if es == [] then []
    else
      var e := es[|es| - 1];
      AttemptedOracles(dir, es[..|es| - 1], os[..|os| - 1]) + (if Attempted(dir, e) then [os[|os| - 1]] else [])
  }

  /** How many attempted adds the engine accepts. */
  function Successes(dir: string, es: seq<DirEntry>, os: seq<Oracle>): (n: nat)
    requires |os| == |es|
    ensures n <= AttemptCount(dir, es)
  {
    if es == [] then 0
    else
      var e := es[|es| - 1];
      Successes(dir, es[..|es| - 1], os[..|os| - 1]) +
        (if Attempted(dir, e) && os[|os| - 1].add.Added? then 1 else 0)
  }

  /** Every add the loop makes names a `.torrent` file inside the directory. */
  lemma {:induction false} AttemptedAddsAreTorrentFiles(dir: string, save: string, es: seq<DirEntry>)
    ensures forall i :: 0 <= i < |AttemptedAdds(dir, save, es)| ==>
      var c := AttemptedAdds(dir, save, es)[i];
      c.AddTorrentFile? && c.saveDir == save &&
      |dir| + 1 + |TorrentSuffix| < |c.torrentPath| < PathMax &&
      c.torrentPath[..|dir| + 1] == dir + "/" &&
      c.torrentPath[|c.torrentPath| - |TorrentSuffix|..] == TorrentSuffix
  {
    if es != [] {
      var e := es[|es| - 1];
      AttemptedAddsAreTorrentFiles(dir, save, es[..|es| - 1]);
      if Attempted(dir, e) {
        var p := JoinPath(dir, e.name);
        assert p[..|dir| + 1] == dir + "/";
        assert p[|p| - |TorrentSuffix|..] == e.name[|e.name| - |TorrentSuffix|..];
      }
    }
  }

  /** The loop body for one entry: skip it, or add it and count a success. */
  method ResumeOne(handle: BtHandle, dir: string, save: string, e: DirEntry, o: Oracle) returns (added: bool)
    requires handle.Live()
    modifies if handle.core != null then {handle.core} else {}
    ensures handle.Live()
    ensures handle.core != null ==>
      handle.core.cfg == old(handle.core.cfg) && handle.core.session == old(handle.core.session)
    ensures added == (handle.core != null && Attempted(dir, e) && o.add.Added?)
    ensures handle.core != null ==>
      handle.core.torrents == AfterEntry(old(handle.core.torrents), dir, save, e, o) &&
      handle.core.engineLog == old(handle.core.engineLog) + EntryCalls(old(handle.core.torrents), dir, save, e, o)
  {
    if e.name == "." || e.name == ".." {
      return false;
    }
    if |e.name| <= |TorrentSuffix| {
      return false;
    }
    if e.name[|e.name| - |TorrentSuffix|..] != TorrentSuffix {
      return false;
    }
    var path := JoinPath(dir, e.name);
    if !(|path| < PathMax) {
      return false;
    }
    if e.kind.None? || e.kind.value != RegularFile {
      return false;
    }
    var infohash := new char[64](i => NUL);
    var ret := BtAddTorrentFile(handle, Some(path), Some(save), infohash, 64, o);
    added := ret == 0;
  }

  /** The loop invariant of the `readdir` loop: after the first `i` entries
      the registry and the engine calls are what running their adds gives,
      and `count` is their successes. */
  predicate Resumed(reg: Registry, log: seq<EngineCall>, count: nat, t0: Registry, log0: seq<EngineCall>,
                    dir: string, save: string, es: seq<DirEntry>, os: seq<Oracle>, i: nat)
    requires i <= |es| == |os|
  {
    var run := RunTrace(t0, AttemptedAdds(dir, save, es[..i]), AttemptedOracles(dir, es[..i], os[..i]));
    && reg == run.registry
    && log == log0 + run.calls
    && count == Successes(dir, es[..i], os[..i])
  }

  /** One more directory entry: the registry and the count move exactly as
      that entry's add says. */
  lemma ResumeStep(reg: Registry, log: seq<EngineCall>, count: nat, t0: Registry, log0: seq<EngineCall>,
                   dir: string, save: string, es: seq<DirEntry>, os: seq<Oracle>, i: nat,
                   reg': Registry, log': seq<EngineCall>, count': nat)
    requires i < |es| == |os| && Resumed(reg, log, count, t0, log0, dir, save, es, os, i)
    requires reg' == AfterEntry(reg, dir, save, es[i], os[i]) && log' == log + EntryCalls(reg, dir, save, es[i], os[i])
    requires count' == count + (if Attempted(dir, es[i]) && os[i].add.Added? then 1 else 0)
    ensures Resumed(reg', log', count', t0, log0, dir, save, es, os, i + 1)
  {
    var cmd := Command.AddTorrentFile(JoinPath(dir, es[i].name), save);
    var before, beforeOs := AttemptedAdds(dir, save, es[..i]), AttemptedOracles(dir, es[..i], os[..i]);
    var run := RunTrace(t0, before, beforeOs);
    AttemptedSnoc(dir, save, es, os, i);
    if Attempted(dir, es[i]) {
      RunTraceAppend(t0, before, beforeOs, cmd, os[i]);
      var out := Execute(run.registry, cmd, os[i]);
      assert RunTrace(t0, AttemptedAdds(dir, save, es[..i + 1]), AttemptedOracles(dir, es[..i + 1], os[..i + 1]))
          == Run(out.registry, run.replies + [out.reply], run.calls + out.calls);
      CallsAssoc(log0, run.calls, out.calls);
    } else {
      assert RunTrace(t0, AttemptedAdds(dir, save, es[..i + 1]), AttemptedOracles(dir, es[..i + 1], os[..i + 1])) == run;
      assert log + EntryCalls(reg, dir, save, es[i], os[i]) == log;
    }
  }

  /** The loop's adds, answers and successes grow by one entry at a time. */
  lemma AttemptedSnoc(dir: string, save: string, es: seq<DirEntry>, os: seq<Oracle>, i: nat)
    requires i < |es| == |os|
    ensures Attempted(dir, es[i]) ==>
      && AttemptedAdds(dir, save, es[..i + 1]) ==
           AttemptedAdds(dir, save, es[..i]) + [Command.AddTorrentFile(JoinPath(dir, es[i].name), save)]
      && AttemptedOracles(dir, es[..i + 1], os[..i + 1]) == AttemptedOracles(dir, es[..i], os[..i]) + [os[i]]
    ensures !Attempted(dir, es[i]) ==>
      && AttemptedAdds(dir, save, es[..i + 1]) == AttemptedAdds(dir, save, es[..i])
      && AttemptedOracles(dir, es[..i + 1], os[..i + 1]) == AttemptedOracles(dir, es[..i], os[..i])
    ensures Successes(dir, es[..i + 1], os[..i + 1]) ==
      Successes(dir, es[..i], os[..i]) + (if Attempted(dir, es[i]) && os[i].add.Added? then 1 else 0)
  {
    assert es[..i + 1][..i] == es[..i] && os[..i + 1][..i] == os[..i];
    if !Attempted(dir, es[i]) {
      var before, beforeOs := AttemptedAdds(dir, save, es[..i]), AttemptedOracles(dir, es[..i], os[..i]);
      assert before + [] == before && beforeOs + [] == beforeOs;
    }
  }

  /** `bt_resume_all_torrents`: -1 for a NULL handle or path or a directory
      that does not open; otherwise every entry that passes the checks is
      added as a .torrent file and the successes are counted. */
  method BtResumeAllTorrents(handle: BtHandle?, btDir: Option<string>, savePath: Option<string>,
                             dirs: Directories, os: seq<Oracle>) returns (count: int)
    requires handle != null ==> handle.Live()
    requires btDir.Some? && btDir.value in dirs ==> |os| == |dirs[btDir.value]|
    modifies if handle != null && handle.core != null then {handle.core} else {}
    ensures handle != null ==> handle.Live()
    ensures handle != null && handle.core != null ==>
      handle.core.cfg == old(handle.core.cfg) && handle.core.session == old(handle.core.session)
    ensures handle == null || btDir.None? || savePath.None? || btDir.value !in dirs ==>
      count == -1 && (handle != null && handle.core != null ==> unchanged(handle.core))
    ensures handle != null && btDir.Some? && savePath.Some? && btDir.value in dirs ==>
      var es := dirs[btDir.value];
      count == (if handle.core == null then 0 else Successes(btDir.value, es, os)) &&
      (handle.core != null ==>
         var run := RunTrace(old(handle.core.torrents), AttemptedAdds(btDir.value, savePath.value, es),
                             AttemptedOracles(btDir.value, es, os));
         handle.core.torrents == run.registry && handle.core.engineLog == old(handle.core.engineLog) + run.calls)
  {
    if handle == null || btDir.None? || savePath.None? {
      return -1;
    }
    if btDir.value !in dirs {
      return -1;
    }
    count := ResumeEntries(handle, btDir.value, savePath.value, dirs[btDir.value], os);
  }

  /** The `readdir` loop of `bt_resume_all_torrents`. */
  method ResumeEntries(handle: BtHandle, dir: string, save: string, es: seq<DirEntry>, os: seq<Oracle>)
    returns (count: nat)
    requires handle.Live() && |os| == |es|
    modifies if handle.core != null then {handle.core} else {}
    ensures handle.Live()
    ensures handle.core != null ==>
      handle.core.cfg == old(handle.core.cfg) && handle.core.session == old(handle.core.session)
    ensures count == (if handle.core == null then 0 else Successes(dir, es, os))
    ensures handle.core != null ==>
      var run := RunTrace(old(handle.core.torrents), AttemptedAdds(dir, save, es), AttemptedOracles(dir, es, os));
      handle.core.torrents == run.registry && handle.core.engineLog == old(handle.core.engineLog) + run.calls
  {
    ghost var t0 := if handle.core != null then handle.core.torrents else map[];
    ghost var log0 := if handle.core != null then handle.core.engineLog else [];
    count := 0;
    var i := 0;
    while i < |es|
      invariant 0 <= i <= |es| && handle.Live()
      invariant handle.core == null ==> count == 0
      invariant handle.core != null ==>
        handle.core.cfg == old(handle.core.cfg) && handle.core.session == old(handle.core.session)
      invariant handle.core != null ==> Resumed(handle.core.torrents, handle.core.engineLog, count, t0, log0, dir, save, es, os, i)
    {
      ghost var reg, log, n := if handle.core != null then handle.core.torrents else map[],
                               if handle.core != null then handle.core.engineLog else [], count;
      var added := ResumeOne(handle, dir, save, es[i], os[i]);
      if added {
        count := count + 1;
      }
      if handle.core != null {
        ResumeStep(reg, log, n, t0, log0, dir, save, es, os, i, handle.core.torrents, handle.core.engineLog, count);
      }
      i := i + 1;
    }
    assert es[..i] == es && os[..i] == os;
  }
}
