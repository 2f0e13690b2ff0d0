/** What one command does when the engine thread of `BtCore` runs it
    (src/bt_core.cpp): its effect on the infohash registry, the calls it makes
    on the torrent engine, and what it hands back to the waiting caller. The
    engine itself is not modelled: whatever it answers arrives as an `Oracle`. */
module Actor {
  import opened Base
  import opened BtTypes
  import opened Hex

  /** A SHA-1 digest (`lt::sha1_hash`): 20 bytes. */
  type Sha1Digest = s: seq<byte> | |s| == 20 witness seq(20, i => 0)

  /** An engine torrent handle; the daemon only stores it and passes it back. */
  datatype TorrentHandle = TorrentHandle(id: nat)

  /** `m_torrents`: infohash hex -> engine handle. */
  type Registry = map<string, TorrentHandle>

  /** The closures `BtCore` posts to its engine thread, one case per operation. */
  datatype Command =
    | AddMagnet(magnetUri: string, saveDir: string)
    | AddTorrentFile(torrentPath: string, saveDir: string)
    | SeedFolder(folder: string, torrentOut: string)
    | Pause(infohash: string)
    | Resume(infohash: string)
    | Remove(infohash: string, removeFiles: bool)
    | Status(infohash: string)

  predicate IsAdd(c: Command)
  {
    c.AddMagnet? || c.AddTorrentFile? || c.SeedFolder?
  }

  /** How an add went inside the engine. `PrepareFailed`: the magnet link or
      torrent file did not parse, or the folder could not be made into a torrent
      (no files, piece hashing, writing or re-reading the .torrent failed), so
      `add_torrent` was never called. `AddRejected`: `add_torrent` set an error. */
  datatype AddOutcome =
    | PrepareFailed
    | AddRejected
    | Added(handle: TorrentHandle, v1: Sha1Digest)

  /** The fields of `lt::torrent_status` the daemon reads. `errorValue` is
      `errc.value()`; the error code converts to true exactly when it is nonzero. */
  datatype EngineStatus = EngineStatus(
    progress: real,
    downloadRate: int,
    uploadRate: int,
    totalDownload: int,
    totalUpload: int,
    numPeers: int,
    numSeeds: int,
    numComplete: int,
    numIncomplete: int,
    hasMetadata: bool,
    isSeeding: bool,
    paused: bool,
    errorValue: int,
    errorMessage: string)

  /** Everything the engine answers while one command runs. */
  datatype Oracle = Oracle(add: AddOutcome, status: EngineStatus)

  /** Where the torrent of an add comes from. */
  datatype TorrentSource =
    | MagnetLink(uri: string)
    | TorrentFile(path: string)
    | CreatedTorrent(folder: string, torrentOut: string)

  /** The `add_torrent_params` handed to `add_torrent`: where the torrent
      comes from, where its data goes, and which flags the code ORs into
      `flags` (on top of whatever flags the parameters already carry). */
  datatype AddRequest = AddRequest(
    source: TorrentSource,
    savePath: string,
    setsAutoManaged: bool,
    setsPaused: bool,
    setsSeedMode: bool)

  /** Calls made on the engine session or on a torrent handle, in order. */
  datatype EngineCall =
    | AddTorrent(request: AddRequest)
    | ResumeHandle(handle: TorrentHandle)
    | PauseHandle(handle: TorrentHandle)
    | RemoveHandle(handle: TorrentHandle, deleteFiles: bool)
    | QueryStatus(handle: TorrentHandle)

  /** What the command hands back through its captured references: the `ok`
      flag, the infohash out-string and the status out-record. */
  datatype Reply = Reply(ok: bool, infohash: Option<string>, status: Option<BtTorrentStatus>)

  const Failed: Reply := Reply(false, None, None)

  /** The registry afterwards, the reply, and the engine calls made. */
  datatype Outcome = Outcome(registry: Registry, reply: Reply, calls: seq<EngineCall>)

  // ---------------------------------------------------------------------------
  // seedFolder's parent directory

  predicate IsSeparator(c: char)
  {
    c == '/' || c == '\\'
  }

  /** `find_last_of("/\\")`: the last position holding a separator, if any. */
  function FindLastSeparator(s: string): (r: Option<nat>)
    ensures r.None? <==> forall i :: 0 <= i < |s| ==> !IsSeparator(s[i])
    ensures r.Some? ==>
      r.value < |s| && IsSeparator(s[r.value]) &&
      (forall j :: r.value < j < |s| ==> !IsSeparator(s[j]))
  {
    if s == [] then None
    else if IsSeparator(s[|s| - 1]) then Some(|s| - 1)
    else FindLastSeparator(s[..|s| - 1])
  }

  /** The directory the folder lives in: "." with no separator, "/" when the
      only last separator is the leading one, otherwise the text before the last
      separator. It is both the piece-hashing root and the seed's save path. */
  function ParentDir(folder: string): (parent: string)
    ensures parent == "." || parent == "/" || (|parent| < |folder| && parent == folder[..|parent|])
    ensures parent == "/" ==> folder != [] && IsSeparator(folder[0])
  {
    match FindLastSeparator(folder)
    case None => "."
    case Some(p) => if p == 0 then "/" else folder[..p]
  }

  /** The three cases of the parent-directory rule, stated on the folder text. */
  lemma ParentDirCases(folder: string)
    ensures (forall i :: 0 <= i < |folder| ==> !IsSeparator(folder[i])) ==> ParentDir(folder) == "."
    ensures forall p ::
      (0 <= p < |folder| && IsSeparator(folder[p]) &&
       (forall j :: p < j < |folder| ==> !IsSeparator(folder[j]))) ==>
      ParentDir(folder) == (if p == 0 then "/" else folder[..p])
  {
    forall p | 0 <= p < |folder| && IsSeparator(folder[p]) &&
      (forall j :: p < j < |folder| ==> !IsSeparator(folder[j]))
      ensures ParentDir(folder) == (if p == 0 then "/" else folder[..p])
    {
      var r := FindLastSeparator(folder);
      assert r.Some?;
      assert r.value == p;
    }
  }

  /** Joining a directory and a plain name with a separator and taking the
      parent again gives the directory back ("/" for the root). */
  lemma ParentOfJoin(dir: string, sep: char, name: string)
    requires IsSeparator(sep)
    requires forall i :: 0 <= i < |name| ==> !IsSeparator(name[i])
    ensures ParentDir(dir + [sep] + name) == (if dir == [] then "/" else dir)
  {
    var f := dir + [sep] + name;
    ParentDirCases(f);
    assert IsSeparator(f[|dir|]);
    assert forall j :: |dir| < j < |f| ==> f[j] == name[j - |dir| - 1];
    assert f[..|dir|] == dir;
  }

  // ---------------------------------------------------------------------------
  // status

  /** `0.9999f`, the progress at which a torrent counts as finished: the
      single-precision value nearest to 0.9999, which is exactly
      8387769 / 2^23 (slightly below 0.9999). */
  const FinishedThreshold: real := 8387769.0 / 8388608.0

  /** The state chosen by the precedence chain of getStatus. */
  function DeriveState(st: EngineStatus): (s: BtState)
    ensures s == Seeding <==> st.isSeeding
    ensures s == Paused <==> !st.isSeeding && st.paused
    ensures s == Error <==> !st.isSeeding && !st.paused && st.errorValue != 0
    ensures s == Finished <==>
      !st.isSeeding && !st.paused && st.errorValue == 0 && st.progress >= FinishedThreshold
    ensures s == Downloading <==>
      !st.isSeeding && !st.paused && st.errorValue == 0 && st.progress < FinishedThreshold
  {
    if st.isSeeding then Seeding
    else if st.paused then Paused
    else if st.errorValue != 0 then Error
    else if st.progress >= FinishedThreshold then Finished
    else Downloading
  }

  /** What `snprintf(buf, cap, "%s", s)` leaves in a `cap`-byte buffer: the C
      string of `s`, cut to at most `cap - 1` characters. */
  function Truncated(s: string, cap: pos): (r: string)
    ensures |r| < cap && NUL !in r
    ensures r <= CString(s)
    ensures |CString(s)| < cap ==> r == CString(s)
  {
    var c := CString(s);
    c[..Min(|c|, cap - 1)]
  }

  /** The out-record getStatus fills from the engine's status. */
  function MakeStatus(st: EngineStatus): (r: BtTorrentStatus)
    ensures r.state == DeriveState(st)
    ensures r.numLeechers == st.numComplete + st.numIncomplete
    ensures r.isSeeding == (if st.isSeeding then 1 else 0)
    ensures r.hasMetadata == (if st.hasMetadata then 1 else 0)
    ensures r.errorCode == st.errorValue
    ensures |r.errorMsg| < ErrorMsgCapacity && NUL !in r.errorMsg
    ensures st.errorValue == 0 ==> r.errorMsg == ""
    ensures st.errorValue != 0 ==> r.errorMsg <= CString(st.errorMessage)
  {
    BtTorrentStatus(
      DeriveState(st),
      st.progress,
      st.downloadRate,
      st.uploadRate,
      st.totalDownload,
      st.totalUpload,
      st.numPeers,
      st.numSeeds,
      st.numComplete + st.numIncomplete,
      if st.isSeeding then 1 else 0,
      if st.hasMetadata then 1 else 0,
      st.errorValue,
      if st.errorValue != 0 then Truncated(st.errorMessage, ErrorMsgCapacity) else "")
  }

  /** The reported state and the `is_seeding` flag never disagree, and a status
      is never reported as BT_STATE_UNKNOWN. */
  lemma StatusConsistent(st: EngineStatus)
    ensures MakeStatus(st).state == Seeding <==> MakeStatus(st).isSeeding == 1
    ensures MakeStatus(st).state != Unknown
    ensures MakeStatus(st).state == Error ==> MakeStatus(st).errorCode != 0
  {
  }

  // ---------------------------------------------------------------------------
  // one command

  /** The request each add hands to `add_torrent`: for a magnet the code sets
      auto_managed and paused (and resumes the handle afterwards), for a
      .torrent file auto_managed, and for a created torrent seed_mode, saved
      under the folder's parent. */
  function AddRequestFor(cmd: Command): (req: AddRequest)
    requires IsAdd(cmd)
    ensures req.setsSeedMode <==> cmd.SeedFolder?
    ensures req.setsPaused <==> cmd.AddMagnet?
    ensures req.setsAutoManaged <==> !cmd.SeedFolder?
    ensures cmd.SeedFolder? ==> req.savePath == ParentDir(cmd.folder)
    ensures !cmd.SeedFolder? ==> req.savePath == cmd.saveDir
  {
    match cmd
    case AddMagnet(uri, dir) => AddRequest(MagnetLink(uri), dir, true, true, false)
    case AddTorrentFile(path, dir) => AddRequest(TorrentFile(path), dir, true, false, false)
    case SeedFolder(folder, out) =>
      AddRequest(CreatedTorrent(folder, out), ParentDir(folder), false, false, true)
  }

  /** Running one command against the registry. */
  function Execute(reg: Registry, cmd: Command, o: Oracle): (r: Outcome)
    // adds: succeed exactly when the engine added the torrent, and then file it
    // under the hex of its v1 digest, replacing any earlier entry for that key
    ensures IsAdd(cmd) ==> (r.reply.ok <==> o.add.Added?)
    ensures IsAdd(cmd) && o.add.Added? ==>
      r.reply.infohash == Some(HexEncode(o.add.v1)) &&
      r.registry == reg[HexEncode(o.add.v1) := o.add.handle]
    ensures IsAdd(cmd) && !o.add.Added? ==> r.registry == reg
    // lookups: succeed exactly when the key is registered
    ensures !IsAdd(cmd) ==> (r.reply.ok <==> cmd.infohash in reg)
    ensures cmd.Pause? || cmd.Resume? || cmd.Status? ==> r.registry == reg
    ensures cmd.Remove? ==> r.registry == reg - {cmd.infohash}
    // out-parameters are written only on success
    ensures r.reply.infohash.Some? <==> IsAdd(cmd) && r.reply.ok
    ensures r.reply.status.Some? <==> cmd.Status? && r.reply.ok
    ensures cmd.Status? && r.reply.ok ==> r.reply.status == Some(MakeStatus(o.status))
  {
    match cmd
    case Pause(k) =>
      if k in reg then Outcome(reg, Reply(true, None, None), [PauseHandle(reg[k])])
      else Outcome(reg, Failed, [])
    case Resume(k) =>
      if k in reg then Outcome(reg, Reply(true, None, None), [ResumeHandle(reg[k])])
      else Outcome(reg, Failed, [])
    case Remove(k, removeFiles) =>
      if k in reg then Outcome(reg - {k}, Reply(true, None, None), [RemoveHandle(reg[k], removeFiles)])
      else Outcome(reg, Failed, [])
    case Status(k) =>
      if k in reg then Outcome(reg, Reply(true, None, Some(MakeStatus(o.status))), [QueryStatus(reg[k])])
      else Outcome(reg, Failed, [])
    case _ =>
      var req := AddRequestFor(cmd);
      match o.add
      case PrepareFailed => Outcome(reg, Failed, [])
      case AddRejected => Outcome(reg, Failed, [AddTorrent(req)])
      case Added(h, v1) =>
        var hex := HexEncode(v1);
        Outcome(reg[hex := h], Reply(true, Some(hex), None),
          [AddTorrent(req)] + (if cmd.AddMagnet? then [ResumeHandle(h)] else []))
  }

  /** Every registry key is a 40-character lowercase infohash. */
  ghost predicate KeysAreInfohashes(reg: Registry)
  {
    forall k :: k in reg ==> IsInfohash(k)
  }

  /** Commands keep the registry keyed by infohashes only, and an add's reply
      is itself such an infohash. */
  lemma ExecuteKeepsInfohashKeys(reg: Registry, cmd: Command, o: Oracle)
    requires KeysAreInfohashes(reg)
    ensures KeysAreInfohashes(Execute(reg, cmd, o).registry)
    ensures Execute(reg, cmd, o).reply.infohash.Some? ==>
      IsInfohash(Execute(reg, cmd, o).reply.infohash.value)
  {
    if IsAdd(cmd) && o.add.Added? {
      DigestIsInfohash(o.add.v1);
    }
  }

  /** Adding a torrent that is already registered replaces its handle and does
      not grow the registry; a new one grows it by exactly one. */
  lemma ReAddNeverDuplicates(reg: Registry, cmd: Command, o: Oracle)
    requires IsAdd(cmd) && o.add.Added?
    ensures var r := Execute(reg, cmd, o).registry;
      r.Keys == reg.Keys + {HexEncode(o.add.v1)} &&
      |r| == (if HexEncode(o.add.v1) in reg then |reg| else |reg| + 1)
  {
    var k := HexEncode(o.add.v1);
    var r := Execute(reg, cmd, o).registry;
    assert r.Keys == reg.Keys + {k};
    if k !in reg {
      assert |r.Keys| == |reg.Keys| + 1;
    } else {
      assert r.Keys == reg.Keys;
    }
  }

  /** A torrent that was just added reports its status. */
  lemma AddThenStatusFound(reg: Registry, cmd: Command, o1: Oracle, o2: Oracle)
    requires IsAdd(cmd) && o1.add.Added?
    ensures var r1 := Execute(reg, cmd, o1);
      Execute(r1.registry, Status(r1.reply.infohash.value), o2).reply.ok
  {
  }

  /** After a remove, the torrent is unknown to status, pause, resume and remove. */
  lemma RemoveThenUnknown(reg: Registry, k: string, removeFiles: bool, o1: Oracle, next: Command, o2: Oracle)
    requires !IsAdd(next) && next.infohash == k
    ensures var r1 := Execute(reg, Remove(k, removeFiles), o1);
      !Execute(r1.registry, next, o2).reply.ok
  {
  }

  // ---------------------------------------------------------------------------
  // a run of commands

  /** The registry after running `cmds` in order, the i-th engine answer being `os[i]`. */
  function RunAll(reg: Registry, cmds: seq<Command>, os: seq<Oracle>): Registry
    requires |cmds| == |os|
    decreases cmds
  {
    if cmds == [] then reg
    else RunAll(Execute(reg, cmds[0], os[0]).registry, cmds[1..], os[1..])
  }

  /** Everything a run of commands produces: the registry afterwards, the
      reply of each command in order, and the engine calls in order. */
  datatype Run = Run(registry: Registry, replies: seq<Reply>, calls: seq<EngineCall>)

  /** Running `cmds` in order, the i-th engine answer being `os[i]`: each
      command sees the registry its predecessors left. */
  function RunTrace(reg: Registry, cmds: seq<Command>, os: seq<Oracle>): (r: Run)
    requires |cmds| == |os|
    ensures |r.replies| == |cmds|
    ensures r.registry == RunAll(reg, cmds, os)
    decreases |cmds|
  {
    if cmds == [] then Run(reg, [], [])
    else
      var n := |cmds| - 1;
      var before := RunTrace(reg, cmds[..n], os[..n]);
      var out := Execute(before.registry, cmds[n], os[n]);
      RunAllAppend(reg, cmds[..n], os[..n], [cmds[n]], [os[n]]);
      assert cmds[..n] + [cmds[n]] == cmds && os[..n] + [os[n]] == os;
      Run(out.registry, before.replies + [out.reply], before.calls + out.calls)
  }

  /** Running one more command of a batch after its first `i` extends the
      replies and calls by that command's reply and calls, on the registry
      the first `i` left. */
  lemma RunTraceSnoc(reg: Registry, cmds: seq<Command>, os: seq<Oracle>, i: nat)
    requires i < |cmds| == |os|
    ensures var before := RunTrace(reg, cmds[..i], os[..i]);
      var out := Execute(before.registry, cmds[i], os[i]);
      RunTrace(reg, cmds[..i + 1], os[..i + 1]) == Run(out.registry, before.replies + [out.reply], before.calls + out.calls)
  {
    assert cmds[..i + 1][..i] == cmds[..i] && os[..i + 1][..i] == os[..i];
  }

  /** Appending engine calls in two steps is appending them at once. */
  lemma CallsAssoc(a: seq<EngineCall>, b: seq<EngineCall>, c: seq<EngineCall>)
    ensures a + b + c == a + (b + c)
  {
  }

  /** `RunTraceSnoc` for a batch given as a prefix and its next command. */
  lemma RunTraceAppend(reg: Registry, cmds: seq<Command>, os: seq<Oracle>, c: Command, o: Oracle)
    requires |cmds| == |os|
    ensures var before := RunTrace(reg, cmds, os);
      var out := Execute(before.registry, c, o);
      RunTrace(reg, cmds + [c], os + [o]) == Run(out.registry, before.replies + [out.reply], before.calls + out.calls)
  {
    var cs, ps := cmds + [c], os + [o];
    assert cs[..|cmds|] == cmds && ps[..|cmds|] == os && cs[..|cmds| + 1] == cs && ps[..|cmds| + 1] == ps;
    RunTraceSnoc(reg, cs, ps, |cmds|);
  }

  /** Running one more command after a batch. */
  lemma RunAllSnoc(reg: Registry, cmds: seq<Command>, os: seq<Oracle>, c: Command, o: Oracle)
    requires |cmds| == |os|
    ensures RunAll(reg, cmds + [c], os + [o]) == Execute(RunAll(reg, cmds, os), c, o).registry
  {
    RunAllAppend(reg, cmds, os, [c], [o]);
    assert RunAll(RunAll(reg, cmds, os), [c], [o]) == Execute(RunAll(reg, cmds, os), c, o).registry;
  }

  /** Running two batches one after the other is running their concatenation. */
  lemma {:induction false} RunAllAppend(reg: Registry, c1: seq<Command>, o1: seq<Oracle>,
                                        c2: seq<Command>, o2: seq<Oracle>)
    requires |c1| == |o1| && |c2| == |o2|
    ensures RunAll(reg, c1 + c2, o1 + o2) == RunAll(RunAll(reg, c1, o1), c2, o2)
    decreases c1
  {
    if c1 == [] {
      assert c1 + c2 == c2 && o1 + o2 == o2;
    } else {
      assert (c1 + c2)[0] == c1[0] && (o1 + o2)[0] == o1[0];
      assert (c1 + c2)[1..] == c1[1..] + c2;
      assert (o1 + o2)[1..] == o1[1..] + o2;
      RunAllAppend(Execute(reg, c1[0], o1[0]).registry, c1[1..], o1[1..], c2, o2);
    }
  }

  /** However many commands run, only infohashes are ever registry keys. */
  lemma {:induction false} RunAllKeepsInfohashKeys(reg: Registry, cmds: seq<Command>, os: seq<Oracle>)
    requires |cmds| == |os|
    requires KeysAreInfohashes(reg)
    ensures KeysAreInfohashes(RunAll(reg, cmds, os))
    decreases cmds
  {
    if cmds != [] {
      ExecuteKeepsInfohashKeys(reg, cmds[0], os[0]);
      RunAllKeepsInfohashKeys(Execute(reg, cmds[0], os[0]).registry, cmds[1..], os[1..]);
    }
  }

  /** Pause, resume and status never change the registry, however many run. */
  lemma {:induction false} LookupsKeepRegistry(reg: Registry, cmds: seq<Command>, os: seq<Oracle>)
    requires |cmds| == |os|
    requires forall i :: 0 <= i < |cmds| ==> cmds[i].Pause? || cmds[i].Resume? || cmds[i].Status?
    ensures RunAll(reg, cmds, os) == reg
    decreases cmds
  {
    if cmds != [] {
      assert cmds[0].Pause? || cmds[0].Resume? || cmds[0].Status?;
      LookupsKeepRegistry(reg, cmds[1..], os[1..]);
    }
  }
}
