/** `BtCore` (src/bt_core.hpp, src/bt_core.cpp) run sequentially: the caller
    posts a command to the FIFO queue and the engine thread pops and runs it
    before the caller's wait returns. Threads, the mutex and the condition
    variable are gone; what remains is the state they protect. */
module Core {
  import opened Base
  import opened BtTypes
  import opened Hex
  import opened Config
  import opened Actor

  class BtCore {
    /** `m_cfg`. */
    var cfg: BtConfig
    /** `m_running`. */
    var running: bool
    /** `m_cmdQueue`, front first. */
    var queue: seq<Command>
    /** `m_torrents`. */
    var torrents: Registry
    /** `m_session`: present while the engine thread runs, with the settings it was built from. */
    var session: Option<SessionSettings>
    /** Every call made on the engine, oldest first. */
    var engineLog: seq<EngineCall>

    ghost predicate Valid()
      reads this
    {
      && KeysAreInfohashes(torrents)
      && (running ==> cfg.enableBt && SessionStarts(cfg) && session == Some(SessionFor(cfg)))
      && (!running ==> session == None)
    }

    /** No command is waiting: the state between two calls of a single client. */
    ghost predicate Idle()
      reads this
    {
      queue == []
    }

    /** `BtCore() = default`: default settings, not running, nothing queued or registered. */
    constructor ()
      ensures Valid() && Idle()
      ensures cfg == DefaultConfig && !running && torrents == map[] && engineLog == []
    {
      cfg := DefaultConfig;
      running := false;
      queue := [];
      torrents := map[];
      session := None;
      engineLog := [];
    }

    /** `init`: a running core answers true and reloads nothing; otherwise the
        configuration is (re)loaded into `cfg`, and the engine thread starts
        only when it enables BitTorrent. */
    method Init(configPath: string, fs: FileSystem) returns (ok: bool)
      requires Valid()
      requires !running ==> InitNeverThrows(configPath, fs)
      modifies this
      ensures Valid()
      ensures old(running) ==> ok && unchanged(this)
      ensures !old(running) ==>
        && cfg == LoadedConfig(configPath, fs)
        && ok == cfg.enableBt && running == ok
        && queue == old(queue) && torrents == old(torrents) && engineLog == old(engineLog)
    {
      if running {
        return true;
      }
      var loaded, c := LoadConfig(configPath, fs);
      cfg := c;
      if !loaded {
        return false;
      }
      if !cfg.enableBt {
        return false;
      }
      running := true;
      var s := StartSession(cfg);
      session := Some(s);
      ok := true;
    }

    /** `shutdown`: a no-op when not running; otherwise the thread is told to
        stop and joined, and it drops its session on the way out. Commands still
        queued are never run. */
    method Shutdown()
      requires Valid()
      modifies this
      ensures Valid()
      ensures !running && session == None
      ensures !old(running) ==> unchanged(this)
      ensures cfg == old(cfg) && queue == old(queue) && torrents == old(torrents) && engineLog == old(engineLog)
    {
      if !running {
        return;
      }
      running := false;
      session := None;
    }

    /** `postCommand`: queue the command only while running; a command posted
        to a stopped core is silently dropped. */
    method PostCommand(cmd: Command)
      modifies this
      ensures queue == if old(running) then old(queue) + [cmd] else old(queue)
      ensures !old(running) ==> unchanged(this)
      ensures running == old(running) && cfg == old(cfg) && torrents == old(torrents)
      ensures session == old(session) && engineLog == old(engineLog)
    {
      if !running {
        return;
      }
      queue := queue + [cmd];
    }

    /** The body of one command closure, run by the engine thread. */
    method RunCommand(cmd: Command, o: Oracle) returns (reply: Reply)
      modifies this
      ensures var out := Execute(old(torrents), cmd, o);
        torrents == out.registry && reply == out.reply && engineLog == old(engineLog) + out.calls
      ensures cfg == old(cfg) && running == old(running) && queue == old(queue) && session == old(session)
    {
      reply := Failed;
      if IsAdd(cmd) {
        var req := AddRequestFor(cmd);
        if o.add.PrepareFailed? {
          return;
        }
        engineLog := engineLog + [AddTorrent(req)];
        if o.add.AddRejected? {
          return;
        }
        var h := o.add.handle;
        var hex := Sha1ToHex(o.add.v1);
        torrents := torrents[hex := h];
        if cmd.AddMagnet? {
          engineLog := engineLog + [ResumeHandle(h)];
        }
        reply := Reply(true, Some(hex), None);
      } else if cmd.infohash in torrents {
        var h := torrents[cmd.infohash];
        if cmd.Pause? {
          engineLog := engineLog + [PauseHandle(h)];
        } else if cmd.Resume? {
          engineLog := engineLog + [ResumeHandle(h)];
        } else if cmd.Remove? {
          engineLog := engineLog + [RemoveHandle(h, cmd.removeFiles)];
          torrents := torrents - {cmd.infohash};
        } else {
          engineLog := engineLog + [QueryStatus(h)];
        }
        reply := Reply(true, None, if cmd.Status? then Some(MakeStatus(o.status)) else None);
      }
    }

    /** One turn of the engine thread's loop: once stopped it runs nothing;
        with an empty queue it waits and runs nothing; otherwise it pops exactly
        the front command and runs it. */
    method WorkerStep(o: Oracle) returns (ran: Option<Reply>)
      modifies this
      ensures old(running) && old(queue) != [] ==>
        var out := Execute(old(torrents), old(queue)[0], o);
        && queue == old(queue)[1..]
        && ran == Some(out.reply) && torrents == out.registry
        && engineLog == old(engineLog) + out.calls
      ensures !(old(running) && old(queue) != []) ==>
        ran == None && queue == old(queue) && torrents == old(torrents) && engineLog == old(engineLog)
      ensures cfg == old(cfg) && running == old(running) && session == old(session)
    {
      if !running || queue == [] {
        return None;
      }
      var cmd := queue[0];
      queue := queue[1..];
      var reply := RunCommand(cmd, o);
      ran := Some(reply);
    }

    /** The engine thread's loop while it keeps running: one turn per queued
        command, front first, so the replies, the engine calls and the registry
        are those of running the commands in the order they were posted. */
    method Drain(os: seq<Oracle>) returns (replies: seq<Reply>)
      requires running && |os| == |queue|
      modifies this
      ensures var run := RunTrace(old(torrents), old(queue), os);
        queue == [] && replies == run.replies && torrents == run.registry &&
        engineLog == old(engineLog) + run.calls
      ensures torrents == RunAll(old(torrents), old(queue), os)
      ensures cfg == old(cfg) && running == old(running) && session == old(session)
    {
      ghost var q0 := queue;
      ghost var t0 := torrents;
      ghost var log0 := engineLog;
      replies := [];
      var i := 0;
      while i < |os|
        invariant 0 <= i <= |os|
        invariant queue == q0[i..]
        invariant Drained(torrents, replies, engineLog, t0, log0, q0, os, i)
        invariant cfg == old(cfg) && running && session == old(session)
      {
        ghost var before := (torrents, replies, engineLog);
        var ran := WorkerStep(os[i]);
        replies := replies + [ran.value];
        DrainStep(before.0, before.1, before.2, t0, log0, q0, os, i);
        i := i + 1;
      }
      assert q0[..i] == q0 && os[..i] == os;
    }

    /** The invariant of the engine thread's loop: after `i` turns, the state
        is that of running the first `i` queued commands. */
    static ghost predicate Drained(reg: Registry, replies: seq<Reply>, log: seq<EngineCall>,
                                   t0: Registry, log0: seq<EngineCall>, q0: seq<Command>, os: seq<Oracle>, i: nat)
      requires i <= |q0| == |os|
    {
      var run := RunTrace(t0, q0[..i], os[..i]);
      reg == run.registry && replies == run.replies && log == log0 + run.calls
    }

    /** One more turn of the engine thread's loop. */
    static lemma DrainStep(reg: Registry, replies: seq<Reply>, log: seq<EngineCall>,
                           t0: Registry, log0: seq<EngineCall>, q0: seq<Command>, os: seq<Oracle>, i: nat)
      requires i < |q0| == |os| && Drained(reg, replies, log, t0, log0, q0, os, i)
      ensures var out := Execute(reg, q0[i], os[i]);
        Drained(out.registry, replies + [out.reply], log + out.calls, t0, log0, q0, os, i + 1)
    {
      RunTraceSnoc(t0, q0, os, i);
    }

    /** What every public operation does: post the command and wait for it.
        `None` means the wait never ends (the core was not running, so the
        command was dropped and nobody fulfils the promise). */
    method Call(cmd: Command, o: Oracle) returns (reply: Option<Reply>)
      requires Valid() && Idle()
      modifies this
      ensures Valid() && Idle()
      ensures reply.Some? <==> old(running)
      ensures !old(running) ==> unchanged(this)
      ensures old(running) ==>
        var out := Execute(old(torrents), cmd, o);
        reply == Some(out.reply) && torrents == out.registry && engineLog == old(engineLog) + out.calls
      ensures cfg == old(cfg) && running == old(running) && session == old(session)
    {
      PostCommand(cmd);
      if !running {
        return None;
      }
      assert queue == [cmd];
      reply := WorkerStep(o);
      ExecuteKeepsInfohashKeys(old(torrents), cmd, o);
    }

    /** `addMagnet`: the engine is asked to add the magnet, and a handle it
        adds is filed under its info-hash and resumed. */
    method AddMagnet(magnet: string, saveDir: string, o: Oracle) returns (reply: Option<Reply>)
      requires Valid() && Idle()
      modifies this
      ensures Valid() && Idle() && running == old(running) && cfg == old(cfg) && session == old(session)
      ensures reply.Some? <==> old(running)
      ensures !old(running) ==> unchanged(this)
      ensures reply.Some? ==>
        (reply.value.ok <==> o.add.Added?) &&
        (reply.value.ok ==>
           reply.value.infohash == Some(HexEncode(o.add.v1)) &&
           torrents == old(torrents)[HexEncode(o.add.v1) := o.add.handle]) &&
        (!reply.value.ok ==> torrents == old(torrents)) &&
        engineLog == old(engineLog) +
          (if o.add.PrepareFailed? then [] else [AddTorrent(AddRequest(MagnetLink(magnet), saveDir, true, true, false))]) +
          (if o.add.Added? then [ResumeHandle(o.add.handle)] else [])
    {
      reply := Call(Command.AddMagnet(magnet, saveDir), o);
    }

    /** `addTorrentFile`: the engine is asked to add the loaded file, and a
        handle it adds is filed under its info-hash. */
    method AddTorrentFile(path: string, saveDir: string, o: Oracle) returns (reply: Option<Reply>)
      requires Valid() && Idle()
      modifies this
      ensures Valid() && Idle() && running == old(running) && cfg == old(cfg) && session == old(session)
      ensures reply.Some? <==> old(running)
      ensures !old(running) ==> unchanged(this)
      ensures reply.Some? ==>
        (reply.value.ok <==> o.add.Added?) &&
        (reply.value.ok ==>
           reply.value.infohash == Some(HexEncode(o.add.v1)) &&
           torrents == old(torrents)[HexEncode(o.add.v1) := o.add.handle]) &&
        (!reply.value.ok ==> torrents == old(torrents)) &&
        engineLog == old(engineLog) +
          (if o.add.PrepareFailed? then [] else [AddTorrent(AddRequest(TorrentFile(path), saveDir, true, false, false))])
    {
      reply := Call(Command.AddTorrentFile(path, saveDir), o);
    }

    /** `seedFolder`: the created torrent is added in seed mode, saved under the
        folder's parent directory. */
    method SeedFolder(folder: string, torrentOut: string, o: Oracle) returns (reply: Option<Reply>)
      requires Valid() && Idle()
      modifies this
      ensures Valid() && Idle() && running == old(running) && cfg == old(cfg) && session == old(session)
      ensures reply.Some? <==> old(running)
      ensures !old(running) ==> unchanged(this)
      ensures reply.Some? ==>
        (reply.value.ok <==> o.add.Added?) &&
        (reply.value.ok ==>
           reply.value.infohash == Some(HexEncode(o.add.v1)) &&
           torrents == old(torrents)[HexEncode(o.add.v1) := o.add.handle]) &&
        (!reply.value.ok ==> torrents == old(torrents)) &&
        engineLog == old(engineLog) +
          (if o.add.PrepareFailed? then []
           else [AddTorrent(AddRequest(CreatedTorrent(folder, torrentOut), ParentDir(folder), false, false, true))])
    {
      reply := Call(Command.SeedFolder(folder, torrentOut), o);
    }

    /** `pauseTorrent`: a registered torrent's handle is paused. */
    method PauseTorrent(infohash: string, o: Oracle) returns (reply: Option<Reply>)
      requires Valid() && Idle()
      modifies this
      ensures Valid() && Idle() && running == old(running) && cfg == old(cfg) && session == old(session)
      ensures reply.Some? <==> old(running)
      ensures !old(running) ==> unchanged(this)
      ensures torrents == old(torrents)
      ensures reply.Some? ==>
        (reply.value.ok <==> infohash in old(torrents)) &&
        engineLog == old(engineLog) +
          (if infohash in old(torrents) then [PauseHandle(old(torrents)[infohash])] else [])
    {
      reply := Call(Pause(infohash), o);
    }

    /** `resumeTorrent`: a registered torrent's handle is resumed. */
    method ResumeTorrent(infohash: string, o: Oracle) returns (reply: Option<Reply>)
      requires Valid() && Idle()
      modifies this
      ensures Valid() && Idle() && running == old(running) && cfg == old(cfg) && session == old(session)
      ensures reply.Some? <==> old(running)
      ensures !old(running) ==> unchanged(this)
      ensures torrents == old(torrents)
      ensures reply.Some? ==>
        (reply.value.ok <==> infohash in old(torrents)) &&
        engineLog == old(engineLog) +
          (if infohash in old(torrents) then [ResumeHandle(old(torrents)[infohash])] else [])
    {
      reply := Call(Resume(infohash), o);
    }

    /** `removeTorrent`: a registered torrent is removed from the engine, which
        deletes its files only when asked to, and from the map. */
    method RemoveTorrent(infohash: string, removeFiles: bool, o: Oracle) returns (reply: Option<Reply>)
      requires Valid() && Idle()
      modifies this
      ensures Valid() && Idle() && running == old(running) && cfg == old(cfg) && session == old(session)
      ensures reply.Some? <==> old(running)
      ensures !old(running) ==> unchanged(this)
      ensures reply.Some? ==>
        (reply.value.ok <==> infohash in old(torrents)) &&
        torrents == old(torrents) - {infohash} &&
        engineLog == old(engineLog) +
          (if infohash in old(torrents) then [RemoveHandle(old(torrents)[infohash], removeFiles)] else [])
    {
      reply := Call(Remove(infohash, removeFiles), o);
    }

    /** `getStatus`: a registered torrent's handle is queried and its status
        translated. */
    method GetStatus(infohash: string, o: Oracle) returns (reply: Option<Reply>)
      requires Valid() && Idle()
      modifies this
      ensures Valid() && Idle() && running == old(running) && cfg == old(cfg) && session == old(session)
      ensures reply.Some? <==> old(running)
      ensures !old(running) ==> unchanged(this)
      ensures torrents == old(torrents)
      ensures reply.Some? ==>
        (reply.value.ok <==> infohash in old(torrents)) &&
        (reply.value.ok ==> reply.value.status == Some(MakeStatus(o.status))) &&
        engineLog == old(engineLog) +
          (if infohash in old(torrents) then [QueryStatus(old(torrents)[infohash])] else [])
    {
      reply := Call(Status(infohash), o);
    }
  }
}
