/** The daemon process of src/bt_daemon.c: the `bt_instance` singleton with
    `bt_core_init` / `bt_core_shutdown`, one handler per RPC method, and the
    main loop that answers request frames until end of input or `shutdown`. */
module Daemon {
  import opened Base
  import opened BtTypes
  import opened Hex
  import opened Config
  import opened Actor
  import opened Core
  import opened Api
  import opened Rpc

  /** The files and directories the daemon can see. */
  datatype World = World(fs: FileSystem, dirs: Directories)

  /** What the environment answers while one request is handled: the
      engine's answer to the request's command, its answers to the adds of
      `resume_all_torrents` (one per directory entry), whether the handle
      allocation of `bt_init` fails, and whether printing the status object
      fails. */
  datatype Context = Context(o: Oracle, entryOracles: seq<Oracle>, callocFails: bool, printFails: bool)

  /** What one `recv_frame` call yields: end of input (1), a frame error (-1),
      or a frame whose text `cJSON_Parse` turned into an envelope. */
  datatype Incoming = EndOfInput | FrameError | Frame(request: Envelope, ctx: Context)

  /** The environment supplies one engine answer per entry of the torrents directory. */
  predicate ResumeOraclesFit(p: Params, ctx: Context, w: World)
  {
    "torrents_dir" in p && p["torrents_dir"].Str? && p["torrents_dir"].s in w.dirs ==>
      |ctx.entryOracles| == |w.dirs[p["torrents_dir"].s]|
  }

  /** What a request needs in order to be handled at all: the parameters its
      handler dereferences are present, and an `init` that gets its handle
      (there is no instance yet, `live` is false) loads a configuration on
      which `BtCore::init` does not throw. */
  predicate Fits(req: Envelope, ctx: Context, w: World, live: bool)
  {
    req.Request? ==>
      && HasRequiredParams(req.name, req.params)
      && ResumeOraclesFit(req.params, ctx, w)
      && (req.name == MethodInit && !live && !ctx.callocFails ==> InitNeverThrows(ConfigPathParam(req.params), w.fs))
  }

  /** Every frame of the input stream meets `Fits` as if no instance existed
      yet, since which `init` first creates one depends on the run. */
  predicate InputsFit(inputs: seq<Incoming>, w: World)
  {
    forall i :: 0 <= i < |inputs| && inputs[i].Frame? ==> Fits(inputs[i].request, inputs[i].ctx, w, false)
  }

  /** `config_path` when it is a string, "" otherwise. */
  function ConfigPathParam(p: Params): string
  {
    if "config_path" in p && p["config_path"].Str? then p["config_path"].s else ""
  }

  function AddCommand(m: string, a: string, b: string): Command
  {
    if m == MethodAddMagnet then Command.AddMagnet(a, b)
    else if m == MethodAddTorrentFile then Command.AddTorrentFile(a, b)
    else Command.SeedFolder(a, b)
  }

  /** The command pause, resume and remove post for an infohash. */
  function LookupCommand(m: string, ih: string, removeFiles: bool): Command
  {
    if m == MethodPause then Pause(ih)
    else if m == MethodResume then Resume(ih)
    else Remove(ih, removeFiles)
  }

  predicate IsAddMethod(m: string)
  {
    m == MethodAddMagnet || m == MethodAddTorrentFile || m == MethodSeedFolder
  }

  /** The 500 messages a method can answer with. */
  function AllowedFailures(m: string): set<string>
  {
    (if FailureMessage(m).Some? then {FailureMessage(m).value} else {}) +
    (if m == MethodStatus then {InternalErrorMessage} else {})
  }

  /** The result object a successful method answers with. */
  predicate ResultFits(m: string, res: ResultBody)
  {
    if m == MethodInit then res == VersionResult
    else if IsAddMethod(m) then res.InfohashResult? && IsInfohash(res.hex)
    else if m == MethodStatus then res.StatusResult? && StatusFromFields(res.fields).Some?
    else if m == MethodResumeAll then res.ResumedCount? && res.count >= -1
    else res == EmptyObject
  }

  /** How the daemon answers a request frame: a malformed envelope with
      id 0 and 400 "bad request"; an unknown method with the request's id and
      400 "unknown method"; a known method with its id and either its own
      result or a 500 with one of its failure messages. */
  predicate Answers(req: Envelope, r: Response)
  {
    WellFormed(r) &&
    match req
    case Unparseable => false
    case Malformed => r == ErrorResponse(0, BadRequest, BadRequestMessage)
    case Request(id, m, _) =>
      && r.id == id
      && (m !in KnownMethods ==> r == ErrorResponse(id, BadRequest, UnknownMethodMessage))
      && (m in KnownMethods && !r.ok ==>
            r.error.value.code == InternalFailure && r.error.value.message in AllowedFailures(m))
      && (r.ok ==> m in KnownMethods && ResultFits(m, r.result))
  }

  /** The methods answered by calling into the core. */
  predicate IsCoreCall(m: string)
  {
    IsAddMethod(m) || m == MethodPause || m == MethodResume || m == MethodRemove ||
    m == MethodStatus || m == MethodResumeAll
  }

  /** The two string parameters an add method reads. */
  function AddKeys(m: string): (string, string)
  {
    if m == MethodAddMagnet then ("magnet_uri", "save_dir")
    else if m == MethodAddTorrentFile then ("torrent_path", "save_dir")
    else ("folder", "torrent_out_path")
  }

  /** The response to a method that calls into the core, the registry
      afterwards and the engine calls made, from the request's params, the
      environment, whether an instance exists and the registry before.
      Parameters of the wrong JSON type reach the core as NULL. */
  function CoreCallOutcome(id: int, m: string, p: Params, ctx: Context, w: World, live: bool, reg: Registry)
    : (Response, Registry, seq<EngineCall>)
    requires IsCoreCall(m) && HasRequiredParams(m, p)
  {
    if IsAddMethod(m) then
      var a, b := ValueString(p[AddKeys(m).0]), ValueString(p[AddKeys(m).1]);
      var failed := ErrorResponse(id, InternalFailure, FailureMessage(m).value);
      if live && a.Some? && b.Some? then
        var out := Execute(reg, AddCommand(m, a.value, b.value), ctx.o);
        (if ctx.o.add.Added? then OkResponse(id, InfohashResult(HexEncode(ctx.o.add.v1))) else failed,
         out.registry, out.calls)
      else (failed, reg, [])
    else if m == MethodPause || m == MethodResume || m == MethodRemove then
      var ih := ValueString(p["infohash_hex"]);
      var rm := m == MethodRemove && ValueInt(p["remove_files"]) != 0;
      var reg' := if live && m == MethodRemove && ih.Some? then reg - {ih.value} else reg;
      var calls := if live && ih.Some? then Execute(reg, LookupCommand(m, ih.value, rm), ctx.o).calls else [];
      if live && ih.Some? && ih.value in reg then (OkResponse(id, EmptyObject), reg', calls)
      else (ErrorResponse(id, InternalFailure, FailureMessage(m).value), reg', calls)
    else if m == MethodStatus then
      var ih := ValueString(p["infohash_hex"]);
      var calls := if live && ih.Some? then Execute(reg, Status(ih.value), ctx.o).calls else [];
      if !(live && ih.Some? && ih.value in reg) then (ErrorResponse(id, InternalFailure, "status failed"), reg, calls)
      else if ctx.printFails then (ErrorResponse(id, InternalFailure, InternalErrorMessage), reg, calls)
      else (OkResponse(id, StatusResult(StatusFields(MakeStatus(ctx.o.status)))), reg, calls)
    else
      var dirT, dirD := ValueString(p["torrents_dir"]), ValueString(p["data_dir"]);
      if live && dirT.Some? && dirD.Some? && dirT.value in w.dirs && |ctx.entryOracles| == |w.dirs[dirT.value]| then
        var es := w.dirs[dirT.value];
        var run := RunTrace(reg, AttemptedAdds(dirT.value, dirD.value, es), AttemptedOracles(dirT.value, es, ctx.entryOracles));
        (OkResponse(id, ResumedCount(Successes(dirT.value, es, ctx.entryOracles))), run.registry, run.calls)
      else (OkResponse(id, ResumedCount(-1)), reg, [])
  }

  /** Every outcome a core call can have is one of the answers the protocol
      allows for its method. */
  lemma CoreCallAnswers(id: int, m: string, p: Params, ctx: Context, w: World, live: bool, reg: Registry)
    requires IsCoreCall(m) && HasRequiredParams(m, p)
    ensures Answers(Request(id, m, p), CoreCallOutcome(id, m, p, ctx, w, live, reg).0)
  {
    var r := CoreCallOutcome(id, m, p, ctx, w, live, reg).0;
    if IsAddMethod(m) && r.ok {
      DigestIsInfohash(ctx.o.add.v1);
    }
    if m == MethodStatus && r.ok {
      StatusFieldsRoundTrip(MakeStatus(ctx.o.status));
    }
  }

  /** Whether the main loop leaves after this input. */
  predicate Stops(x: Incoming)
  {
    x.EndOfInput? || (x.Frame? && x.request.Request? && x.request.name == MethodShutdown)
  }

  /** The envelopes among the inputs that get a response, in order. */
  function Answered(xs: seq<Incoming>): (r: seq<Envelope>)
    ensures |r| <= |xs|
    ensures forall k :: 0 <= k < |r| ==> !r[k].Unparseable?
  {
    if xs == [] then []
    else
      var x := xs[|xs| - 1];
      Answered(xs[..|xs| - 1]) + (if x.Frame? && !x.request.Unparseable? then [x.request] else [])
  }

  /** The loop invariant of the main loop: one response per answered input, in order, each answering it. */
  predicate AllAnswered(xs: seq<Incoming>, rs: seq<Response>)
  {
    var es := Answered(xs);
    |rs| == |es| && forall k {:trigger Answers(es[k], rs[k])} :: 0 <= k < |rs| ==> Answers(es[k], rs[k])
  }

  /** One more input, and the response it got if any. */
  lemma AnswerNext(xs: seq<Incoming>, x: Incoming, rs: seq<Response>, r: Option<Response>)
    requires AllAnswered(xs, rs)
    requires r.Some? <==> x.Frame? && !x.request.Unparseable?
    requires r.Some? ==> x.Frame? && Answers(x.request, r.value)
    ensures AllAnswered(xs + [x], rs + (if r.Some? then [r.value] else []))
  {
    assert (xs + [x])[..|xs|] == xs;
  }

  /** `static BtHandle* bt_instance`. */
  class Daemon {
    var instance: BtHandle?

    /** The objects the handlers may change: the core of the instance. */
    ghost function CoreSet(): set<object>
      reads this
    {
      if instance != null && instance.core != null then {instance.core} else {}
    }

    ghost predicate Valid()
      reads this, CoreSet()
    {
      instance != null ==> instance.core != null && instance.Live()
    }

    constructor ()
      ensures Valid() && instance == null
    {
      instance := null;
    }

    /** `bt_core_init`: creates the instance once; later calls answer 0
        without loading anything. */
    method CoreInit(configPath: string, w: World, callocFails: bool) returns (rc: int)
      requires Valid()
      requires instance == null && !callocFails ==> InitNeverThrows(configPath, w.fs)
      modifies this
      ensures Valid()
      ensures rc == 0 <==> instance != null
      ensures old(instance) != null ==> unchanged(this)
      ensures old(instance) == null && instance != null ==> !callocFails
      ensures old(instance) == null && instance != null ==>
        fresh(instance.core) && instance.core.cfg == LoadedConfig(configPath, w.fs) && instance.core.torrents == map[]
    {
      if instance == null {
        instance := BtInit(Some(configPath), w.fs, callocFails);
        if instance == null {
          return 1;
        }
      }
      return 0;
    }

    /** `bt_core_shutdown`: nothing without an instance; otherwise the core
        stops. `bt_instance` is not reset (the loop leaves right after), and
        freeing the handle is not modelled. */
    method CoreShutdown()
      requires Valid()
      modifies CoreSet()
      ensures instance != null ==>
        && !instance.core.running && instance.core.session == None
        && instance.core.cfg == old(instance.core.cfg) && instance.core.queue == old(instance.core.queue)
        && instance.core.torrents == old(instance.core.torrents) && instance.core.engineLog == old(instance.core.engineLog)
    {
      if instance == null {
        return;
      }
      BtShutdown(instance);
    }

    /** The `init` branch: 500 "init failed" when no instance can be made. */
    method HandleInit(id: int, p: Params, w: World, callocFails: bool) returns (r: Response)
      requires Valid()
      requires instance == null && !callocFails ==> InitNeverThrows(ConfigPathParam(p), w.fs)
      modifies this
      ensures Valid()
      ensures r == if instance != null then OkResponse(id, VersionResult) else ErrorResponse(id, InternalFailure, "init failed")
      ensures old(instance) != null ==> unchanged(this)
      ensures old(instance) == null && instance != null ==> !callocFails
      ensures old(instance) == null && instance != null ==>
        fresh(instance.core) && instance.core.cfg == LoadedConfig(ConfigPathParam(p), w.fs) && instance.core.torrents == map[]
    {
      var rc := CoreInit(ConfigPathParam(p), w, callocFails);
      if rc != 0 {
        r := ErrorResponse(id, InternalFailure, "init failed");
      } else {
        r := OkResponse(id, VersionResult);
      }
    }

    /** The three add branches: the infohash from a 64-byte buffer, or a 500
        with the method's message. */
    method HandleAdd(id: int, m: string, a: Option<string>, b: Option<string>, o: Oracle) returns (r: Response)
      requires Valid() && IsAddMethod(m)
      modifies CoreSet()
      ensures Valid()
      ensures instance != null ==>
        instance.core.cfg == old(instance.core.cfg) && instance.core.session == old(instance.core.session)
      ensures r.id == id && WellFormed(r)
      ensures r.ok ==> r.result.InfohashResult? && IsInfohash(r.result.hex)
      ensures !r.ok ==> r.error == Some(RpcError(InternalFailure, FailureMessage(m).value))
      ensures instance == null ==> !r.ok
      ensures instance != null ==>
        (r.ok <==> a.Some? && b.Some? && o.add.Added?) &&
        (r.ok ==> r.result.hex == HexEncode(o.add.v1)) &&
        instance.core.torrents ==
          (if a.Some? && b.Some? then Execute(old(instance.core.torrents), AddCommand(m, a.value, b.value), o).registry
           else old(instance.core.torrents)) &&
        instance.core.engineLog == old(instance.core.engineLog) +
          (if a.Some? && b.Some? then Execute(old(instance.core.torrents), AddCommand(m, a.value, b.value), o).calls
           else [])
    {
      var buf := new char[64](i => NUL);
      var rc;
      if m == MethodAddMagnet {
        rc := BtAddMagnet(instance, a, b, buf, buf.Length, o);
      } else if m == MethodAddTorrentFile {
        rc := BtAddTorrentFile(instance, a, b, buf, buf.Length, o);
      } else {
        rc := BtSeedFolder(instance, a, b, buf, buf.Length, o);
      }
      if rc != 0 {
        r := ErrorResponse(id, InternalFailure, FailureMessage(m).value);
      } else {
        assert buf[..buf.Length] == buf[..];
        DigestIsInfohash(o.add.v1);
        r := OkResponse(id, InfohashResult(CString(buf[..])));
      }
    }

    /** The pause, resume and remove branches: `{}` when the core knows the
        infohash, a 500 with the method's message otherwise. */
    method HandleLookup(id: int, m: string, ih: Option<string>, removeFiles: int, o: Oracle) returns (r: Response)
      requires Valid() && (m == MethodPause || m == MethodResume || m == MethodRemove)
      modifies CoreSet()
      ensures Valid()
      ensures instance != null ==>
        instance.core.cfg == old(instance.core.cfg) && instance.core.session == old(instance.core.session)
      ensures r.ok ==> r == OkResponse(id, EmptyObject)
      ensures !r.ok ==> r == ErrorResponse(id, InternalFailure, FailureMessage(m).value)
      ensures r.ok <==> instance != null && ih.Some? && ih.value in old(instance.core.torrents)
      ensures instance != null ==>
        instance.core.torrents ==
          (if m == MethodRemove && ih.Some? then old(instance.core.torrents) - {ih.value} else old(instance.core.torrents)) &&
        instance.core.engineLog == old(instance.core.engineLog) +
          (if ih.Some? then Execute(old(instance.core.torrents), LookupCommand(m, ih.value, removeFiles != 0), o).calls
           else [])
    {
      var rc;
      if m == MethodPause {
        rc := BtPauseTorrent(instance, ih, o);
      } else if m == MethodResume {
        rc := BtResumeTorrent(instance, ih, o);
      } else {
        rc := BtRemoveTorrent(instance, ih, removeFiles, o);
      }
      if rc != 0 {
        r := ErrorResponse(id, InternalFailure, FailureMessage(m).value);
      } else {
        r := OkResponse(id, EmptyObject);
      }
    }

    /** The `get_torrent_status` branch: "status failed" for an unknown
        infohash, "internal error" when the result object cannot be printed. */
    method HandleStatus(id: int, ih: Option<string>, printFails: bool, o: Oracle) returns (r: Response)
      requires Valid()
      modifies CoreSet()
      ensures Valid()
      ensures instance != null ==>
        instance.core.cfg == old(instance.core.cfg) && instance.core.session == old(instance.core.session)
      ensures instance != null ==> instance.core.torrents == old(instance.core.torrents)
      ensures instance != null ==>
        instance.core.engineLog == old(instance.core.engineLog) +
          (if ih.Some? then Execute(old(instance.core.torrents), Status(ih.value), o).calls else [])
      ensures r.ok <==> instance != null && ih.Some? && ih.value in old(instance.core.torrents) && !printFails
      ensures r.ok ==> r == OkResponse(id, StatusResult(StatusFields(MakeStatus(o.status))))
      ensures !r.ok ==>
        r == ErrorResponse(id, InternalFailure,
               if instance != null && ih.Some? && ih.value in old(instance.core.torrents) then InternalErrorMessage
               else "status failed")
    {
      var rc, st := BtGetTorrentStatus(instance, ih, true, ZeroStatus(), o);
      if rc != 0 {
        r := ErrorResponse(id, InternalFailure, "status failed");
      } else if printFails {
        r := ErrorResponse(id, InternalFailure, InternalErrorMessage);
      } else {
        r := OkResponse(id, StatusResult(StatusFields(st)));
      }
    }

    /** The `resume_all_torrents` branch: always "ok", with the count
        `bt_resume_all_torrents` returns (-1 included). */
    method HandleResumeAll(id: int, dirT: Option<string>, dirD: Option<string>, w: World, os: seq<Oracle>)
      returns (r: Response)
      requires Valid()
      requires dirT.Some? && dirT.value in w.dirs ==> |os| == |w.dirs[dirT.value]|
      modifies CoreSet()
      ensures Valid()
      ensures instance != null ==>
        instance.core.cfg == old(instance.core.cfg) && instance.core.session == old(instance.core.session)
      ensures r.ok && r.id == id && r.result.ResumedCount?
      ensures r == OkResponse(id, ResumedCount(r.result.count))
      ensures instance == null || dirT.None? || dirD.None? || dirT.value !in w.dirs ==>
        r.result.count == -1 && (instance != null ==> unchanged(instance.core))
      ensures instance != null && dirT.Some? && dirD.Some? && dirT.value in w.dirs ==>
        var es := w.dirs[dirT.value];
        var run := RunTrace(old(instance.core.torrents), AttemptedAdds(dirT.value, dirD.value, es), AttemptedOracles(dirT.value, es, os));
        r.result.count == Successes(dirT.value, es, os) &&
        instance.core.torrents == run.registry && instance.core.engineLog == old(instance.core.engineLog) + run.calls
    {
      var count := BtResumeAllTorrents(instance, dirT, dirD, w.dirs, os);
      r := OkResponse(id, ResumedCount(count));
    }

    /** The body of the main loop for one decoded frame: which response is
        sent, and whether the loop ends (only after `shutdown`, whose "ok"
        is sent before the core is torn down). */
    method Handle(req: Envelope, ctx: Context, w: World) returns (resp: Option<Response>, stop: bool)
      requires Valid() && Fits(req, ctx, w, instance != null)
      modifies this, CoreSet()
      ensures stop <==> req.Request? && req.name == MethodShutdown
      ensures !stop ==> Valid()
      ensures resp.Some? <==> !req.Unparseable?
      ensures resp.Some? ==> Answers(req, resp.value)
      ensures stop ==> resp == Some(OkResponse(req.id, EmptyObject)) && (instance != null && instance.core != null ==> !instance.core.running)
      ensures old(instance) != null ==> instance == old(instance)
      ensures !(req.Request? && req.name == MethodInit) ==> instance == old(instance)
      ensures old(instance) == null && instance != null ==> fresh(instance.core)
      ensures req.Request? && req.name == MethodInit ==>
        resp == Some(if instance != null then OkResponse(req.id, VersionResult)
                     else ErrorResponse(req.id, InternalFailure, "init failed"))
      ensures req.Request? && req.name == MethodInit && old(instance) == null && instance != null ==>
        !ctx.callocFails && instance.core.cfg == LoadedConfig(ConfigPathParam(req.params), w.fs) &&
        instance.core.torrents == map[]
      ensures req.Request? && IsCoreCall(req.name) && old(instance) == null ==>
        resp == Some(CoreCallOutcome(req.id, req.name, req.params, ctx, w, false, map[]).0)
      ensures req.Request? && IsCoreCall(req.name) && old(instance) != null ==>
        var (r, reg, calls) := CoreCallOutcome(req.id, req.name, req.params, ctx, w, true, old(instance.core.torrents));
        resp == Some(r) && instance.core.torrents == reg && instance.core.engineLog == old(instance.core.engineLog) + calls
      ensures req.Request? && IsCoreCall(req.name) && old(instance) != null ==>
        instance.core.cfg == old(instance.core.cfg) && instance.core.session == old(instance.core.session)
      ensures stop && old(instance) != null ==>
        && instance.core.session == None
        && instance.core.cfg == old(instance.core.cfg) && instance.core.queue == old(instance.core.queue)
        && instance.core.torrents == old(instance.core.torrents) && instance.core.engineLog == old(instance.core.engineLog)
      ensures !(req.Request? && (IsCoreCall(req.name) || req.name == MethodShutdown)) &&
              !(req.Request? && req.name == MethodInit && old(instance) == null) ==>
        unchanged(this) && (instance != null ==> unchanged(instance.core))
    {
      stop := false;
      if req.Unparseable? {
        return None, false;
      }
      if req.Malformed? {
        return Some(ErrorResponse(0, BadRequest, BadRequestMessage)), false;
      }
      var id, m, p := req.id, req.name, req.params;
      var r;
      if m == MethodInit {
        r := HandleInit(id, p, w, ctx.callocFails);
      } else if IsCoreCall(m) {
        r := HandleCoreCall(id, m, p, ctx, w);
      } else if m == MethodShutdown {
        r := OkResponse(id, EmptyObject);
        CoreShutdown();
        stop := true;
      } else {
        r := ErrorResponse(id, BadRequest, UnknownMethodMessage);
      }
      resp := Some(r);
    }

    /** The branches that take their arguments from the request's params and
        call into the core: the add methods, pause, resume, remove, status and
        resume_all. */
    method HandleCoreCall(id: int, m: string, p: Params, ctx: Context, w: World) returns (r: Response)
      requires Valid() && IsCoreCall(m) && Fits(Request(id, m, p), ctx, w, instance != null)
      modifies CoreSet()
      ensures Valid()
      ensures instance != null ==>
        instance.core.cfg == old(instance.core.cfg) && instance.core.session == old(instance.core.session)
      ensures instance == null ==> r == CoreCallOutcome(id, m, p, ctx, w, false, map[]).0
      ensures instance != null ==>
        var (r0, reg, calls) := CoreCallOutcome(id, m, p, ctx, w, true, old(instance.core.torrents));
        r == r0 && instance.core.torrents == reg && instance.core.engineLog == old(instance.core.engineLog) + calls
      ensures Answers(Request(id, m, p), r)
    {
      ghost var reg := if instance != null then instance.core.torrents else map[];
      if IsAddMethod(m) {
        var a, b := ValueString(p[AddKeys(m).0]), ValueString(p[AddKeys(m).1]);
        r := HandleAdd(id, m, a, b, ctx.o);
      } else if m == MethodPause || m == MethodResume || m == MethodRemove {
        var rm := if m == MethodRemove then ValueInt(p["remove_files"]) else 0;
        r := HandleLookup(id, m, ValueString(p["infohash_hex"]), rm, ctx.o);
      } else if m == MethodStatus {
        r := HandleStatus(id, ValueString(p["infohash_hex"]), ctx.printFails, ctx.o);
      } else {
        r := HandleResumeAll(id, ValueString(p["torrents_dir"]), ValueString(p["data_dir"]), w, ctx.entryOracles);
      }
      CoreCallAnswers(id, m, p, ctx, w, instance != null, reg);
    }

    /** One turn of the main loop: input `i` is answered, or skipped, and may end the loop. */
    method ServeOne(inputs: seq<Incoming>, i: nat, responses: seq<Response>, w: World)
      returns (responses': seq<Response>, stop: bool)
      requires i < |inputs| && Valid() && InputsFit(inputs, w) && AllAnswered(inputs[..i], responses)
      modifies this, CoreSet()
      ensures stop <==> Stops(inputs[i])
      ensures !stop ==> Valid()
      ensures AllAnswered(inputs[..i + 1], responses')
      ensures inputs[i].Frame? && stop ==>
        |responses'| > 0 && responses'[|responses'| - 1] == OkResponse(inputs[i].request.id, EmptyObject) &&
        (instance != null && instance.core != null ==> !instance.core.running)
      ensures old(instance) != null ==> instance == old(instance)
      ensures old(instance) == null && instance != null ==> fresh(instance.core)
    {
      var x := inputs[i];
      assert inputs[..i + 1] == inputs[..i] + [x];
      if !x.Frame? {
        AnswerNext(inputs[..i], x, responses, None);
        return responses, x.EndOfInput?;
      }
      var resp;
      resp, stop := Handle(x.request, x.ctx, w);
      AnswerNext(inputs[..i], x, responses, resp);
      responses' := responses + if resp.Some? then [resp.value] else [];
    }

    /** The main loop: frame errors and unparseable text get no response, every
        other frame gets exactly one, in order; the loop leaves at the first end
        of input or `shutdown`. */
    method Serve(inputs: seq<Incoming>, w: World) returns (responses: seq<Response>, consumed: nat)
      requires Valid()
      requires InputsFit(inputs, w)
      modifies this, CoreSet()
      ensures consumed <= |inputs|
      ensures forall j :: 0 <= j < consumed && Stops(inputs[j]) ==> j == consumed - 1
      ensures consumed < |inputs| ==> 0 < consumed && Stops(inputs[consumed - 1])
      ensures AllAnswered(inputs[..consumed], responses)
      ensures 0 < consumed && inputs[consumed - 1].Frame? && Stops(inputs[consumed - 1]) ==>
        |responses| > 0 && responses[|responses| - 1] == OkResponse(inputs[consumed - 1].request.id, EmptyObject) &&
        (instance != null && instance.core != null ==> !instance.core.running)
    {
      responses := [];
      consumed := 0;
      while consumed < |inputs|
        invariant consumed <= |inputs| && Valid()
        invariant forall j :: 0 <= j < consumed ==> !Stops(inputs[j])
        invariant AllAnswered(inputs[..consumed], responses)
        invariant old(instance) != null ==> instance == old(instance)
        invariant old(instance) == null && instance != null ==> fresh(instance.core)
      {
        var stop;
        responses, stop := ServeOne(inputs, consumed, responses, w);
        consumed := consumed + 1;
        if stop {
          break;
        }
      }
      assert consumed == |inputs| ==> inputs[..consumed] == inputs;
    }
  }
}
