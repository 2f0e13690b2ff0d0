/** The JSON-RPC envelope of src/bt_daemon.c as abstract values: what a
    decoded request frame can be, the responses the daemon writes, the
    state names and the status result object. JSON text itself (cJSON's
    parser and printer) is not modelled. */
module Rpc {
  import opened Base
  import opened BtTypes

  /** A member of the request's `params` object, as the handlers read it.
      A number is held as its `valueint` (the double converted to `int`). */
  datatype ParamValue = Str(s: string) | Num(n: int) | Bool(b: bool) | OtherValue

  type Params = map<string, ParamValue>

  /** `->valuestring`: the string, or NULL. */
  function ValueString(v: ParamValue): (r: Option<string>)
    ensures r.Some? <==> v.Str?
  {
    if v.Str? then Some(v.s) else None
  }

  /** `->valueint`: cJSON stores 1 for `true`, and leaves 0 in every item
      that is neither a number nor `true`. */
  function ValueInt(v: ParamValue): (r: int)
    ensures v.Bool? ==> (r != 0 <==> v.b)
    ensures v.Str? || v.OtherValue? ==> r == 0
  {
    match v
    case Num(n) => n
    case Bool(b) => if b then 1 else 0
    case Str(_) => 0
    case OtherValue => 0
  }

  /** A request frame after `cJSON_Parse`: not JSON at all, JSON whose `id` is
      not a number or `method` not a string or `params` not an object, or a
      proper request. `id` is the number's `valueint`. */
  datatype Envelope =
    | Unparseable
    | Malformed
    | Request(id: int, name: string, params: Params)

  /** A JSON value in a result object. */
  datatype JsonValue = JString(s: string) | JNumber(r: real)

  /** The `result` member of a response. */
  datatype ResultBody =
    | NullResult                            // "result": null
    | EmptyObject                           // "result": {}
    | VersionResult                         // {"version": <build version>}
    | InfohashResult(hex: string)           // {"infohash_hex": ...}
    | StatusResult(fields: seq<(string, JsonValue)>)
    | ResumedCount(count: int)              // {"resumed_count": ...}

  datatype RpcError = RpcError(code: int, message: string)

  /** A response object: `id`, `status` ("ok" exactly when `ok`), `result`
      and `error` (null when absent). */
  datatype Response = Response(id: int, ok: bool, result: ResultBody, error: Option<RpcError>)

  /** The shape every response has: an error response carries a null result
      and an error object, a success response carries a null error. */
  predicate WellFormed(r: Response)
  {
    (r.ok <==> r.error.None?) && (!r.ok ==> r.result == NullResult)
  }

  /** `send_error_response(id, code, msg)`. */
  function ErrorResponse(id: int, code: int, message: string): (r: Response)
    ensures WellFormed(r) && !r.ok && r.id == id
    ensures r.error == Some(RpcError(code, message))
  {
    Response(id, false, NullResult, Some(RpcError(code, message)))
  }

  /** A success response with the given result. */
  function OkResponse(id: int, result: ResultBody): (r: Response)
    requires result != NullResult
    ensures WellFormed(r) && r.ok && r.id == id && r.result == result
  {
    Response(id, true, result, None)
  }

  // The fixed texts and codes of the error responses.
  const BadRequest: int := 400
  const InternalFailure: int := 500
  const BadRequestMessage: string := "bad request"
  const UnknownMethodMessage: string := "unknown method"
  const InternalErrorMessage: string := "internal error"

  /** The method names the dispatcher knows. */
  const MethodInit: string := "init"
  const MethodAddMagnet: string := "add_magnet"
  const MethodAddTorrentFile: string := "add_torrent_file"
  const MethodSeedFolder: string := "seed_folder"
  const MethodPause: string := "pause_torrent"
  const MethodResume: string := "resume_torrent"
  const MethodRemove: string := "remove_torrent"
  const MethodStatus: string := "get_torrent_status"
  const MethodResumeAll: string := "resume_all_torrents"
  const MethodShutdown: string := "shutdown"

  const KnownMethods: seq<string> := [MethodInit, MethodAddMagnet, MethodAddTorrentFile, MethodSeedFolder,
    MethodPause, MethodResume, MethodRemove, MethodStatus, MethodResumeAll, MethodShutdown]

  /** The message of a method's 500 response when its operation fails;
      `resume_all_torrents` and `shutdown` never fail. */
  function FailureMessage(m: string): (r: Option<string>)
    ensures r.None? <==> m !in KnownMethods || m == MethodResumeAll || m == MethodShutdown
  {
    if m == MethodInit then Some("init failed")
    else if m == MethodAddMagnet then Some("add_magnet failed")
    else if m == MethodAddTorrentFile then Some("add_torrent_file failed")
    else if m == MethodSeedFolder then Some("seed_folder failed")
    else if m == MethodPause then Some("pause failed")
    else if m == MethodResume then Some("resume failed")
    else if m == MethodRemove then Some("remove failed")
    else if m == MethodStatus then Some("status failed")
    else None
  }

  /** Each failing method has its own message, distinct from the fixed ones. */
  lemma FailureMessagesDistinct(m1: string, m2: string)
    requires FailureMessage(m1).Some? && FailureMessage(m2).Some?
    ensures FailureMessage(m1) == FailureMessage(m2) ==> m1 == m2
    ensures m1 in KnownMethods
    ensures FailureMessage(m1).value !in {BadRequestMessage, UnknownMethodMessage, InternalErrorMessage}
  {
  }

  /** The parameters each handler dereferences without checking. */
  predicate HasRequiredParams(m: string, p: Params)
  {
    && (m == MethodAddMagnet ==> "magnet_uri" in p && "save_dir" in p)
    && (m == MethodAddTorrentFile ==> "torrent_path" in p && "save_dir" in p)
    && (m == MethodSeedFolder ==> "folder" in p && "torrent_out_path" in p)
    && (m == MethodPause || m == MethodResume || m == MethodStatus ==> "infohash_hex" in p)
    && (m == MethodRemove ==> "infohash_hex" in p && "remove_files" in p)
    && (m == MethodResumeAll ==> "torrents_dir" in p && "data_dir" in p)
  }

  // ---------------------------------------------------------------------------
  // bt_state_to_string and the status result object

  const StateNames: seq<string> := ["unknown", "downloading", "seeding", "paused", "finished", "error"]

  /** `bt_state_to_string`: the five named states by value, anything else "unknown". */
  function StateName(n: int): (r: string)
    ensures 1 <= n <= 5 ==> r == StateNames[n]
    ensures !(1 <= n <= 5) ==> r == "unknown"
  {
    if n == 1 then "downloading"
    else if n == 2 then "seeding"
    else if n == 3 then "paused"
    else if n == 4 then "finished"
    else if n == 5 then "error"
    else "unknown"
  }

  /** Reading a state name back. */
  function StateFromName(name: string): Option<BtState>
  {
    if name == "unknown" then Some(Unknown)
    else if name == "downloading" then Some(Downloading)
    else if name == "seeding" then Some(Seeding)
    else if name == "paused" then Some(Paused)
    else if name == "finished" then Some(Finished)
    else if name == "error" then Some(Error)
    else None
  }

  /** The name of every state reads back as that state, and a value outside
      the enumeration reads back as UNKNOWN. */
  lemma StateNameRoundTrip(n: int)
    ensures StateFromName(StateName(n)) == Some(if 1 <= n <= 5 then FromOrdinal(n).value else Unknown)
  {
  }

  /** Two values have the same name exactly when both are outside 1..5 or they are equal. */
  lemma StateNameInjective(n: int, m: int)
    ensures StateName(n) == StateName(m) <==> n == m || (!(1 <= n <= 5) && !(1 <= m <= 5))
  {
    StateNameRoundTrip(n);
    StateNameRoundTrip(m);
    if StateName(n) == StateName(m) && 1 <= n <= 5 {
      assert FromOrdinal(n) == FromOrdinal(m);
    }
  }

  /** The keys of the status result object, in the order they are added. */
  const StatusKeys: seq<string> := ["state", "progress", "download_rate", "upload_rate", "total_downloaded",
    "total_uploaded", "num_peers", "num_seeds", "num_leechers", "is_seeding", "has_metadata", "error_code",
    "error_msg"]

  /** `bt_status_to_result_json`: one member per record field, numbers as
      JSON numbers and `error_msg` as the C string in the buffer. */
  function StatusFields(st: BtTorrentStatus): (r: seq<(string, JsonValue)>)
    ensures |r| == |StatusKeys| && forall i :: 0 <= i < |r| ==> r[i].0 == StatusKeys[i]
  {
    [("state", JString(StateName(Ordinal(st.state)))),
     ("progress", JNumber(st.progress)),
     ("download_rate", JNumber(st.downloadRate as real)),
     ("upload_rate", JNumber(st.uploadRate as real)),
     ("total_downloaded", JNumber(st.totalDownloaded as real)),
     ("total_uploaded", JNumber(st.totalUploaded as real)),
     ("num_peers", JNumber(st.numPeers as real)),
     ("num_seeds", JNumber(st.numSeeds as real)),
     ("num_leechers", JNumber(st.numLeechers as real)),
     ("is_seeding", JNumber(st.isSeeding as real)),
     ("has_metadata", JNumber(st.hasMetadata as real)),
     ("error_code", JNumber(st.errorCode as real)),
     ("error_msg", JString(CString(st.errorMsg)))]
  }

  /** An integral JSON number. */
  function AsInt(v: JsonValue): Option<int>
  {
    if v.JNumber? && v.r.Floor as real == v.r then Some(v.r.Floor) else None
  }

  /** Reading a status record back from the result object's members. */
  function StatusFromFields(f: seq<(string, JsonValue)>): Option<BtTorrentStatus>
  {
    if |f| != |StatusKeys| || exists i :: 0 <= i < |f| && f[i].0 != StatusKeys[i] then None
    else if !f[0].1.JString? || StateFromName(f[0].1.s).None? || !f[1].1.JNumber? || !f[12].1.JString? then None
    else if exists i :: 2 <= i < 12 && AsInt(f[i].1).None? then None
    else Some(BtTorrentStatus(StateFromName(f[0].1.s).value, f[1].1.r,
      AsInt(f[2].1).value, AsInt(f[3].1).value, AsInt(f[4].1).value, AsInt(f[5].1).value,
      AsInt(f[6].1).value, AsInt(f[7].1).value, AsInt(f[8].1).value, AsInt(f[9].1).value,
      AsInt(f[10].1).value, AsInt(f[11].1).value, f[12].1.s))
  }

  /** The status object loses nothing: every record whose message buffer is
      a proper C string is recovered from it. */
  lemma StatusFieldsRoundTrip(st: BtTorrentStatus)
    requires NUL !in st.errorMsg
    ensures StatusFromFields(StatusFields(st)) == Some(st)
  {
    var f := StatusFields(st);
    StateNameRoundTrip(Ordinal(st.state));
    OrdinalRoundTrip(st.state, 0);
    assert StateFromName(f[0].1.s) == Some(st.state);
    assert CString(st.errorMsg) == st.errorMsg by {
      CStringWhole(st.errorMsg);
    }
    forall i | 2 <= i < 12
      ensures AsInt(f[i].1).Some?
    {
    }
  }

  /** A buffer without NUL holds itself as its C string. */
  lemma {:induction false} CStringWhole(s: string)
    requires NUL !in s
    ensures CString(s) == s
  {
    if s != [] {
      assert s[0] != NUL;
      assert NUL !in s[1..];
      CStringWhole(s[1..]);
    }
  }
}
