/** The plain C types of the public API header src/bt_api.h. */
module BtTypes {
  import opened Base

  /** `BtState`; the C enumerators are numbered by `Ordinal`. */
  datatype BtState = Unknown | Downloading | Seeding | Paused | Finished | Error

  /** The integer value of each enumerator (BT_STATE_UNKNOWN = 0 ... BT_STATE_ERROR = 5). */
  function Ordinal(s: BtState): (n: nat)
    ensures n < 6
    ensures s == Unknown <==> n == 0
  {
    match s
    case Unknown => 0
    case Downloading => 1
    case Seeding => 2
    case Paused => 3
    case Finished => 4
    case Error => 5
  }

  /** The enumerator with a given value, if there is one. */
  function FromOrdinal(n: int): Option<BtState>
  {
    if n == 0 then Some(Unknown)
    else if n == 1 then Some(Downloading)
    else if n == 2 then Some(Seeding)
    else if n == 3 then Some(Paused)
    else if n == 4 then Some(Finished)
    else if n == 5 then Some(Error)
    else None
  }

  /** Distinct enumerators have distinct values, and the values are exactly 0..5. */
  lemma OrdinalRoundTrip(s: BtState, n: int)
    ensures FromOrdinal(Ordinal(s)) == Some(s)
    ensures FromOrdinal(n).Some? <==> 0 <= n < 6
    ensures FromOrdinal(n).Some? ==> Ordinal(FromOrdinal(n).value) == n
  {
  }

  /** Size of the fixed `error_msg` buffer, terminator included. */
  const ErrorMsgCapacity: nat := 128

  /** `BtTorrentStatus`; the C `int`/`long` fields are unbounded integers here and
      `progress` is a real number (documented as lying in 0.0 .. 1.0). */
  datatype BtTorrentStatus = BtTorrentStatus(
    state: BtState,
    progress: real,
    downloadRate: int,
    uploadRate: int,
    totalDownloaded: int,
    totalUploaded: int,
    numPeers: int,
    numSeeds: int,
    numLeechers: int,
    isSeeding: int,
    hasMetadata: int,
    errorCode: int,
    errorMsg: string)

  /** The record after `memset(.., 0, ..)`: every number zero, the state
      BT_STATE_UNKNOWN (value 0) and the message the empty C string. */
  function ZeroStatus(): (z: BtTorrentStatus)
    ensures Ordinal(z.state) == 0 && z.progress == 0.0 && z.errorMsg == []
  {
    BtTorrentStatus(Unknown, 0.0, 0, 0, 0, 0, 0, 0, 0, 0, 0, 0, [])
  }

  /** Size of the infohash out-buffer the API demands: 40 hex characters plus NUL. */
  const InfohashBufferMin: nat := 41
}
