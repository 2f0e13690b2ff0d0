/** `BtConfig` (src/bt_core.hpp) and `BtCore::loadConfig` (src/bt_core.cpp):
    a `key = value` file read line by line over built-in defaults; and the
    session settings `BtCore::threadFunc` derives from a configuration. */
module Config {
  import opened Base

  datatype BtConfig = BtConfig(
    enableBt: bool,
    enableDht: bool,
    listenStart: int,
    listenEnd: int,
    uploadLimit: int,     // bytes per second, 0 = unlimited
    downloadLimit: int,   // bytes per second, 0 = unlimited
    dhtRouters: seq<string>)

  /** `BtConfig{}`: the member initialisers. */
  const DefaultConfig: BtConfig := BtConfig(true, true, 6881, 6891, 0, 0, [])

  /** The three bootstrap nodes used whenever no `dht_router` line supplies one. */
  const DefaultRouters: seq<string> := OnDhtPort(BootstrapHosts)
  const BootstrapHosts: seq<string> := ["router.bittorrent.com", "router.utorrent.com", "dht.transmissionbt.com"]

  /** Each host written as `host:6881`. */
  function OnDhtPort(hosts: seq<string>): (r: seq<string>)
    ensures |r| == |hosts|
  {
    seq(|hosts|, i requires 0 <= i < |hosts| => hosts[i] + ":6881")
  }

  /** The configuration used when there is no file to read. */
  const FallbackConfig: BtConfig := DefaultConfig.(dhtRouters := DefaultRouters)

  /** The files the process can open, each given as the lines `std::getline` yields. */
  type FileSystem = map<string, seq<string>>

  /** The characters the trimming lambda strips. */
  predicate IsSpace(c: char)
  {
    c == ' ' || c == '\t' || c == '\r' || c == '\n'
  }

  predicate Trimmed(s: string)
  {
    s == [] || (!IsSpace(s[0]) && !IsSpace(s[|s| - 1]))
  }

  /** Drop the leading run of spaces (`find_first_not_of`). */
  function TrimLeft(s: string): (r: string)
    ensures |r| <= |s|
    ensures r == [] || !IsSpace(r[0])
  {
    if s != [] && IsSpace(s[0]) then TrimLeft(s[1..]) else s
  }

  /** What `TrimLeft` drops is a run of spaces, and it keeps the rest. */
  lemma {:induction false} TrimLeftDrops(s: string)
    ensures var r := TrimLeft(s);
      r == s[|s| - |r|..] && forall j :: 0 <= j < |s| - |r| ==> IsSpace(s[j])
  {
    if s != [] && IsSpace(s[0]) {
      var r := TrimLeft(s[1..]);
      TrimLeftDrops(s[1..]);
      assert s[1..][|s| - 1 - |r|..] == s[|s| - |r|..];
    }
  }

  /** Drop the trailing run of spaces (`find_last_not_of`). */
  function TrimRight(s: string): (r: string)
    ensures |r| <= |s|
    ensures r == [] || !IsSpace(r[|r| - 1])
  {
    if s != [] && IsSpace(s[|s| - 1]) then TrimRight(s[..|s| - 1]) else s
  }

  /** What `TrimRight` drops is a run of spaces, and it keeps the rest. */
  lemma {:induction false} TrimRightDrops(s: string)
    ensures var r := TrimRight(s);
      r == s[..|r|] && forall j :: |r| <= j < |s| ==> IsSpace(s[j])
  {
    if s != [] && IsSpace(s[|s| - 1]) {
      var r := TrimRight(s[..|s| - 1]);
      TrimRightDrops(s[..|s| - 1]);
      assert s[..|s| - 1][..|r|] == s[..|r|];
    }
  }

  /** The trimming lambda: the text between the first and the last non-space
      character, or the empty string when there is none. */
  function Trim(s: string): (r: string)
    ensures Trimmed(r) && |r| <= |s|
  {
    var l := TrimLeft(s);
    TrimRightDrops(l);
    TrimRight(l)
  }

  /** Trimming removes only spaces. */
  lemma TrimKeeps(s: string, c: char)
    requires !IsSpace(c)
    ensures c in s <==> c in Trim(s)
  {
    TrimLeftKeeps(s, c);
    TrimRightKeeps(TrimLeft(s), c);
  }

  lemma TrimLeftKeeps(s: string, c: char)
    requires !IsSpace(c)
    ensures c in s <==> c in TrimLeft(s)
  {
    var l := TrimLeft(s);
    TrimLeftDrops(s);
    var d := |s| - |l|;
    if c in s {
      var j :| 0 <= j < |s| && s[j] == c;
      assert !IsSpace(s[j]);
      assert d <= j;
      assert l[j - d] == s[d..][j - d];
    }
    if c in l {
      var j :| 0 <= j < |l| && l[j] == c;
      assert s[j + d] == c;
    }
  }

  lemma TrimRightKeeps(s: string, c: char)
    requires !IsSpace(c)
    ensures c in s <==> c in TrimRight(s)
  {
    var r := TrimRight(s);
    TrimRightDrops(s);
    if c in s {
      var j :| 0 <= j < |s| && s[j] == c;
      assert j < |r| && r[j] == c;
    }
    if c in r {
      var j :| 0 <= j < |r| && r[j] == c;
      assert s[j] == c;
    }
  }

  /** Cut the line at its first `#`. */
  function StripComment(line: string): (r: string)
    ensures '#' !in r
    ensures |r| <= |line| && r == line[..|r|]
    ensures |r| < |line| <==> '#' in line
  {
    match FindFirst(line, '#')
    case None => line
    case Some(p) => line[..p]
  }

  /** One line of the file as a `(key, value)` pair, or `None` for a line
      that is blank, a comment, or has no `=` (all of which are skipped):
      cut at `#`, trim, split at the first `=`, trim both sides. */
  function ParseLine(line: string): Option<(string, string)>
  {
    var t := Trim(StripComment(line));
    if t == [] then None
    else
      match FindFirst(t, '=')
      case None => None
      case Some(e) => Some((Trim(t[..e]), Trim(t[e + 1..])))
  }

  /** A line is skipped exactly when no `=` precedes its comment. */
  lemma ParseLineSkips(line: string)
    ensures ParseLine(line).None? <==> '=' !in StripComment(line)
  {
    var u := StripComment(line);
    TrimKeeps(u, '=');
  }

  /** A line that is kept has a trimmed key free of `=` and `#` and a trimmed value free of `#`. */
  lemma ParseLineShape(line: string)
    ensures ParseLine(line).Some? ==> EntryShape(ParseLine(line).value)
  {
    var t := Trim(StripComment(line));
    if ParseLine(line).Some? {
      var e := KeptLineSplits(line);
      assert '#' !in t by { TrimKeeps(StripComment(line), '#'); }
      SplitShape(t, e);
    }
  }

  /** What a kept line is made of. */
  predicate EntryShape(kv: (string, string))
  {
    Trimmed(kv.0) && Trimmed(kv.1) && '=' !in kv.0 && '#' !in kv.0 && '#' !in kv.1
  }

  /** A kept line is split at the first `=` of its trimmed, comment-free text. */
  lemma KeptLineSplits(line: string) returns (e: nat)
    requires ParseLine(line).Some?
    ensures var t := Trim(StripComment(line));
      e < |t| && '=' !in t[..e] && ParseLine(line).value == (Trim(t[..e]), Trim(t[e + 1..]))
  {
    e := FindFirst(Trim(StripComment(line)), '=').value;
  }

  /** Splitting a comment-free line at its first `=`. */
  lemma SplitShape(t: string, e: nat)
    requires '#' !in t && e < |t| && '=' !in t[..e]
    ensures EntryShape((Trim(t[..e]), Trim(t[e + 1..])))
  {
    var before, after := t[..e], t[e + 1..];
    assert '#' !in before by {
      assert forall j :: 0 <= j < |before| ==> before[j] == t[j];
    }
    assert '#' !in after by {
      assert forall j :: 0 <= j < |after| ==> after[j] == t[e + 1 + j];
    }
    TrimKeeps(before, '=');
    TrimKeeps(before, '#');
    TrimKeeps(after, '#');
  }

  predicate IsDigit(c: char)
  {
    '0' <= c <= '9'
  }

  predicate AllDigits(s: string)
  {
    forall i :: 0 <= i < |s| ==> IsDigit(s[i])
  }

  /** Text `std::stoi` converts completely: an optional sign and at least one digit. */
  predicate IsNumeral(s: string)
  {
    (|s| > 0 && AllDigits(s)) ||
    (|s| > 1 && (s[0] == '-' || s[0] == '+') && AllDigits(s[1..]))
  }

  function DigitsValue(s: string): nat
    requires AllDigits(s)
  {
    if s == [] then 0 else DigitsValue(s[..|s| - 1]) * 10 + (s[|s| - 1] as int - '0' as int)
  }

  /** The value a numeral denotes. */
  function NumeralValue(s: string): int
    requires IsNumeral(s)
  {
    if s[0] == '-' then -(DigitsValue(s[1..]) as int)
    else if s[0] == '+' then DigitsValue(s[1..])
    else DigitsValue(s)
  }

  /** `isspace` in the C locale. */
  predicate IsCSpace(c: char)
  {
    c == ' ' || c == '\t' || c == '\n' || c == '\r' || c as int == 0x0B || c as int == 0x0C  // VT, FF
  }

  /** The text after the leading white space that `strtol` skips. */
  function SkipSpace(s: string): (r: string)
    ensures |r| <= |s|
  {
    if s != [] && IsCSpace(s[0]) then SkipSpace(s[1..]) else s
  }

  /** How many digits the text starts with. */
  function DigitRun(s: string): (n: nat)
    ensures n <= |s|
  {
    if s != [] && IsDigit(s[0]) then DigitRun(s[1..]) + 1 else 0
  }

  /** The run is made of digits and stops at the first non-digit. */
  lemma {:induction false} DigitRunDigits(s: string)
    ensures AllDigits(s[..DigitRun(s)])
    ensures DigitRun(s) < |s| ==> !IsDigit(s[DigitRun(s)])
  {
    if s != [] && IsDigit(s[0]) {
      DigitRunDigits(s[1..]);
      assert s[..DigitRun(s)] == [s[0]] + s[1..][..DigitRun(s[1..])];
    }
  }

  /** The range of a 32-bit `int`. */
  const IntMin: int := -0x8000_0000
  const IntMax: int := 0x7FFF_FFFF

  /** `std::stoi`: after leading white space, an optional sign and the longest
      run of digits that follows it are converted, and anything after them is
      ignored. `None` is the exception it throws when no digit follows or the
      value does not fit an `int`. */
  function Stoi(s: string): (r: Option<int>)
    ensures r.Some? ==> IntMin <= r.value <= IntMax
  {
    var t := SkipSpace(s);
    var signed := t != [] && (t[0] == '-' || t[0] == '+');
    var digits := if signed then t[1..] else t;
    var n := DigitRun(digits);
    DigitRunDigits(digits);
    if n == 0 then None
    else
      var v := if signed && t[0] == '-' then -(DigitsValue(digits[..n]) as int) else DigitsValue(digits[..n]);
      if IntMin <= v <= IntMax then Some(v) else None
  }

  /** A run of digits followed by a non-digit is read up to that character. */
  lemma {:induction false} DigitRunOf(d: string, x: string)
    requires AllDigits(d) && (x == [] || !IsDigit(x[0]))
    ensures DigitRun(d + x) == |d|
  {
    if d != [] {
      assert (d + x)[1..] == d[1..] + x;
      DigitRunOf(d[1..], x);
    }
  }

  /** A numeral followed by anything that does not start with a digit is
      read as the numeral's value, or throws when that does not fit an `int`. */
  lemma StoiNumeral(s: string, x: string)
    requires IsNumeral(s) && (x == [] || !IsDigit(x[0]))
    ensures Stoi(s + x) == if IntMin <= NumeralValue(s) <= IntMax then Some(NumeralValue(s)) else None
  {
    var t := s + x;
    assert t[0] == s[0] && !IsCSpace(t[0]);
    assert SkipSpace(t) == t;
    if s[0] == '-' || s[0] == '+' {
      var d := s[1..];
      assert t[1..] == d + x;
      DigitRunOf(d, x);
      assert (d + x)[..|d|] == d;
    } else {
      DigitRunOf(s, x);
      assert t[..|s|] == s;
    }
  }

  /** A value with a unit after its digits keeps the number, and one without a
      leading number throws. */
  lemma StoiExamples()
    ensures Stoi("100kb") == Some(100)
    ensures Stoi("kb") == None
  {
    HundredNumeral();
    assert "100kb" == "100" + "kb";
    StoiNumeral("100", "kb");
    var k := "kb";
    assert !IsCSpace(k[0]) && !IsDigit(k[0]);
    assert SkipSpace(k) == k;
  }

  lemma HundredNumeral()
    ensures IsNumeral("100") && NumeralValue("100") == 100
  {
    var h := "100";
    assert AllDigits(h);
    assert "100"[..2] == "10" && "10"[..1] == "1" && "1"[..0] == "";
    assert DigitsValue("100") == 100;
  }

  /** The switches `enable_bt` and `enable_dht` are on only for these three spellings. */
  predicate IsTruthy(v: string)
  {
    v == "1" || v == "true" || v == "on"
  }

  /** The keys the parser acts on; every other key is ignored. */
  datatype Key = EnableBt | EnableDht | ListenStart | ListenEnd | UploadLimitKb | DownloadLimitKb | DhtRouter | Ignored

  function KeyOf(key: string): Key
  {
    if key == "enable_bt" then EnableBt
    else if key == "enable_dht" then EnableDht
    else if key == "listen_start" then ListenStart
    else if key == "listen_end" then ListenEnd
    else if key == "upload_limit_kb" then UploadLimitKb
    else if key == "download_limit_kb" then DownloadLimitKb
    else if key == "dht_router" then DhtRouter
    else Ignored
  }

  predicate IsNumericKey(k: Key)
  {
    k == ListenStart || k == ListenEnd || k == UploadLimitKb || k == DownloadLimitKb
  }

  /** `host:port`: `std::stoi` accepts the text after the first colon, if there is a colon. */
  predicate RouterNumeric(s: string)
  {
    match FindFirst(s, ':')
    case None => true
    case Some(p) => Stoi(s[p + 1..]).Some?
  }

  /** One line after parsing: a `(key, value)` pair, or `None` when skipped. */
  type Entry = Option<(string, string)>

  /** Every line of a file, parsed. */
  function Entries(lines: seq<string>): (es: seq<Entry>)
    ensures |es| == |lines|
    ensures forall i :: 0 <= i < |lines| ==> es[i] == ParseLine(lines[i])
  {
    seq(|lines|, i requires 0 <= i < |lines| => ParseLine(lines[i]))
  }

  /** An entry on which `loadConfig` does not throw: `std::stoi` accepts the
      value of a numeric key. The model does not follow the exception. */
  predicate EntryNumeric(e: Entry)
  {
    match e
    case None => true
    case Some((key, val)) => IsNumericKey(KeyOf(key)) ==> Stoi(val).Some?
  }

  predicate AllNumeric(es: seq<Entry>)
  {
    forall i :: 0 <= i < |es| ==> EntryNumeric(es[i])
  }

  /** The effect of one line on the configuration being built. */
  function ApplyEntry(c: BtConfig, e: Entry): BtConfig
    requires EntryNumeric(e)
  {
    match e
    case None => c
    case Some((key, val)) =>
      match KeyOf(key)
      case EnableBt => c.(enableBt := IsTruthy(val))
      case EnableDht => c.(enableDht := IsTruthy(val))
      case ListenStart => c.(listenStart := Stoi(val).value)
      case ListenEnd => c.(listenEnd := Stoi(val).value)
      case UploadLimitKb => c.(uploadLimit := Stoi(val).value * 1024)
      case DownloadLimitKb => c.(downloadLimit := Stoi(val).value * 1024)
      case DhtRouter => c.(dhtRouters := c.dhtRouters + [val])
      case Ignored => c
  }

  /** The lines applied in file order. */
  function ApplyEntries(c: BtConfig, es: seq<Entry>): BtConfig
    requires AllNumeric(es)
  {
    if es == [] then c
    else ApplyEntry(ApplyEntries(c, es[..|es| - 1]), es[|es| - 1])
  }

  /** The configuration a readable file yields. */
  function ParseConfig(lines: seq<string>): BtConfig
    requires AllNumeric(Entries(lines))
  {
    var c := ApplyEntries(DefaultConfig, Entries(lines));
    if c.dhtRouters == [] then c.(dhtRouters := DefaultRouters) else c
  }

  /** What `loadConfig` can read without `std::stoi` throwing. */
  predicate ConfigReadable(path: string, fs: FileSystem)
  {
    path == "" || path !in fs || AllNumeric(Entries(fs[path]))
  }

  /** The configuration `loadConfig(path, ..)` stores. */
  function LoadedConfig(path: string, fs: FileSystem): BtConfig
    requires ConfigReadable(path, fs)
  {
    if path == "" || path !in fs then FallbackConfig else ParseConfig(fs[path])
  }

  /** `loadConfig`: the defaults when there is no path or the file does not open;
      otherwise each line in turn, then the default routers if no line named one.
      It never fails. */
  method LoadConfig(path: string, fs: FileSystem) returns (ok: bool, cfg: BtConfig)
    requires ConfigReadable(path, fs)
    ensures ok
    ensures cfg == LoadedConfig(path, fs)
    ensures path == "" || path !in fs ==> cfg == FallbackConfig
  {
    if path == "" {
      return true, FallbackConfig;
    }
    if path !in fs {
      return true, FallbackConfig;
    }
    var lines := fs[path];
    ghost var es := Entries(lines);
    var c := DefaultConfig;
    var i := 0;
    while i < |lines|
      invariant 0 <= i <= |lines|
      invariant AllNumeric(es[..i])
      invariant c == ApplyEntries(DefaultConfig, es[..i])
    {
      ghost var before := c;
      var parsed := ParseLine(lines[i]);
      assert parsed == es[i] && EntryNumeric(parsed);
      if parsed.Some? {
        var (key, val) := parsed.value;
        c := ApplySetting(c, key, val);
      }
      assert c == ApplyEntry(before, es[i]);
      NextEntry(es, i);
      i := i + 1;
    }
    assert es[..i] == es;
    if c.dhtRouters == [] {
      c := c.(dhtRouters := DefaultRouters);
    }
    return true, c;
  }

  /** The body of the `getline` loop once a line has split into key and value. */
  method ApplySetting(c: BtConfig, key: string, val: string) returns (c': BtConfig)
    requires EntryNumeric(Some((key, val)))
    ensures c' == ApplyEntry(c, Some((key, val)))
  {
    c' := c;
    if key == "enable_bt" {
      c' := c'.(enableBt := IsTruthy(val));
    } else if key == "enable_dht" {
      c' := c'.(enableDht := IsTruthy(val));
    } else if key == "listen_start" {
      c' := c'.(listenStart := Stoi(val).value);
    } else if key == "listen_end" {
      c' := c'.(listenEnd := Stoi(val).value);
    } else if key == "upload_limit_kb" {
      c' := c'.(uploadLimit := Stoi(val).value * 1024);
    } else if key == "download_limit_kb" {
      c' := c'.(downloadLimit := Stoi(val).value * 1024);
    } else if key == "dht_router" {
      c' := c'.(dhtRouters := c'.dhtRouters + [val]);
    }
  }

  /** Applying one more line of a readable file. */
  lemma NextEntry(es: seq<Entry>, i: nat)
    requires AllNumeric(es) && i < |es|
    ensures AllNumeric(es[..i]) && AllNumeric(es[..i + 1])
    ensures ApplyEntries(DefaultConfig, es[..i + 1]) == ApplyEntry(ApplyEntries(DefaultConfig, es[..i]), es[i])
  {
    assert es[..i + 1][..i] == es[..i];
  }

  // ---------------------------------------------------------------------------
  // Reference definitions of what the file means, and the lemmas that the
  // line-by-line fold agrees with them.

  /** The value on the last line that sets `key`, if any line does. */
  function LastValue(es: seq<Entry>, key: Key): Option<string>
  {
    if es == [] then None
    else
      var e := es[|es| - 1];
      if e.Some? && KeyOf(e.value.0) == key then Some(e.value.1)
      else LastValue(es[..|es| - 1], key)
  }

  /** The values of the `dht_router` lines, in file order. */
  function RouterValues(es: seq<Entry>): seq<string>
  {
    if es == [] then []
    else
      var before := RouterValues(es[..|es| - 1]);
      var e := es[|es| - 1];
      if e.Some? && KeyOf(e.value.0) == DhtRouter then before + [e.value.1] else before
  }

  function SwitchOr(v: Option<string>, default: bool): bool
  {
    match v
    case None => default
    case Some(s) => IsTruthy(s)
  }

  function NumberOr(v: Option<string>, scale: int, default: int): int
  {
    if v.Some? && Stoi(v.value).Some? then Stoi(v.value).value * scale else default
  }

  /** A prefix of a readable file is readable. */
  lemma NumericPrefix(es: seq<Entry>)
    requires AllNumeric(es) && es != []
    ensures AllNumeric(es[..|es| - 1]) && EntryNumeric(es[|es| - 1])
  {
    var init := es[..|es| - 1];
    forall i | 0 <= i < |init| ensures EntryNumeric(init[i]) {
      assert init[i] == es[i];
    }
  }

  /** What the configuration `r` built from `c` by the lines `es` holds:
      each scalar key the value of its last line (`*_limit_kb` scaled by 1024),
      or its starting value; the `dht_router` lines appended in order. */
  predicate Describes(r: BtConfig, c: BtConfig, es: seq<Entry>)
  {
    && r.enableBt == SwitchOr(LastValue(es, EnableBt), c.enableBt)
    && r.enableDht == SwitchOr(LastValue(es, EnableDht), c.enableDht)
    && r.listenStart == NumberOr(LastValue(es, ListenStart), 1, c.listenStart)
    && r.listenEnd == NumberOr(LastValue(es, ListenEnd), 1, c.listenEnd)
    && r.uploadLimit == NumberOr(LastValue(es, UploadLimitKb), 1024, c.uploadLimit)
    && r.downloadLimit == NumberOr(LastValue(es, DownloadLimitKb), 1024, c.downloadLimit)
    && r.dhtRouters == c.dhtRouters + RouterValues(es)
  }

  /** Each scalar key takes the value of its last line, or keeps its starting
      value; `dht_router` lines append in order. */
  lemma {:induction false} ApplyEntriesMeaning(c: BtConfig, es: seq<Entry>)
    requires AllNumeric(es)
    ensures Describes(ApplyEntries(c, es), c, es)
  {
    if es != [] {
      var init := es[..|es| - 1];
      NumericPrefix(es);
      ApplyEntriesMeaning(c, init);
      ApplyLastMeaning(ApplyEntries(c, init), c, es);
    }
  }

  /** Applying the last line to what the earlier lines describe gives what all the lines describe. */
  lemma ApplyLastMeaning(prev: BtConfig, c: BtConfig, es: seq<Entry>)
    requires es != [] && EntryNumeric(es[|es| - 1])
    requires Describes(prev, c, es[..|es| - 1])
    ensures Describes(ApplyEntry(prev, es[|es| - 1]), c, es)
  {
    var init := es[..|es| - 1];
    match es[|es| - 1]
    case None =>
    case Some((key, val)) =>
      match KeyOf(key)
      case DhtRouter =>
        assert c.dhtRouters + RouterValues(es) == (c.dhtRouters + RouterValues(init)) + [val];
      case _ =>
  }

  /** A readable file: its last settings win, the default of a key it never
      sets stays, and the routers are its `dht_router` lines in order, or the
      three defaults when it has none. */
  lemma ParseConfigMeaning(lines: seq<string>)
    requires AllNumeric(Entries(lines))
    ensures var es := Entries(lines); var r := ParseConfig(lines);
      && r.enableBt == SwitchOr(LastValue(es, EnableBt), true)
      && r.enableDht == SwitchOr(LastValue(es, EnableDht), true)
      && r.listenStart == NumberOr(LastValue(es, ListenStart), 1, 6881)
      && r.listenEnd == NumberOr(LastValue(es, ListenEnd), 1, 6891)
      && r.uploadLimit == NumberOr(LastValue(es, UploadLimitKb), 1024, 0)
      && r.downloadLimit == NumberOr(LastValue(es, DownloadLimitKb), 1024, 0)
      && r.dhtRouters == (if RouterValues(es) == [] then DefaultRouters else RouterValues(es))
  {
    ApplyEntriesMeaning(DefaultConfig, Entries(lines));
  }

  // ---------------------------------------------------------------------------
  // Session start-up (`threadFunc` before its loop).

  datatype Endpoint = Endpoint(host: string, port: int)

  /** `host:port` split at the first colon; an entry with no colon is skipped. */
  function SplitRouter(s: string): (r: Option<Endpoint>)
    requires RouterNumeric(s)
    ensures r.None? <==> ':' !in s
  {
    match FindFirst(s, ':')
    case None => None
    case Some(p) => Some(Endpoint(s[..p], Stoi(s[p + 1..]).value))
  }

  /** A split entry is its colon-free host, the colon, and text whose number is its port. */
  lemma SplitRouterParts(s: string)
    requires RouterNumeric(s) && SplitRouter(s).Some?
    ensures var e := SplitRouter(s).value; var n := |e.host|;
      n < |s| && s[..n] == e.host && s[n] == ':' && ':' !in e.host &&
      Stoi(s[n + 1..]) == Some(e.port)
  {
  }

  predicate RoutersNumeric(routers: seq<string>)
  {
    forall i :: 0 <= i < |routers| ==> RouterNumeric(routers[i])
  }

  /** The DHT bootstrap nodes registered, in order. */
  function RouterEndpoints(routers: seq<string>): seq<Endpoint>
    requires RoutersNumeric(routers)
  {
    if routers == [] then []
    else
      var before := RouterEndpoints(routers[..|routers| - 1]);
      match SplitRouter(routers[|routers| - 1])
      case None => before
      case Some(e) => before + [e]
  }

  /** The positions of the entries that hold a colon. */
  function ColonEntries(routers: seq<string>): set<int>
  {
    set i | 0 <= i < |routers| && ':' in routers[i]
  }

  /** Every `host:port` entry yields one node, and only those. */
  lemma {:induction false} RouterEndpointsCount(routers: seq<string>)
    requires RoutersNumeric(routers)
    ensures |RouterEndpoints(routers)| == |ColonEntries(routers)|
  {
    if routers != [] {
      var init := routers[..|routers| - 1];
      assert RoutersNumeric(init) by {
        forall i | 0 <= i < |init| ensures RouterNumeric(init[i]) { assert init[i] == routers[i]; }
      }
      RouterEndpointsCount(init);
      ColonEntriesSnoc(routers);
    }
  }

  /** One more entry adds its own position exactly when it holds a colon. */
  lemma ColonEntriesSnoc(routers: seq<string>)
    requires routers != []
    ensures var n := |routers| - 1;
      ColonEntries(routers) == ColonEntries(routers[..n]) + (if ':' in routers[n] then {n} else {})
  {
    var n := |routers| - 1;
    assert ColonEntries(routers[..n]) == set i | 0 <= i < n && ':' in routers[i];
  }

  /** The settings pack the worker builds its session from. */
  datatype SessionSettings = SessionSettings(
    listenPort: int,                  // "0.0.0.0:<port>,[::]:<port>"
    maxRetryPortBind: int,
    uploadRateLimit: Option<int>,     // set only when the configured limit is positive
    downloadRateLimit: Option<int>,
    dhtEnabled: bool,
    dhtRouters: seq<Endpoint>)        // registered, and DHT started, only when enabled

  /** The worker's router loop runs only with DHT on, and then calls
      `std::stoi` on the port of every `host:port` entry. */
  predicate SessionStarts(cfg: BtConfig)
  {
    cfg.enableDht ==> RoutersNumeric(cfg.dhtRouters)
  }

  function SessionFor(cfg: BtConfig): (s: SessionSettings)
    requires SessionStarts(cfg)
    ensures s.listenPort == cfg.listenStart
    ensures s.maxRetryPortBind == cfg.listenEnd - cfg.listenStart
    ensures s.uploadRateLimit.Some? <==> cfg.uploadLimit > 0
    ensures s.uploadRateLimit.Some? ==> s.uploadRateLimit.value == cfg.uploadLimit
    ensures s.downloadRateLimit.Some? <==> cfg.downloadLimit > 0
    ensures s.downloadRateLimit.Some? ==> s.downloadRateLimit.value == cfg.downloadLimit
    ensures s.dhtEnabled == cfg.enableDht
    ensures !cfg.enableDht ==> s.dhtRouters == []
  {
    SessionSettings(
      cfg.listenStart,
      cfg.listenEnd - cfg.listenStart,
      if cfg.uploadLimit > 0 then Some(cfg.uploadLimit) else None,
      if cfg.downloadLimit > 0 then Some(cfg.downloadLimit) else None,
      cfg.enableDht,
      if cfg.enableDht then RouterEndpoints(cfg.dhtRouters) else [])
  }

  /** The set-up half of `threadFunc`: fill the settings, then register each
      `host:port` router in order when DHT is on. */
  method StartSession(cfg: BtConfig) returns (s: SessionSettings)
    requires SessionStarts(cfg)
    ensures s == SessionFor(cfg)
  {
    s := SessionSettings(cfg.listenStart, cfg.listenEnd - cfg.listenStart, None, None, cfg.enableDht, []);
    if cfg.uploadLimit > 0 {
      s := s.(uploadRateLimit := Some(cfg.uploadLimit));
    }
    if cfg.downloadLimit > 0 {
      s := s.(downloadRateLimit := Some(cfg.downloadLimit));
    }
    if cfg.enableDht {
      var routers := cfg.dhtRouters;
      var added: seq<Endpoint> := [];
      var i := 0;
      while i < |routers|
        invariant 0 <= i <= |routers|
        invariant RoutersNumeric(routers[..i])
        invariant added == RouterEndpoints(routers[..i])
      {
        assert routers[..i + 1][..i] == routers[..i];
        var pos := FindFirst(routers[i], ':');
        if pos.Some? {
          var host := routers[i][..pos.value];
          var port := Stoi(routers[i][pos.value + 1..]).value;
          added := added + [Endpoint(host, port)];
        }
        i := i + 1;
      }
      assert routers[..i] == routers;
      s := s.(dhtRouters := added);
    }
  }

  /** A `host:6881` entry whose host has no colon splits into that host and port 6881. */
  lemma SplitDefaultRouter(host: string)
    requires ':' !in host
    ensures RouterNumeric(host + ":6881")
    ensures SplitRouter(host + ":6881") == Some(Endpoint(host, 6881))
  {
    var s := host + ":6881";
    var n := |host|;
    FirstColonAfterHost(host, ":6881");
    assert s[n + 1..] == "6881";
    DhtPortNumeral();
  }

  /** The first colon of `host + rest` is the one that starts `rest`. */
  lemma FirstColonAfterHost(host: string, rest: string)
    requires ':' !in host && rest != [] && rest[0] == ':'
    ensures FindFirst(host + rest, ':') == Some(|host|)
  {
    var s := host + rest;
    assert s[..|host|] == host && s[|host|] == ':';
  }

  /** `std::stoi("6881")` is 6881. */
  lemma DhtPortNumeral()
    ensures Stoi("6881") == Some(6881)
  {
    assert IsNumeral("6881");
    assert "6881"[..3] == "688" && "688"[..2] == "68" && "68"[..1] == "6" && "6"[..0] == "";
    assert NumeralValue("6881") == 6881;
    assert "6881" + [] == "6881";
    StoiNumeral("6881", []);
  }

  /** Appending one numeric router entry extends the endpoint list by its split, if any. */
  lemma RouterEndpointsSnoc(routers: seq<string>, x: string, e: Endpoint)
    requires RoutersNumeric(routers) && RouterNumeric(x)
    requires SplitRouter(x) == Some(e)
    ensures RoutersNumeric(routers + [x])
    ensures RouterEndpoints(routers + [x]) == RouterEndpoints(routers) + [e]
  {
    var t := routers + [x];
    assert t[..|t| - 1] == routers;
    assert t[|t| - 1] == x;
  }

  /** Appending `host:6881` for a colon-free host adds exactly the endpoint `(host, 6881)`. */
  lemma AppendDhtRouter(routers: seq<string>, host: string)
    requires RoutersNumeric(routers) && ':' !in host
    ensures RoutersNumeric(routers + [host + ":6881"])
    ensures RouterEndpoints(routers + [host + ":6881"]) == RouterEndpoints(routers) + [Endpoint(host, 6881)]
  {
    SplitDefaultRouter(host);
    RouterEndpointsSnoc(routers, host + ":6881", Endpoint(host, 6881));
  }

  /** Each host paired with port 6881. */
  function PortEndpoints(hosts: seq<string>): (r: seq<Endpoint>)
    ensures |r| == |hosts|
  {
    seq(|hosts|, i requires 0 <= i < |hosts| => Endpoint(hosts[i], 6881))
  }

  /** Both per-host lists grow by the last host's entry. */
  lemma HostsSnoc(hosts: seq<string>)
    requires hosts != []
    ensures var n := |hosts| - 1;
      && OnDhtPort(hosts) == OnDhtPort(hosts[..n]) + [hosts[n] + ":6881"]
      && PortEndpoints(hosts) == PortEndpoints(hosts[..n]) + [Endpoint(hosts[n], 6881)]
  {
  }

  /** Colon-free hosts written with port 6881 split back into exactly those endpoints. */
  lemma {:induction false} RoutersOnDhtPort(hosts: seq<string>)
    requires forall i :: 0 <= i < |hosts| ==> ':' !in hosts[i]
    ensures RoutersNumeric(OnDhtPort(hosts))
    ensures RouterEndpoints(OnDhtPort(hosts)) == PortEndpoints(hosts)
  {
    if hosts == [] {
      assert OnDhtPort(hosts) == [];
    } else {
      var n := |hosts| - 1;
      var init := hosts[..n];
      var before := OnDhtPort(init);
      assert RoutersNumeric(before) && RouterEndpoints(before) == PortEndpoints(init) by {
        RoutersOnDhtPort(init);
      }
      HostsSnoc(hosts);
      AppendDhtRouter(before, hosts[n]);
    }
  }

  /** The three built-in nodes split into their hosts, each on port 6881. */
  lemma DefaultRoutersSplit()
    ensures RoutersNumeric(DefaultRouters)
    ensures RouterEndpoints(DefaultRouters) == PortEndpoints(BootstrapHosts)
    ensures PortEndpoints(BootstrapHosts) ==
      [Endpoint(BootstrapHosts[0], 6881), Endpoint(BootstrapHosts[1], 6881), Endpoint(BootstrapHosts[2], 6881)]
  {
    BootstrapHostsPlain();
    RoutersOnDhtPort(BootstrapHosts);
    BootstrapEndpoints();
  }

  lemma BootstrapEndpoints()
    ensures PortEndpoints(BootstrapHosts) ==
      [Endpoint(BootstrapHosts[0], 6881), Endpoint(BootstrapHosts[1], 6881), Endpoint(BootstrapHosts[2], 6881)]
  {
  }

  /** No built-in host name holds a colon. */
  lemma BootstrapHostsPlain()
    ensures forall i :: 0 <= i < |BootstrapHosts| ==> ':' !in BootstrapHosts[i]
  {
    assert ':' !in BootstrapHosts[0];
    assert ':' !in BootstrapHosts[1];
    assert ':' !in BootstrapHosts[2];
  }

  /** What `BtCore::init` needs in order not to throw: `loadConfig` reads
      the file, and when BitTorrent is enabled the worker thread can split the
      routers it then registers. */
  predicate InitNeverThrows(path: string, fs: FileSystem)
  {
    ConfigReadable(path, fs) && (LoadedConfig(path, fs).enableBt ==> SessionStarts(LoadedConfig(path, fs)))
  }

  /** Without a config file nothing can throw. */
  lemma FallbackNeverThrows(path: string, fs: FileSystem)
    requires path == "" || path !in fs
    ensures InitNeverThrows(path, fs)
  {
    DefaultRoutersSplit();
  }

  /** With no readable file the session listens on 6881 with 10 retries, no
      rate limits, and DHT bootstrapped from the three default nodes on port 6881. */
  lemma FallbackSession()
    ensures SessionStarts(FallbackConfig) && RoutersNumeric(FallbackConfig.dhtRouters)
    ensures var s := SessionFor(FallbackConfig);
      s.listenPort == 6881 && s.maxRetryPortBind == 10 &&
      s.uploadRateLimit == None && s.downloadRateLimit == None && s.dhtEnabled &&
      s.dhtRouters == [Endpoint(BootstrapHosts[0], 6881), Endpoint(BootstrapHosts[1], 6881),
                       Endpoint(BootstrapHosts[2], 6881)]
  {
    DefaultRoutersSplit();
  }
}
