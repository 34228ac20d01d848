/**
 * The binlog_utils_udf plugin: three string UDFs that answer questions about
 * the binary logs from the GTIDs recorded in them.
 *
 * GTID sets are mathematical sets, a binary log is the sequence of its
 * events (position, kind, payload), and the server is a value holding the
 * binary log files, the active log and its end position, the log index and
 * the value of `gtid_executed`.
 */
module BinlogUtils {
  import opened Wrappers
  import opened UdfWrappers

  /**
   * A GTID as the server numbers it: the sidno its SID gets when entered into
   * the call's SID map (negative when it cannot be entered) and the
   * transaction number.
   */
  datatype Gtid = Gtid(sidno: int, gno: int)

  /** The event kinds the scans distinguish. */
  datatype EventBody =
    | PreviousGtids(gtids: set<Gtid>)  // PREVIOUS_GTIDS_LOG_EVENT
    | GtidLog(gtid: Gtid)              // GTID_LOG_EVENT
    | OtherEvent

  /** One step of the binlog iterator: an event with its end position, or a read error. */
  datatype Event = Event(logPos: nat, body: EventBody) | ReadError(message: string)

  /** A binary log file as the reader sees it: it cannot be opened, or its events. */
  datatype BinlogFile = Unreadable(error: string) | Readable(events: seq<Event>)

  /**
   * What the UDFs read from the server. `index` is None when the log index
   * cannot be read; `gtidExecuted` is None when its text does not parse.
   */
  datatype BinlogServer = BinlogServer(
    files: string -> BinlogFile,
    activeLog: string,
    binlogEndPos: nat,
    index: Option<seq<string>>,
    gtidExecuted: Option<set<Gtid>>,
    pluginInitialized: bool)

  /** std::numeric_limits<my_off_t>::max(). */
  const MaxOffset: nat := 0xFFFF_FFFF_FFFF_FFFF

  const NotInstalledMessage: string := "This function requires binlog_utils_udf plugin which is not installed."
  const MiddleOfIndexMessage: string :=
    "Encountered binary log without PREVIOUS_GTIDS_LOG_EVENT in the middle of log index"
  const InvalidGtidEventMessage: string := "Invalid GTID event encountered"

  function Runtime(message: string): Thrown
  {
    StdError(RuntimeError, message)
  }

  /** How far the scans read: to the end position of the active log, without limit in any other log. */
  function EndPos(srv: BinlogServer, name: string): (e: nat)
    ensures name != srv.activeLog ==> e == MaxOffset
  {
    if name == srv.activeLog then srv.binlogEndPos else MaxOffset
  }

  // ---------------------------------------------------------------------
  // The two event scans
  // ---------------------------------------------------------------------

  /**
   * The scan of find_previous_gtids_event: a read error ends it with the
   * error; a PREVIOUS_GTIDS event is returned; otherwise an event at or
   * past `endPos` ends it without a result. The kind is checked before the
   * position.
   */
  function PreviousGtidsIn(events: seq<Event>, endPos: nat): Result<Option<set<Gtid>>, string>
  {
    if events == [] then Ok(None)
    else match events[0]
      case ReadError(m) => Err(m)
      case Event(pos, body) =>
        if body.PreviousGtids? then Ok(Some(body.gtids))
        else if pos >= endPos then Ok(None)
        else PreviousGtidsIn(events[1..], endPos)
  }

  /**
   * The scan of find_last_gtid_event: remembers the latest GTID event and
   * stops after the first event at or past `endPos`.
   */
  function LastGtidIn(events: seq<Event>, endPos: nat, last: Option<Gtid>): Result<Option<Gtid>, string>
  {
    if events == [] then Ok(last)
    else match events[0]
      case ReadError(m) => Err(m)
      case Event(pos, body) =>
        var last' := if body.GtidLog? then Some(body.gtid) else last;
        if pos >= endPos then Ok(last') else LastGtidIn(events[1..], endPos, last')
  }

  predicate NoReadErrors(events: seq<Event>)
  {
    forall i :: 0 <= i < |events| ==> events[i].Event?
  }

  /** How many events a scan reads: up to and including the first at or past `endPos`. */
  function CutOff(events: seq<Event>, endPos: nat): (n: nat)
    requires NoReadErrors(events)
    ensures n <= |events|
    ensures forall i :: 0 <= i < n - 1 ==> events[i].logPos < endPos
    ensures n < |events| ==> n > 0 && events[n - 1].logPos >= endPos
  {
    if events == [] then 0
    else if events[0].logPos >= endPos then 1
    else 1 + CutOff(events[1..], endPos)
  }

  /** The first PREVIOUS_GTIDS event of `s`. */
  function FirstPreviousGtids(s: seq<Event>): (r: Option<set<Gtid>>)
    requires NoReadErrors(s)
    ensures r.Some? ==> exists i :: (0 <= i < |s| && s[i].body == PreviousGtids(r.value) &&
      forall j :: 0 <= j < i ==> !s[j].body.PreviousGtids?)
    ensures r.None? ==> forall i :: 0 <= i < |s| ==> !s[i].body.PreviousGtids?
  {
    if s == [] then None
    else if s[0].body.PreviousGtids? then Some(s[0].body.gtids)
    else
      var r := FirstPreviousGtids(s[1..]);
      assert forall i :: 1 <= i < |s| ==> s[i] == s[1..][i - 1];
      r
  }

  /** The last GTID event of `s`. */
  function LastGtidOf(s: seq<Event>): (r: Option<Gtid>)
    requires NoReadErrors(s)
    ensures r.Some? ==> exists i :: (0 <= i < |s| && s[i].body == GtidLog(r.value) &&
      forall j :: i < j < |s| ==> !s[j].body.GtidLog?)
    ensures r.None? ==> forall i :: 0 <= i < |s| ==> !s[i].body.GtidLog?
  {
    if s == [] then None
    else
      var rest := LastGtidOf(s[1..]);
      assert forall i :: 1 <= i < |s| ==> s[i] == s[1..][i - 1];
      if rest.Some? then rest
      else if s[0].body.GtidLog? then Some(s[0].body.gtid)
      else None
  }

  /** find_previous_gtids_event returns the first PREVIOUS_GTIDS event among the events it reads. */
  lemma {:induction false} PreviousGtidsScanFindsFirst(events: seq<Event>, endPos: nat)
    requires NoReadErrors(events)
    ensures PreviousGtidsIn(events, endPos) == Ok(FirstPreviousGtids(events[..CutOff(events, endPos)]))
  {
    if events != [] {
      var n := CutOff(events, endPos);
      if !events[0].body.PreviousGtids? && events[0].logPos < endPos {
        PreviousGtidsScanFindsFirst(events[1..], endPos);
        assert events[..n][1..] == events[1..][..CutOff(events[1..], endPos)];
      }
    }
  }

  /**
   * find_last_gtid_event returns the last GTID event among the events it
   * reads (all of them up to and including the first at or past the end
   * position), or none.
   */
  lemma LastGtidScanFindsLast(events: seq<Event>, endPos: nat)
    requires NoReadErrors(events)
    ensures LastGtidIn(events, endPos, None) == Ok(LastGtidOf(events[..CutOff(events, endPos)]))
  {
    LastGtidScanWithAccumulator(events, endPos, None);
  }

  lemma {:induction false} LastGtidScanWithAccumulator(events: seq<Event>, endPos: nat, last: Option<Gtid>)
    requires NoReadErrors(events)
    ensures var found := LastGtidOf(events[..CutOff(events, endPos)]);
      LastGtidIn(events, endPos, last) == Ok(if found.Some? then found else last)
  {
    if events != [] {
      var n := CutOff(events, endPos);
      var s := events[..n];
      var last' := if events[0].body.GtidLog? then Some(events[0].body.gtid) else last;
      if events[0].logPos >= endPos {
        assert s == [events[0]];
        assert s[1..] == [];
      } else {
        LastGtidScanWithAccumulator(events[1..], endPos, last');
        assert s[1..] == events[1..][..CutOff(events[1..], endPos)];
      }
    }
  }

  /** The reader's view of one binlog for find_previous_gtids_event, errors turned into exceptions. */
  function PreviousGtidsEventOf(srv: BinlogServer, name: string): Result<Option<set<Gtid>>, Thrown>
  {
    match srv.files(name)
    case Unreadable(m) => Err(Runtime(m))
    case Readable(events) =>
      match PreviousGtidsIn(events, EndPos(srv, name))
      case Err(m) => Err(Runtime(m))
      case Ok(o) => Ok(o)
  }

  /**
   * find_previous_gtids_event: opens the binlog and walks its events until
   * a PREVIOUS_GTIDS event, or until the first event at or past the end
   * position.
   */
  method FindPreviousGtidsEvent(srv: BinlogServer, name: string) returns (r: Result<Option<set<Gtid>>, Thrown>)
    ensures r == PreviousGtidsEventOf(srv, name)
  {
    if srv.files(name).Unreadable? {
      return Err(Runtime(srv.files(name).error));
    }
    var events := srv.files(name).events;
    var endPos := EndPos(srv, name);
    var i := 0;
    while i < |events|
      invariant i <= |events|
      invariant PreviousGtidsIn(events[i..], endPos) == PreviousGtidsIn(events, endPos)
    {
      assert events[i..][1..] == events[i + 1..];
      match events[i]
      case ReadError(m) =>
        return Err(Runtime(m));
      case Event(pos, body) =>
        if body.PreviousGtids? {
          return Ok(Some(body.gtids));
        }
        if pos >= endPos {
          return Ok(None);
        }
      i := i + 1;
    }
    return Ok(None);
  }

  /** The outcome of find_last_gtid_event for one binlog, errors turned into exceptions. */
  function LastGtidEventOf(srv: BinlogServer, name: string): Result<Option<Gtid>, Thrown>
  {
    match srv.files(name)
    case Unreadable(m) => Err(Runtime(m))
    case Readable(events) =>
      match LastGtidIn(events, EndPos(srv, name), None)
      case Err(m) => Err(Runtime(m))
      case Ok(o) => Ok(o)
  }

  /** find_last_gtid_event: walks the binlog remembering the latest GTID event. */
  method FindLastGtidEvent(srv: BinlogServer, name: string) returns (r: Result<Option<Gtid>, Thrown>)
    ensures r == LastGtidEventOf(srv, name)
  {
    if srv.files(name).Unreadable? {
      return Err(Runtime(srv.files(name).error));
    }
    var events := srv.files(name).events;
    var endPos := EndPos(srv, name);
    var last: Option<Gtid> := None;
    var i := 0;
    while i < |events|
      invariant i <= |events|
      invariant LastGtidIn(events[i..], endPos, last) == LastGtidIn(events, endPos, None)
    {
      assert events[i..][1..] == events[i + 1..];
      match events[i]
      case ReadError(m) =>
        return Err(Runtime(m));
      case Event(pos, body) =>
        if body.GtidLog? {
          last := Some(body.gtid);
        }
        if pos >= endPos {
          return Ok(last);
        }
      i := i + 1;
    }
    return Ok(last);
  }

  // ---------------------------------------------------------------------
  // extract_previous_gtids and extract_last_gtid
  // ---------------------------------------------------------------------

  /**
   * extract_previous_gtids: the GTIDs of the binlog's PREVIOUS_GTIDS event.
   * A binlog without one is an error unless it is the first of the index,
   * where it stands for the empty set.
   */
  function ExtractedPrevious(srv: BinlogServer, name: string, isFirst: bool): (r: Result<set<Gtid>, Thrown>)
    ensures PreviousGtidsEventOf(srv, name) == Ok(None) ==>
      r == if isFirst then Ok({}) else Err(Runtime(MiddleOfIndexMessage))
    ensures PreviousGtidsEventOf(srv, name).Ok? && PreviousGtidsEventOf(srv, name).value.Some? ==>
      r == Ok(PreviousGtidsEventOf(srv, name).value.value)
    ensures PreviousGtidsEventOf(srv, name).Err? ==> r == Err(PreviousGtidsEventOf(srv, name).error)
  {
    match PreviousGtidsEventOf(srv, name)
    case Err(t) => Err(t)
    case Ok(None) => if !isFirst then Err(Runtime(MiddleOfIndexMessage)) else Ok({})
    case Ok(Some(s)) => Ok(s)
  }

  /** extract_previous_gtids: also returns whether the event was there. */
  method ExtractPreviousGtids(srv: BinlogServer, name: string, isFirst: bool)
    returns (r: Result<(bool, set<Gtid>), Thrown>)
    ensures r.Err? <==> ExtractedPrevious(srv, name, isFirst).Err?
    ensures r.Err? ==> r.error == ExtractedPrevious(srv, name, isFirst).error
    ensures r.Ok? ==> r.value.1 == ExtractedPrevious(srv, name, isFirst).value
    ensures r.Ok? ==> (r.value.0 <==> PreviousGtidsEventOf(srv, name).value.Some?)
  {
    var ev := FindPreviousGtidsEvent(srv, name);
    match ev {
      case Err(t) =>
        return Err(t);
      case Ok(None) =>
        if !isFirst {
          return Err(Runtime(MiddleOfIndexMessage));
        }
        return Ok((false, {}));
      case Ok(Some(s)) =>
        return Ok((true, s));
    }
  }

  /** extract_last_gtid: the last GTID of the binlog, rejected when its SID cannot be entered into the map. */
  function ExtractedLastGtid(srv: BinlogServer, name: string): (r: Result<Option<Gtid>, Thrown>)
    ensures r.Ok? && r.value.Some? ==> r.value.value.sidno >= 0 && LastGtidEventOf(srv, name) == Ok(r.value)
    ensures LastGtidEventOf(srv, name) == Ok(None) ==> r == Ok(None)
    ensures (LastGtidEventOf(srv, name).Ok? && LastGtidEventOf(srv, name).value.Some? &&
             LastGtidEventOf(srv, name).value.value.sidno < 0) ==> r == Err(Runtime(InvalidGtidEventMessage))
    ensures (LastGtidEventOf(srv, name).Ok? && LastGtidEventOf(srv, name).value.Some? &&
             LastGtidEventOf(srv, name).value.value.sidno >= 0) ==> r == LastGtidEventOf(srv, name)
    ensures LastGtidEventOf(srv, name).Err? ==> r == Err(LastGtidEventOf(srv, name).error)
  {
    match LastGtidEventOf(srv, name)
    case Err(t) => Err(t)
    case Ok(None) => Ok(None)
    case Ok(Some(g)) => if g.sidno < 0 then Err(Runtime(InvalidGtidEventMessage)) else Ok(Some(g))
  }

  /**
   * For a binlog read without errors, extract_last_gtid gives the last GTID
   * event among the events the scan reads, rejected only when its SID cannot be entered into the map,
   * or none when there is no GTID event among them.
   */
  lemma LastGtidFromEvents(srv: BinlogServer, name: string)
    requires srv.files(name).Readable? && NoReadErrors(srv.files(name).events)
    ensures var events := srv.files(name).events;
      var last := LastGtidOf(events[..CutOff(events, EndPos(srv, name))]);
      (last.None? ==> ExtractedLastGtid(srv, name) == Ok(None)) &&
      (last.Some? && last.value.sidno >= 0 ==> ExtractedLastGtid(srv, name) == Ok(last)) &&
      (last.Some? && last.value.sidno < 0 ==> ExtractedLastGtid(srv, name) == Err(Runtime(InvalidGtidEventMessage)))
  {
    LastGtidScanFindsLast(srv.files(name).events, EndPos(srv, name));
  }

  // ---------------------------------------------------------------------
  // The UDF constructors
  // ---------------------------------------------------------------------

  /** The checks every constructor of the plugin makes, with its own arity message. */
  function CheckUdfArgs(srv: BinlogServer, argCount: nat, arityMessage: string): (r: Option<Thrown>)
    ensures r.None? <==> srv.pluginInitialized && argCount == 1
    ensures !srv.pluginInitialized ==> r == Some(StdError(InvalidArgument, NotInstalledMessage))
    ensures srv.pluginInitialized && argCount != 1 ==> r == Some(StdError(InvalidArgument, arityMessage))
  {
    if !srv.pluginInitialized then Some(StdError(InvalidArgument, NotInstalledMessage))
    else if argCount != 1 then Some(StdError(InvalidArgument, arityMessage))
    else None
  }

  /** get_binlog_by_gtid_impl constructor. */
  function GetBinlogByGtidConstructor(srv: BinlogServer, argCount: nat): (r: Option<Thrown>)
    ensures r.None? <==> srv.pluginInitialized && argCount == 1
    ensures srv.pluginInitialized && argCount != 1 ==>
      r == Some(StdError(InvalidArgument, "GET_BINLOG_BY_GTID() requires exactly one argument"))
  {
    CheckUdfArgs(srv, argCount, "GET_BINLOG_BY_GTID() requires exactly one argument")
  }

  /** get_last_gtid_from_binlog_impl constructor. */
  function GetLastGtidFromBinlogConstructor(srv: BinlogServer, argCount: nat): (r: Option<Thrown>)
    ensures r.None? <==> srv.pluginInitialized && argCount == 1
    ensures srv.pluginInitialized && argCount != 1 ==>
      r == Some(StdError(InvalidArgument, "GET_LAST_GTID_FROM_BINLOG() requires exactly one argument"))
  {
    CheckUdfArgs(srv, argCount, "GET_LAST_GTID_FROM_BINLOG() requires exactly one argument")
  }

  /** get_gtid_set_by_binlog_impl constructor. */
  function GetGtidSetByBinlogConstructor(srv: BinlogServer, argCount: nat): (r: Option<Thrown>)
    ensures r.None? <==> srv.pluginInitialized && argCount == 1
    ensures srv.pluginInitialized && argCount != 1 ==>
      r == Some(StdError(InvalidArgument, "get_gtid_set_by_binlog() requires exactly one argument"))
  {
    CheckUdfArgs(srv, argCount, "get_gtid_set_by_binlog() requires exactly one argument")
  }

  // ---------------------------------------------------------------------
  // GET_BINLOG_BY_GTID()
  // ---------------------------------------------------------------------

  /**
   * The do-while of get_binlog_by_gtid_impl::calculate from index position
   * `k` down to 0, `covering` being the GTIDs that the binlogs newer than
   * position `k` did not account for. The binlog at `k` is the one when it
   * covers the GTID and its predecessors do not.
   *
   * `intended` selects what is passed as `is_first`: as written, the test is
   * `rit.base() == bg`, where `rit.base()` points one past position `k`, so
   * it is `k + 1 == 0` and never holds; the intended test is `k == 0`.
   */
  function ScanBack(srv: BinlogServer, idx: seq<string>, k: int, covering: set<Gtid>, gtid: Gtid, intended: bool)
    : (r: Result<string, Thrown>)
    requires -1 <= k < |idx|
    decreases k + 1
  {
    if k < 0 then Ok("")
    else
      var isFirst := if intended then k == 0 else k + 1 == 0;
      match ExtractedPrevious(srv, idx[k], isFirst)
      case Err(t) => Err(t)
      case Ok(extracted) =>
        if gtid in covering && gtid !in extracted then Ok(idx[k])
        else ScanBack(srv, idx, k - 1, extracted, gtid, intended)
  }

  /** get_binlog_by_gtid_impl::calculate, with `arg` None when the argument does not parse as a GTID. */
  function BinlogByGtid(srv: BinlogServer, arg: Option<Gtid>, intended: bool): (r: Result<string, Thrown>)
    ensures arg.None? ==> r == Err(StdError(InvalidArgument, "Invalid GTID specified"))
    ensures arg.Some? && srv.gtidExecuted.None? ==> r == Err(Runtime("Cannot parse 'gtid_executed'"))
    ensures arg.Some? && srv.gtidExecuted.Some? && srv.index.None? ==>
      r == Err(Runtime("Cannot read binary log index'"))
    ensures arg.Some? && srv.gtidExecuted.Some? && srv.index == Some([]) ==>
      r == Err(Runtime("Binary log index is empty'"))
  {
    if arg.None? then Err(StdError(InvalidArgument, "Invalid GTID specified"))
    else if srv.gtidExecuted.None? then Err(Runtime("Cannot parse 'gtid_executed'"))
    else if srv.index.None? then Err(Runtime("Cannot read binary log index'"))
    else if srv.index.value == [] then Err(Runtime("Binary log index is empty'"))
    else ScanBack(srv, srv.index.value, |srv.index.value| - 1, srv.gtidExecuted.value, arg.value, intended)
  }

  /**
   * get_binlog_by_gtid_impl::calculate with the intended `is_first` test
   * (the oldest binlog of the index may lack a PREVIOUS_GTIDS event). A
   * GTID found in no binlog yields the empty string, which is not SQL NULL.
   */
  method GetBinlogByGtid(srv: BinlogServer, arg: Option<Gtid>) returns (r: Result<StringView, Thrown>)
    ensures r.Ok? ==> r.value.View?
    ensures r.Err? <==> BinlogByGtid(srv, arg, true).Err?
    ensures r.Err? ==> r.error == BinlogByGtid(srv, arg, true).error
    ensures r.Ok? ==> r.value.chars == BinlogByGtid(srv, arg, true).value
  {
    if arg.None? {
      return Err(StdError(InvalidArgument, "Invalid GTID specified"));
    }
    var gtid := arg.value;
    if srv.gtidExecuted.None? {
      return Err(Runtime("Cannot parse 'gtid_executed'"));
    }
    var covering := srv.gtidExecuted.value;
    if srv.index.None? {
      return Err(Runtime("Cannot read binary log index'"));
    }
    var idx := srv.index.value;
    if idx == [] {
      return Err(Runtime("Binary log index is empty'"));
    }
    var rit := |idx| - 1;
    while true
      invariant 0 <= rit < |idx|
      invariant ScanBack(srv, idx, rit, covering, gtid, true) == BinlogByGtid(srv, arg, true)
      decreases rit
    {
      var extracted := ExtractPreviousGtids(srv, idx[rit], rit == 0);
      if extracted.Err? {
        return Err(extracted.error);
      }
      var ex := extracted.value.1;
      var found := gtid in covering && gtid !in ex;
      if found {
        return Ok(View(idx[rit]));
      }
      covering := ex;
      rit := rit - 1;
      if rit < 0 {
        return Ok(View(""));
      }
    }
  }

  /** The GTIDs not yet accounted for when the scan reaches position `j`. */
  function Covering(executed: set<Gtid>, prevs: seq<set<Gtid>>, j: nat): set<Gtid>
    requires j < |prevs|
  {
    if j == |prevs| - 1 then executed else prevs[j + 1]
  }

  /** Whether position `j` is where the GTID first appears. */
  predicate IsHome(executed: set<Gtid>, prevs: seq<set<Gtid>>, j: nat, gtid: Gtid)
    requires j < |prevs|
  {
    gtid in Covering(executed, prevs, j) && gtid !in prevs[j]
  }

  /** Every binlog of the index has a PREVIOUS_GTIDS event, whose GTIDs are `prevs`. */
  predicate AllHavePrevious(srv: BinlogServer, idx: seq<string>, prevs: seq<set<Gtid>>)
  {
    |prevs| == |idx| &&
    forall j :: 0 <= j < |idx| ==> PreviousGtidsEventOf(srv, idx[j]) == Ok(Some(prevs[j]))
  }

  /** The newest position at or below `k` where the GTID first appears, or -1 when there is none. */
  function NewestHome(executed: set<Gtid>, prevs: seq<set<Gtid>>, k: int, gtid: Gtid): (h: int)
    requires -1 <= k < |prevs|
    ensures -1 <= h <= k
    ensures h >= 0 ==> IsHome(executed, prevs, h, gtid)
    ensures forall j :: h < j <= k ==> !IsHome(executed, prevs, j, gtid)
    decreases k + 1
  {
    if k < 0 then -1
    else if IsHome(executed, prevs, k, gtid) then k
    else NewestHome(executed, prevs, k - 1, gtid)
  }

  /**
   * When every binlog carries a PREVIOUS_GTIDS event, the scan from `k`
   * returns the binlog at the newest position at or below `k` where the GTID
   * first appears, or the empty string when there is none.
   */
  lemma {:induction false} ScanBackFindsNewestHome(srv: BinlogServer, executed: set<Gtid>, idx: seq<string>,
                                                   prevs: seq<set<Gtid>>, k: int, covering: set<Gtid>, gtid: Gtid,
                                                   intended: bool)
    requires AllHavePrevious(srv, idx, prevs) && -1 <= k < |idx|
    requires 0 <= k ==> covering == Covering(executed, prevs, k)
    ensures var h := NewestHome(executed, prevs, k, gtid);
      ScanBack(srv, idx, k, covering, gtid, intended) == if h < 0 then Ok("") else Ok(idx[h])
    decreases k + 1
  {
    if k >= 0 {
      assert ExtractedPrevious(srv, idx[k], if intended then k == 0 else k + 1 == 0) == Ok(prevs[k]);
      if !IsHome(executed, prevs, k, gtid) {
        ScanBackFindsNewestHome(srv, executed, idx, prevs, k - 1, prevs[k], gtid, intended);
      }
    }
  }

  /** prevs[j] only grows along the index, and gtid_executed includes the newest. */
  predicate Cumulative(executed: set<Gtid>, prevs: seq<set<Gtid>>)
  {
    (forall i, j :: 0 <= i <= j < |prevs| ==> prevs[i] <= prevs[j]) &&
    (|prevs| > 0 ==> prevs[|prevs| - 1] <= executed)
  }

  // ---------------------------------------------------------------------
  // GET_GTID_SET_BY_BINLOG()
  // ---------------------------------------------------------------------

  /** boost::algorithm::find_backward: the last position holding `name`. */
  method FindBackward(idx: seq<string>, name: string) returns (r: Option<nat>)
    ensures r.None? <==> name !in idx
    ensures r.Some? ==> (r.value < |idx| && idx[r.value] == name &&
      forall j :: r.value < j < |idx| ==> idx[j] != name)
  {
    var i := |idx|;
    while i > 0
      invariant 0 <= i <= |idx|
      invariant forall j :: i <= j < |idx| ==> idx[j] != name
    {
      i := i - 1;
      if idx[i] == name {
        return Some(i);
      }
    }
    return None;
  }

  /** The last position of `name` in `idx`. */
  function LastIndexOf(idx: seq<string>, name: string): (j: nat)
    requires name in idx
    ensures j < |idx| && idx[j] == name && forall j' :: j < j' < |idx| ==> idx[j'] != name
  {
    if idx[|idx| - 1] == name then |idx| - 1 else LastIndexOf(idx[..|idx| - 1], name)
  }

  /** get_gtid_set_by_binlog_impl::calculate: the GTIDs the binlog `name` itself holds. */
  function GtidSetByBinlog(srv: BinlogServer, name: string): (r: Result<set<Gtid>, Thrown>)
    ensures srv.index.None? ==> r == Err(Runtime("Cannot read binary log index"))
    ensures srv.index == Some([]) ==> r == Err(Runtime("Binary log index is empty"))
    ensures srv.index.Some? && srv.index.value != [] && name !in srv.index.value ==>
      r == Err(Runtime("Binary log does not exist"))
    ensures srv.index.Some? && name in srv.index.value ==>
      var idx := srv.index.value;
      var j := LastIndexOf(idx, name);
      var own := ExtractedPrevious(srv, name, j == 0);
      var covering :=
        if j < |idx| - 1 then ExtractedPrevious(srv, idx[j + 1], false)
        else if srv.gtidExecuted.None? then Err(Runtime("Cannot parse 'gtid_executed'"))
        else Ok(srv.gtidExecuted.value);
      (own.Err? ==> r == Err(own.error)) &&
      (own.Ok? && covering.Err? ==> r == Err(covering.error)) &&
      (own.Ok? && covering.Ok? ==> r == Ok(covering.value - own.value))
  {
    if srv.index.None? then Err(Runtime("Cannot read binary log index"))
    else if srv.index.value == [] then Err(Runtime("Binary log index is empty"))
    else if name !in srv.index.value then Err(Runtime("Binary log does not exist"))
    else
      var idx := srv.index.value;
      var j := LastIndexOf(idx, name);
      match ExtractedPrevious(srv, idx[j], j == 0)
      case Err(t) => Err(t)
      case Ok(extracted) =>
        if j == |idx| - 1 then
          if srv.gtidExecuted.None? then Err(Runtime("Cannot parse 'gtid_executed'"))
          else Ok(srv.gtidExecuted.value - extracted)
        else
          match ExtractedPrevious(srv, idx[j + 1], j + 1 == 0)
          case Err(t) => Err(t)
          case Ok(covering) => Ok(covering - extracted)
  }

  /** get_gtid_set_by_binlog_impl::calculate, with the set's text formatting left abstract. */
  method GetGtidSetByBinlog(srv: BinlogServer, name: string) returns (r: Result<set<Gtid>, Thrown>)
    ensures r == GtidSetByBinlog(srv, name)
  {
    if srv.index.None? {
      return Err(Runtime("Cannot read binary log index"));
    }
    var idx := srv.index.value;
    if idx == [] {
      return Err(Runtime("Binary log index is empty"));
    }
    var fnd := FindBackward(idx, name);
    if fnd.None? {
      return Err(Runtime("Binary log does not exist"));
    }
    var j := fnd.value;
    assert j == LastIndexOf(idx, name);
    var extracted := ExtractPreviousGtids(srv, idx[j], j == 0);
    if extracted.Err? {
      return Err(extracted.error);
    }
    var covering: set<Gtid>;
    if j == |idx| - 1 {
      if srv.gtidExecuted.None? {
        return Err(Runtime("Cannot parse 'gtid_executed'"));
      }
      covering := srv.gtidExecuted.value;
    } else {
      var next := ExtractPreviousGtids(srv, idx[j + 1], j + 1 == 0);
      if next.Err? {
        return Err(next.error);
      }
      covering := next.value.1;
    }
    return Ok(covering - extracted.value.1);
  }

  /** Where GET_GTID_SET_BY_BINLOG finds the GTIDs of a binlog when every binlog carries the event. */
  lemma GtidSetOfPosition(srv: BinlogServer, prevs: seq<set<Gtid>>, j: nat)
    requires srv.index.Some? && srv.gtidExecuted.Some?
    requires j < |srv.index.value|
    requires forall a, b :: 0 <= a < b < |srv.index.value| ==> srv.index.value[a] != srv.index.value[b]
    requires AllHavePrevious(srv, srv.index.value, prevs)
    ensures GtidSetByBinlog(srv, srv.index.value[j]) ==
      Ok(Covering(srv.gtidExecuted.value, prevs, j) - prevs[j])
  {
    var idx := srv.index.value;
    assert LastIndexOf(idx, idx[j]) == j;
    assert ExtractedPrevious(srv, idx[j], j == 0) == Ok(prevs[j]);
    if j < |idx| - 1 {
      assert ExtractedPrevious(srv, idx[j + 1], j + 1 == 0) == Ok(prevs[j + 1]);
    }
  }

  /**
   * The two UDFs agree: on an index of distinct names whose binlogs all
   * carry cumulative PREVIOUS_GTIDS events, every GTID that
   * GET_GTID_SET_BY_BINLOG reports for a binlog is located in that binlog
   * by GET_BINLOG_BY_GTID.
   */
  lemma GtidSetAndLocatorAgree(srv: BinlogServer, prevs: seq<set<Gtid>>, j: nat, gtid: Gtid)
    requires srv.index.Some? && srv.gtidExecuted.Some?
    requires j < |srv.index.value|
    requires forall a, b :: 0 <= a < b < |srv.index.value| ==> srv.index.value[a] != srv.index.value[b]
    requires AllHavePrevious(srv, srv.index.value, prevs)
    requires Cumulative(srv.gtidExecuted.value, prevs)
    requires GtidSetByBinlog(srv, srv.index.value[j]).Ok?
    requires gtid in GtidSetByBinlog(srv, srv.index.value[j]).value
    ensures BinlogByGtid(srv, Some(gtid), true) == Ok(srv.index.value[j])
  {
    var idx := srv.index.value;
    var executed := srv.gtidExecuted.value;
    var n := |idx|;
    GtidSetOfPosition(srv, prevs, j);
    assert IsHome(executed, prevs, j, gtid);
    ScanBackFindsNewestHome(srv, executed, idx, prevs, n - 1, executed, gtid, true);
    var h := NewestHome(executed, prevs, n - 1, gtid);
    assert h == j;
  }

  /** As written, a visited binlog without a PREVIOUS_GTIDS event always ends the scan with an error. */
  lemma AsWrittenVisitedBinlogNeedsEvent(srv: BinlogServer, idx: seq<string>, k: int, covering: set<Gtid>, gtid: Gtid)
    requires 0 <= k < |idx|
    requires PreviousGtidsEventOf(srv, idx[k]) == Ok(None)
    ensures ScanBack(srv, idx, k, covering, gtid, false) == Err(Runtime(MiddleOfIndexMessage))
  {
  }

  /**
   * With the intended test, only a binlog other than the oldest can make
   * the scan fail for lack of a PREVIOUS_GTIDS event.
   */
  lemma {:induction false} IntendedOldestMayLackEvent(srv: BinlogServer, idx: seq<string>, k: int, covering: set<Gtid>,
                                                      gtid: Gtid)
    requires -1 <= k < |idx|
    requires forall j :: 1 <= j <= k ==> PreviousGtidsEventOf(srv, idx[j]) != Ok(None)
    ensures ScanBack(srv, idx, k, covering, gtid, true) != Err(Runtime(MiddleOfIndexMessage)) ||
      exists j :: 0 <= j <= k && PreviousGtidsEventOf(srv, idx[j]) == Err(Runtime(MiddleOfIndexMessage))
  {
    if k >= 0 {
      var ex := ExtractedPrevious(srv, idx[k], k == 0);
      if ex.Ok? && !(gtid in covering && gtid !in ex.value) {
        IntendedOldestMayLackEvent(srv, idx, k - 1, ex.value, gtid);
      }
    }
  }

  /** A server whose only binlog has no PREVIOUS_GTIDS event, and a GTID it executed. */
  function SingleBinlogServer(g: Gtid): BinlogServer
  {
    BinlogServer(_ => Readable([Event(4, OtherEvent), Event(120, GtidLog(g))]), "binlog.000001", 120,
                 Some(["binlog.000001"]), Some({g}), true)
  }

  /**
   * The input that shows the `is_first` test never holds: the GTID is in
   * the only binlog, yet the call fails with the "middle of log index"
   * error; with the intended test it returns that binlog.
   */
  lemma FirstBinlogCounterexample(g: Gtid)
    ensures BinlogByGtid(SingleBinlogServer(g), Some(g), false) == Err(Runtime(MiddleOfIndexMessage))
    ensures BinlogByGtid(SingleBinlogServer(g), Some(g), true) == Ok("binlog.000001")
  {
    var srv := SingleBinlogServer(g);
    assert PreviousGtidsIn(srv.files("binlog.000001").events, EndPos(srv, "binlog.000001")) == Ok(None);
  }

  // ---------------------------------------------------------------------
  // GET_LAST_GTID_FROM_BINLOG()
  // ---------------------------------------------------------------------

  /**
   * get_last_gtid_from_binlog_impl::calculate: the last GTID of the binlog,
   * or none, which the UDF returns as the empty string; the GTID's text
   * formatting is left abstract.
   */
  method GetLastGtidFromBinlog(srv: BinlogServer, name: string) returns (r: Result<Option<Gtid>, Thrown>)
    ensures r == ExtractedLastGtid(srv, name)
    ensures r.Ok? && r.value.Some? ==> r.value.value.sidno >= 0
  {
    var ev := FindLastGtidEvent(srv, name);
    match ev {
      case Err(t) =>
        return Err(t);
      case Ok(None) =>
        return Ok(None);
      case Ok(Some(g)) =>
        if g.sidno < 0 {
          return Err(Runtime(InvalidGtidEventMessage));
        }
        return Ok(Some(g));
    }
  }
}
