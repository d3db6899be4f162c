/** The malware probe's scan of the modified-id CSV: a partial head that reports itself
    complete gives the whole file's answer, and the range-doubling walk ends with it. */
module ProbeCsv {
  import opened Prelude
  import opened Text

  const START_BYTES: nat := 4096
  const MAX_FEED_BYTES: nat := 256 * 1024 * 1024

  datatype CsvScan = CsvScan(
    freshMal: seq<(int, string)>,
    freshOther: seq<string>,
    maxModified: Option<int>,
    complete: bool)

  /** How one scan reads its lines. The file is raw bytes, one character per byte, and
      `decode` turns a line into text: no UTF-8 sequence contains a line feed, so lossy
      decoding of the whole splits into lossy decoding of its lines. `parse` reads a
      timestamp (an instant, or nothing for a malformed one), and `horizon` is the newest
      instant a watermark may advance to by the clock as read at the n-th fresh line. */
  datatype Calendar = Calendar(decode: string -> string, parse: string -> Option<int>, horizon: nat -> int)

  /** Safe to put into a URL path. */
  predicate IsProbeId(id: string) {
    && id != "" && id[0] != '.'
    && forall i :: 0 <= i < |id| ==>
         || '0' <= id[i] <= '9' || 'A' <= id[i] <= 'Z' || 'a' <= id[i] <= 'z'
         || id[i] == '-' || id[i] == '.' || id[i] == '_'
  }

  predicate IsMal(id: string) {
    "MAL-" <= id
  }

  /** A line's timestamp and id; nothing for a blank or malformed line. */
  function Entry(line: string, cal: Calendar): Option<(int, string)> {
    match SplitOnce(Trim(cal.decode(line)), ',')
    case None => None
    case Some((stamp, id)) =>
      match cal.parse(Trim(stamp))
      case None => None
      case Some(ts) => Some((ts, Trim(id)))
  }

  // ----- What a scan means ---------------------------------------------------------------

  /** Every well-formed line, in file order. */
  function Entries(lines: seq<string>, cal: Calendar): seq<(int, string)> {
    if lines == [] then []
    else
      match Entry(lines[0], cal)
      case None => Entries(lines[1..], cal)
      case Some(e) => [e] + Entries(lines[1..], cal)
  }

  predicate AtOrBelow(ts: int, watermark: Option<int>) {
    watermark.Some? && ts <= watermark.value
  }

  /** The entries above the first one at or below the watermark. */
  function TakeFresh(entries: seq<(int, string)>, watermark: Option<int>): (taken: seq<(int, string)>)
    ensures |taken| <= |entries| && taken == entries[..|taken|]
    ensures forall i :: 0 <= i < |taken| ==> !AtOrBelow(taken[i].0, watermark)
    ensures |taken| < |entries| ==> AtOrBelow(entries[|taken|].0, watermark)
  {
    if entries == [] || AtOrBelow(entries[0].0, watermark) then []
    else [entries[0]] + TakeFresh(entries[1..], watermark)
  }

  function MalOf(e: (int, string)): seq<(int, string)> {
    if IsProbeId(e.1) && IsMal(e.1) then [e] else []
  }

  function OtherOf(e: (int, string)): seq<string> {
    if IsProbeId(e.1) && !IsMal(e.1) then [e.1] else []
  }

  function Mals(entries: seq<(int, string)>): seq<(int, string)> {
    if entries == [] then [] else MalOf(entries[0]) + Mals(entries[1..])
  }

  function Others(entries: seq<(int, string)>): seq<string> {
    if entries == [] then [] else OtherOf(entries[0]) + Others(entries[1..])
  }

  function Advance(current: Option<int>, ts: int, horizon: int): Option<int> {
    if ts <= horizon && (current.None? || ts > current.value) then Some(ts) else current
  }

  /** The newest believable instant among `entries` and `current`. */
  function Newest(entries: seq<(int, string)>, current: Option<int>, horizon: nat -> int, at: nat): Option<int> {
    if entries == [] then current
    else Newest(entries[1..], Advance(current, entries[0].0, horizon(at)), horizon, at + 1)
  }

  /** The scan of a list of lines. */
  function ScanOf(lines: seq<string>, watermark: Option<int>, isFull: bool, cal: Calendar): CsvScan {
    Resume(CsvScan([], [], None, isFull), Entries(lines, cal), watermark, cal.horizon, 0)
  }

  /** A scan in progress after `at` fresh entries, finished over the remaining ones. */
  function Resume(scan: CsvScan, entries: seq<(int, string)>, watermark: Option<int>, horizon: nat -> int,
                  at: nat): CsvScan {
    var kept := TakeFresh(entries, watermark);
    CsvScan(scan.freshMal + Mals(kept), scan.freshOther + Others(kept),
            Newest(kept, scan.maxModified, horizon, at), scan.complete || |kept| < |entries|)
  }

  /** The scan of fetched text; a ranged fetch drops its possibly truncated last line. */
  function HeadScan(text: string, watermark: Option<int>, isFull: bool, cal: Calendar): CsvScan {
    var lines := Split(text, '\n');
    ScanOf(if isFull then lines else lines[..|lines| - 1], watermark, isFull, cal)
  }

  // ----- The scanner -----------------------------------------------------------------------

  method ParseCsvHead(text: string, watermark: Option<int>, isFull: bool, cal: Calendar) returns (scan: CsvScan)
    ensures scan == HeadScan(text, watermark, isFull, cal)
  {
    var lines := Split(text, '\n');
    if !isFull {
      lines := lines[..|lines| - 1];
    }
    scan := ScanLines(lines, watermark, isFull, cal);
  }

  method ScanLines(lines: seq<string>, watermark: Option<int>, isFull: bool, cal: Calendar) returns (scan: CsvScan)
    ensures scan == ScanOf(lines, watermark, isFull, cal)
  {
    scan := CsvScan([], [], None, isFull);
    ghost var goal := ScanOf(lines, watermark, isFull, cal);
    assert lines[0..] == lines;
    var i, at := 0, 0;
    while i < |lines|
      invariant 0 <= i <= |lines|
      invariant Resume(scan, Entries(lines[i..], cal), watermark, cal.horizon, at) == goal
    {
      EntriesStep(lines, i, cal);
      var e := Entry(lines[i], cal);
      i := i + 1;
      if e.Some? {
        ResumeStep(scan, e.value, Entries(lines[i..], cal), watermark, cal.horizon, at);
        if AtOrBelow(e.value.0, watermark) {
          scan := scan.(complete := true);
          return;
        }
        scan := Note(scan, e.value, cal.horizon(at));
        at := at + 1;
      }
    }
    ResumeEnd(scan, watermark, cal.horizon, at);
  }

  lemma EntriesStep(lines: seq<string>, i: nat, cal: Calendar)
    requires i < |lines|
    ensures Entries(lines[i..], cal)
         == (if Entry(lines[i], cal).Some? then [Entry(lines[i], cal).value] else []) + Entries(lines[i + 1..], cal)
  {
    assert lines[i..][1..] == lines[i + 1..];
  }

  lemma ResumeEnd(scan: CsvScan, watermark: Option<int>, horizon: nat -> int, at: nat)
    ensures Resume(scan, [], watermark, horizon, at) == scan
  {
  }

  /** Take one fresh line into the scan. */
  method Note(scan: CsvScan, e: (int, string), horizon: int) returns (scan': CsvScan)
    ensures scan' == CsvScan(scan.freshMal + MalOf(e), scan.freshOther + OtherOf(e),
                             Advance(scan.maxModified, e.0, horizon), scan.complete)
  {
    scan' := scan.(maxModified := Advance(scan.maxModified, e.0, horizon));
    if IsProbeId(e.1) {
      if IsMal(e.1) {
        scan' := scan'.(freshMal := scan'.freshMal + [e]);
      } else {
        scan' := scan'.(freshOther := scan'.freshOther + [e.1]);
      }
    }
  }

  lemma ResumeStep(scan: CsvScan, e: (int, string), rest: seq<(int, string)>, watermark: Option<int>,
                   horizon: nat -> int, at: nat)
    ensures if AtOrBelow(e.0, watermark) then
              Resume(scan, [e] + rest, watermark, horizon, at) == scan.(complete := true)
            else
              Resume(scan, [e] + rest, watermark, horizon, at) ==
              Resume(CsvScan(scan.freshMal + MalOf(e), scan.freshOther + OtherOf(e),
                             Advance(scan.maxModified, e.0, horizon(at)), scan.complete),
                     rest, watermark, horizon, at + 1)
  {
    assert ([e] + rest)[1..] == rest;
    if !AtOrBelow(e.0, watermark) {
      var kept := TakeFresh(rest, watermark);
      assert ([e] + kept)[1..] == kept;
      assert scan.freshMal + Mals([e] + kept) == scan.freshMal + MalOf(e) + Mals(kept);
      assert scan.freshOther + Others([e] + kept) == scan.freshOther + OtherOf(e) + Others(kept);
    }
  }

  // ----- A complete head is the whole file ----------------------------------------------------

  lemma {:induction false} EntriesPrefix(a: seq<string>, b: seq<string>, cal: Calendar)
    requires a <= b
    ensures Entries(a, cal) <= Entries(b, cal)
  {
    if a != [] {
      EntriesPrefix(a[1..], b[1..], cal);
    }
  }

  lemma {:induction false} TakeFreshPrefix(a: seq<(int, string)>, b: seq<(int, string)>, watermark: Option<int>)
    requires a <= b && |TakeFresh(a, watermark)| < |a|
    ensures TakeFresh(b, watermark) == TakeFresh(a, watermark)
  {
    if !AtOrBelow(a[0].0, watermark) {
      TakeFreshPrefix(a[1..], b[1..], watermark);
    }
  }

  /** Whatever prefix of the file was fetched: a head scan that says it is complete found
      exactly what scanning the whole file finds. */
  lemma CompleteHeadIsWholeFile(file: string, k: nat, watermark: Option<int>, cal: Calendar)
    requires k <= |file|
    ensures HeadScan(file[..k], watermark, false, cal).complete ==>
              HeadScan(file[..k], watermark, false, cal) == HeadScan(file, watermark, true, cal)
  {
    var head := Split(file[..k], '\n');
    var lines := head[..|head| - 1];
    assert file == file[..k] + file[k..];
    SplitPrefix(file[..k], file[k..], '\n');
    EntriesPrefix(lines, Split(file, '\n'), cal);
    if |TakeFresh(Entries(lines, cal), watermark)| < |Entries(lines, cal)| {
      TakeFreshPrefix(Entries(lines, cal), Entries(Split(file, '\n'), cal), watermark);
    }
  }

  // ----- On a newest-first file, fresh means newer than the watermark ------------------------------

  /** The entries strictly newer than the watermark, wherever they stand. */
  function Newer(entries: seq<(int, string)>, watermark: Option<int>): seq<(int, string)> {
    if entries == [] then []
    else (if AtOrBelow(entries[0].0, watermark) then [] else [entries[0]]) + Newer(entries[1..], watermark)
  }

  lemma {:induction false} NoneNewer(entries: seq<(int, string)>, watermark: Option<int>)
    requires forall i :: 0 <= i < |entries| ==> AtOrBelow(entries[i].0, watermark)
    ensures Newer(entries, watermark) == []
  {
    if entries != [] {
      NoneNewer(entries[1..], watermark);
    }
  }

  /** The entries are in the order the file promises. */
  ghost predicate NewestFirst(entries: seq<(int, string)>) {
    forall i, j :: 0 <= i < j < |entries| ==> entries[i].0 >= entries[j].0
  }

  lemma {:induction false} SortedFreshIsNewer(entries: seq<(int, string)>, watermark: Option<int>)
    requires NewestFirst(entries)
    ensures TakeFresh(entries, watermark) == Newer(entries, watermark)
  {
    if entries != [] {
      if AtOrBelow(entries[0].0, watermark) {
        NoneNewer(entries, watermark);
      } else {
        SortedFreshIsNewer(entries[1..], watermark);
      }
    }
  }

  /** Scanning a whole newest-first file finds every entry newer than the watermark. */
  lemma SortedFileScan(file: string, watermark: Option<int>, cal: Calendar)
    requires NewestFirst(Entries(Split(file, '\n'), cal))
    ensures var scan := HeadScan(file, watermark, true, cal);
            var newer := Newer(Entries(Split(file, '\n'), cal), watermark);
            scan.freshMal == Mals(newer) && scan.freshOther == Others(newer) && scan.complete
  {
    SortedFreshIsNewer(Entries(Split(file, '\n'), cal), watermark);
  }

  // ----- What a scan returns ---------------------------------------------------------------------------------

  /** The entries a whole-file scan keeps: those above the first one at or below the watermark. */
  function Kept(file: string, watermark: Option<int>, cal: Calendar): seq<(int, string)> {
    TakeFresh(Entries(Split(file, '\n'), cal), watermark)
  }

  /** The i-th fresh entry is not past the horizon as read at it. */
  predicate Believable(kept: seq<(int, string)>, i: nat, horizon: nat -> int, at: nat)
    requires i < |kept|
  {
    kept[i].0 <= horizon(at + i)
  }

  /** `best` is the largest of `current` and the believable times of `kept`. */
  ghost predicate IsNewest(best: Option<int>, kept: seq<(int, string)>, current: Option<int>, horizon: nat -> int,
                           at: nat) {
    && (best.None? <==> current.None? && forall i :: 0 <= i < |kept| ==> !Believable(kept, i, horizon, at))
    && (best.Some? ==>
          && (best == current ||
              exists i :: 0 <= i < |kept| && Believable(kept, i, horizon, at) && kept[i].0 == best.value)
          && (current.Some? ==> current.value <= best.value)
          && forall i :: 0 <= i < |kept| && Believable(kept, i, horizon, at) ==> kept[i].0 <= best.value)
  }

  lemma {:induction false} NewestIsNewest(kept: seq<(int, string)>, current: Option<int>, horizon: nat -> int, at: nat)
    ensures IsNewest(Newest(kept, current, horizon, at), kept, current, horizon, at)
    decreases kept
  {
    if kept != [] {
      var next := Advance(current, kept[0].0, horizon(at));
      NewestIsNewest(kept[1..], next, horizon, at + 1);
      assert forall i :: 0 < i < |kept| ==> kept[i] == kept[1..][i - 1];
      assert forall i :: 0 < i < |kept| ==>
               (Believable(kept, i, horizon, at) <==> Believable(kept[1..], i - 1, horizon, at + 1));
      assert Believable(kept, 0, horizon, at) <==> kept[0].0 <= horizon(at);
      var best := Newest(kept[1..], next, horizon, at + 1);
      var rest := kept[1..];
      if i :| 0 <= i < |rest| && Believable(rest, i, horizon, at + 1) && best.Some? && rest[i].0 == best.value {
        assert Believable(kept, i + 1, horizon, at) && kept[i + 1].0 == best.value;
      }
    }
  }

  /** The watermark a scan of the whole file proposes: nothing when every kept entry is past
      its horizon, else the time of one that is not, and no such entry is newer. */
  lemma ScanFindsNewest(file: string, watermark: Option<int>, cal: Calendar)
    ensures var best := HeadScan(file, watermark, true, cal).maxModified; var kept := Kept(file, watermark, cal);
      && (best.None? <==> forall i :: 0 <= i < |kept| ==> kept[i].0 > cal.horizon(i))
      && (best.Some? ==>
            && (exists i :: 0 <= i < |kept| && kept[i].0 <= cal.horizon(i) && kept[i].0 == best.value)
            && forall i :: 0 <= i < |kept| && kept[i].0 <= cal.horizon(i) ==> kept[i].0 <= best.value)
  {
    var kept := Kept(file, watermark, cal);
    NewestIsNewest(kept, None, cal.horizon, 0);
    assert forall i :: 0 <= i < |kept| ==> (Believable(kept, i, cal.horizon, 0) <==> kept[i].0 <= cal.horizon(i));
  }

  /** One or more ASCII letters, digits, dashes, dots and underscores, and no dot in front. */
  ghost predicate PathSafe(id: string) {
    && id != "" && id[0] != '.'
    && forall c :: c in id ==> 'a' <= c <= 'z' || 'A' <= c <= 'Z' || '0' <= c <= '9' || c == '-' || c == '_' || c == '.'
  }

  lemma ProbeIdIsPathSafe(id: string)
    ensures IsProbeId(id) <==> PathSafe(id)
  {
    if PathSafe(id) {
      assert forall i :: 0 <= i < |id| ==> id[i] in id;
    }
  }

  lemma {:induction false} MalsAre(kept: seq<(int, string)>, e: (int, string))
    ensures e in Mals(kept) <==> e in kept && PathSafe(e.1) && "MAL-" <= e.1
  {
    if kept != [] {
      MalsAre(kept[1..], e);
      ProbeIdIsPathSafe(kept[0].1);
      assert kept == [kept[0]] + kept[1..];
    }
  }

  lemma {:induction false} OthersAre(kept: seq<(int, string)>, id: string)
    ensures id in Others(kept) <==> (exists i :: 0 <= i < |kept| && kept[i].1 == id) && PathSafe(id) && !("MAL-" <= id)
  {
    if kept != [] {
      OthersAre(kept[1..], id);
      ProbeIdIsPathSafe(kept[0].1);
      assert forall i :: 0 < i < |kept| ==> kept[i] == kept[1..][i - 1];
      if i :| 0 <= i < |kept| - 1 && kept[1..][i].1 == id {
        assert kept[i + 1].1 == id;
      }
    }
  }

  /** The ids a scan of the whole file returns: of the kept entries, those safe in a URL path,
      malware advisories with their times and the others without. */
  lemma ScanFindsIds(file: string, watermark: Option<int>, cal: Calendar, ts: int, id: string)
    ensures var scan := HeadScan(file, watermark, true, cal); var kept := Kept(file, watermark, cal);
      && ((ts, id) in scan.freshMal <==> (ts, id) in kept && PathSafe(id) && "MAL-" <= id)
      && (id in scan.freshOther <==>
            (exists i :: 0 <= i < |kept| && kept[i].1 == id) && PathSafe(id) && !("MAL-" <= id))
  {
    MalsAre(Kept(file, watermark, cal), (ts, id));
    OthersAre(Kept(file, watermark, cal), id);
  }

  /** A line with a readable timestamp, a comma and an id is an entry, whatever white space
      stands around its parts; a line without a comma, or with an unreadable timestamp, is
      not. */
  lemma EntryReadsBack(line: string, cal: Calendar, pads: (string, string, string, string), stamp: string, id: string)
    requires AllSpace(pads.0) && AllSpace(pads.1) && AllSpace(pads.2) && AllSpace(pads.3)
    requires stamp != "" && !IsSpace(stamp[0]) && !IsSpace(stamp[|stamp| - 1]) && ',' !in stamp
    requires id != "" && !IsSpace(id[0]) && !IsSpace(id[|id| - 1])
    requires cal.decode(line) == pads.0 + (stamp + pads.1 + [','] + pads.2 + id) + pads.3
    ensures Entry(line, cal) == if cal.parse(stamp).None? then None else Some((cal.parse(stamp).value, id))
  {
    var inner := stamp + pads.1 + [','] + pads.2 + id;
    assert inner[0] == stamp[0] && inner[|inner| - 1] == id[|id| - 1];
    TrimPadded(pads.0, inner, pads.3);
    assert ',' !in stamp + pads.1;
    assert inner == (stamp + pads.1) + [','] + (pads.2 + id);
    SplitOnceAt(stamp + pads.1, ',', pads.2 + id);
    TrimPadded("", stamp, pads.1);
    assert "" + stamp + pads.1 == stamp + pads.1;
    TrimPadded(pads.2, id, "");
    assert pads.2 + id + "" == pads.2 + id;
  }

  lemma NoCommaNoEntry(line: string, cal: Calendar)
    requires ',' !in Trim(cal.decode(line))
    ensures Entry(line, cal) == None
  {
    SplitOnceIff(Trim(cal.decode(line)), ',');
  }

  lemma {:induction false} EntriesConcat(a: seq<string>, b: seq<string>, cal: Calendar)
    ensures Entries(a + b, cal) == Entries(a, cal) + Entries(b, cal)
  {
    if a == [] {
      assert a + b == b;
    } else {
      assert (a + b)[1..] == a[1..] + b;
      EntriesConcat(a[1..], b, cal);
    }
  }

  /** Every well-formed line is an entry, in the order of the file, and no other is. */
  lemma EntriesInOrder(a: seq<string>, line: string, b: seq<string>, cal: Calendar)
    ensures Entries(a + [line] + b, cal)
         == Entries(a, cal) + (if Entry(line, cal).Some? then [Entry(line, cal).value] else []) + Entries(b, cal)
    ensures Entries([], cal) == []
  {
    EntriesConcat(a + [line], b, cal);
    EntriesConcat(a, [line], cal);
    OneLine(line, cal);
  }

  lemma OneLine(line: string, cal: Calendar)
    ensures Entries([line], cal) == if Entry(line, cal).Some? then [Entry(line, cal).value] else []
  {
    assert [line][1..] == [];
    assert Entries([line][1..], cal) == [];
  }

  lemma {:induction false} MalsConcat(a: seq<(int, string)>, b: seq<(int, string)>)
    ensures Mals(a + b) == Mals(a) + Mals(b)
  {
    if a == [] {
      assert a + b == b;
    } else {
      assert (a + b)[1..] == a[1..] + b;
      MalsConcat(a[1..], b);
    }
  }

  lemma {:induction false} OthersConcat(a: seq<(int, string)>, b: seq<(int, string)>)
    ensures Others(a + b) == Others(a) + Others(b)
  {
    if a == [] {
      assert a + b == b;
    } else {
      assert (a + b)[1..] == a[1..] + b;
      OthersConcat(a[1..], b);
    }
  }

  /** Each kept entry goes to one list or, its id unsafe, to none, in the order of the file. */
  lemma IdsInOrder(a: seq<(int, string)>, e: (int, string), b: seq<(int, string)>)
    ensures Mals(a + [e] + b) == Mals(a) + (if PathSafe(e.1) && "MAL-" <= e.1 then [e] else []) + Mals(b)
    ensures Others(a + [e] + b) == Others(a) + (if PathSafe(e.1) && !("MAL-" <= e.1) then [e.1] else []) + Others(b)
    ensures Mals([]) == [] && Others([]) == []
  {
    MalsConcat(a + [e], b);
    MalsConcat(a, [e]);
    OthersConcat(a + [e], b);
    OthersConcat(a, [e]);
    OneEntry(e);
  }

  lemma OneEntry(e: (int, string))
    ensures Mals([e]) == if PathSafe(e.1) && "MAL-" <= e.1 then [e] else []
    ensures Others([e]) == if PathSafe(e.1) && !("MAL-" <= e.1) then [e.1] else []
  {
    ProbeIdIsPathSafe(e.1);
    assert [e][1..] == [];
    assert Mals([e][1..]) == [] && Others([e][1..]) == [];
  }

  /** Some entry is no newer than the watermark. */
  ghost predicate Reaches(entries: seq<(int, string)>, watermark: Option<int>) {
    watermark.Some? && exists i :: 0 <= i < |entries| && entries[i].0 <= watermark.value
  }

  /** A head is complete exactly when it is the whole file or one of its whole lines is an
      entry no newer than the watermark. */
  lemma HeadCompleteIff(text: string, watermark: Option<int>, isFull: bool, cal: Calendar)
    ensures var lines := Split(text, '\n');
      HeadScan(text, watermark, isFull, cal).complete <==>
        isFull || Reaches(Entries(lines[..|lines| - 1], cal), watermark)
  {
    var lines := Split(text, '\n');
    StopsIff(Entries(lines[..|lines| - 1], cal), watermark);
  }

  lemma StopsIff(entries: seq<(int, string)>, watermark: Option<int>)
    ensures |TakeFresh(entries, watermark)| < |entries| <==> Reaches(entries, watermark)
  {
    var taken := TakeFresh(entries, watermark);
    assert forall i :: 0 <= i < |taken| ==> !AtOrBelow(taken[i].0, watermark) && taken[i] == entries[i];
  }

  // ----- The doubling walk -----------------------------------------------------------------------

  /** The remote file, request by request: the file at the time of the request, the body
      answered for a range of `end` bytes, its etag, and how that body is read. */
  datatype Source = Source(file: nat -> string, reply: (nat, nat) -> string, etag: nat -> Option<string>,
                           fails: nat -> bool, cal: nat -> Calendar)

  /** A body is a prefix of the file, and shorter than the range only at the file's end. */
  ghost predicate Honest(s: Source) {
    forall n: nat, end: nat ::
      s.reply(n, end) <= s.file(n) && (|s.reply(n, end)| < end ==> s.reply(n, end) == s.file(n))
  }

  datatype CsvWalk = NotModified | Failed | Scanned(scan: CsvScan, etag: Option<string>)

  /** How many bytes the n-th request asks for. */
  function RangeAt(n: nat): nat {
    if n == 0 then 4096 else if 2 * RangeAt(n - 1) < 0x1000_0000 then 2 * RangeAt(n - 1) else 0x1000_0000
  }

  /** The n-th answer holds the whole file or everything fresh in it. */
  ghost predicate Contained(source: Source, n: nat, watermark: Option<int>) {
    var body := source.reply(n, RangeAt(n));
    |body| < RangeAt(n) || HeadScan(body, watermark, false, source.cal(n)).complete
  }

  /** The scan of the n-th answer. */
  ghost function AnswerScan(source: Source, n: nat, watermark: Option<int>): CsvScan {
    var body := source.reply(n, RangeAt(n));
    HeadScan(body, watermark, |body| < RangeAt(n), source.cal(n))
  }

  /** Scan the n-th answer: complete exactly when the answer is enough, and then it is the
      scan of the whole file. */
  method ScanAnswer(source: Source, n: nat, end: nat, watermark: Option<int>) returns (scan: CsvScan)
    requires Honest(source) && end == RangeAt(n)
    ensures scan == AnswerScan(source, n, watermark)
    ensures scan.complete <==> Contained(source, n, watermark)
    ensures scan.complete ==> scan == HeadScan(source.file(n), watermark, true, source.cal(n))
    ensures !scan.complete ==> |source.file(n)| >= end
  {
    var body := source.reply(n, end);
    scan := ParseCsvHead(body, watermark, |body| < end, source.cal(n));
    var file := source.file(n);
    assert body == file[..|body|];
    CompleteHeadIsWholeFile(file, |body|, watermark, source.cal(n));
  }

  /** Widen the fetched range until the fresh window is contained in it. `notModified` is
      the source's answer to the first, conditional request. */
  method WalkCsv(source: Source, notModified: bool, watermark: Option<int>) returns (walk: CsvWalk, requests: nat)
    requires Honest(source)
    ensures requests > 0
    ensures walk.NotModified? ==> notModified && requests == 1
    ensures walk.Failed? ==> source.fails(requests - 1)
    ensures walk.Scanned? ==> walk.etag == source.etag(requests - 1)
    ensures walk.Scanned? ==> walk.scan == AnswerScan(source, requests - 1, watermark)
    ensures forall n :: 0 <= n < requests - 1 ==> !Contained(source, n, watermark)
    ensures walk.Scanned? && walk.scan.complete ==>
              walk.scan == HeadScan(source.file(requests - 1), watermark, true, source.cal(requests - 1))
    ensures walk.Scanned? && !walk.scan.complete ==> |source.file(requests - 1)| >= MAX_FEED_BYTES
  {
    var end := START_BYTES;
    requests := 0;
    while true
      invariant START_BYTES <= end <= MAX_FEED_BYTES && end == RangeAt(requests)
      invariant forall n :: 0 <= n < requests ==> !Contained(source, n, watermark)
      decreases MAX_FEED_BYTES - end, if requests == 0 then 1 else 0
    {
      requests := requests + 1;
      if source.fails(requests - 1) {
        return Failed, requests;
      }
      if requests == 1 && notModified {
        return NotModified, requests;
      }
      var scan := ScanAnswer(source, requests - 1, end, watermark);
      if scan.complete || end >= MAX_FEED_BYTES {
        return Scanned(scan, source.etag(requests - 1)), requests;
      }
      end := if SatAdd(end, end) < MAX_FEED_BYTES then SatAdd(end, end) else MAX_FEED_BYTES;
    }
  }
}
