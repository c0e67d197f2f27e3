/**
 * officialcharts.go: the chart scraper's core. A table row is classified as a
 * chart entry or not (isSongRow), an entry is parsed into a typed Song
 * (processSongRow), and GetCharts checks its arguments, sizes the result from
 * the first table body, and stores every parsed song at its own position.
 */
module OfficialCharts {
  import opened Results
  import opened GoText
  import opened Inputs
  import opened Validation
  import opened TaskGroup

  // ---------------------------------------------------------------------------
  // Data model
  // ---------------------------------------------------------------------------

  /** The trend shown beside a song's last-week position. */
  datatype PositionMove = PositionMoveUp | PositionMoveDown | PositionMoveNew

  /** The Go constant of each trend: Up is 1, Down 2, New 3. */
  function MoveCode(m: PositionMove): (c: int)
    ensures 1 <= c <= 3
    ensures m.PositionMoveUp? <==> c == 1
    ensures m.PositionMoveDown? <==> c == 2
  {
    match m
    case PositionMoveUp => 1
    case PositionMoveDown => 2
    case PositionMoveNew => 3
  }

  /** One song's entry in one week's chart. */
  datatype Song = Song(
    artist: string,
    title: string,
    peakPosition: int,
    position: int,
    positionLastWeek: int,
    positionMoved: PositionMove,
    positionReentry: bool,
    weeksOnChart: int,
    recordLabel: string,
    coverImageSmallURL: string,
    coverImageLargeURL: string)

  function Position(s: Song): int {
    s.position
  }

  /** One week's chart; a slot that no song was stored in is Go's nil pointer. */
  datatype Chart = Chart(date: Date, songs: seq<Option<Song>>)

  /** Which numeric field of a row failed to parse, and why. */
  datatype SongError =
    | PositionNotInt(cause: NumError)
    | LastWeekNotInt(cause: NumError)
    | PeakNotInt(cause: NumError)
    | WeeksNotInt(cause: NumError)

  /** The context errors.Wrap puts in front of each field's parse error. */
  function Context(e: SongError): (r: string)
    ensures "converting " <= r
  {
    match e
    case PositionNotInt(_) => "converting position string to integer"
    case LastWeekNotInt(_) => "converting position last week to integer"
    case PeakNotInt(_) => "converting peak position string to integer"
    case WeeksNotInt(_) => "converting weeks on chart string to integer"
  }

  /** Each field has its own context, so the message names the field that failed. */
  lemma ContextNamesField(a: SongError, b: SongError)
    requires Context(a) == Context(b)
    ensures a.PositionNotInt? == b.PositionNotInt? && a.LastWeekNotInt? == b.LastWeekNotInt?
    ensures a.PeakNotInt? == b.PeakNotInt? && a.WeeksNotInt? == b.WeeksNotInt?
  {
    var p, l, k, w := Context(PositionNotInt(ErrSyntax)), Context(LastWeekNotInt(ErrSyntax)),
      Context(PeakNotInt(ErrSyntax)), Context(WeeksNotInt(ErrSyntax));
    assert |p| == 37 && |l| == 40 && |k| == 42 && |w| == 43;
  }

  /** The error of one dispatched unit of row work. */
  datatype TaskError = SongsUninitialised | ProcessingSong(song: SongError)

  /** What GetCharts reports: a bad argument, a failed visit, or the first failed row. */
  datatype ChartError =
    | BadArgument(argument: ArgumentError)
    | Visiting(reason: string)
    | GettingCharts(task: TaskError)

  // ---------------------------------------------------------------------------
  // Row classifier: isSongRow
  // ---------------------------------------------------------------------------

  /**
   * A real chart row has no advertisement inside it and no class of its own;
   * a missing class attribute counts as an empty one.
   */
  function IsSongRow(row: Row): (r: bool)
    ensures r <==> !row.hasAdspace && (row.classAttr == None || row.classAttr == Some(""))
  {
    if row.hasAdspace then false else AttrText(row.classAttr) == ""
  }

  // ---------------------------------------------------------------------------
  // Row extractor: processSongRow
  // ---------------------------------------------------------------------------

  /** The last-week texts that stand for "no position last week". */
  predicate IsLastWeekMarker(t: string) {
    t == "New" || t == "Re"
  }

  /** A trimmed last-week text the extractor accepts: a marker or an int. */
  predicate LastWeekParses(t: string) {
    IsLastWeekMarker(t) || Atoi(t).Ok?
  }

  /** The trend, from the class of the last-week cell: the first marker found wins. */
  function PositionMoved(lastWeekClass: Option<string>): (m: PositionMove)
    ensures m.PositionMoveUp? <==> Contains(AttrText(lastWeekClass), "icon-up")
    ensures m.PositionMoveDown? <==>
      !Contains(AttrText(lastWeekClass), "icon-up") && Contains(AttrText(lastWeekClass), "icon-down")
  {
    var attr := AttrText(lastWeekClass);
    if Contains(attr, "icon-up") then PositionMoveUp
    else if Contains(attr, "icon-down") then PositionMoveDown
    else PositionMoveNew
  }

  /** The large cover image sits at the small one's address with its first "img/small?" made "img/large?". */
  function LargeCoverURL(small: string): (r: string)
    ensures |r| == |small|
    ensures !Contains(small, "img/small?") ==> r == small
  {
    ReplaceFirst(small, "img/small?", "img/large?")
  }

  /**
   * Parses one chart row. Position, peak and weeks are read untrimmed, the
   * last-week text after trimming; the fields are checked in that order
   * (position, last week, peak, weeks) and the first that fails is reported.
   */
  function ProcessSongRow(row: Row): (r: Result<Song, SongError>)
    ensures r.Ok? <==>
      Atoi(row.positionText).Ok? && LastWeekParses(TrimSpace(row.lastWeekText)) &&
      Atoi(row.peakText).Ok? && Atoi(row.weeksText).Ok?
    ensures r.Err? && r.error.PositionNotInt? ==> Atoi(row.positionText) == Err(r.error.cause)
    ensures r.Err? && r.error.LastWeekNotInt? ==>
      var lastWeek := TrimSpace(row.lastWeekText);
      Atoi(row.positionText).Ok? && !IsLastWeekMarker(lastWeek) && Atoi(lastWeek) == Err(r.error.cause)
    ensures r.Err? && r.error.PeakNotInt? ==>
      Atoi(row.positionText).Ok? && LastWeekParses(TrimSpace(row.lastWeekText)) &&
      Atoi(row.peakText) == Err(r.error.cause)
    ensures r.Err? && r.error.WeeksNotInt? ==>
      Atoi(row.positionText).Ok? && LastWeekParses(TrimSpace(row.lastWeekText)) &&
      Atoi(row.peakText).Ok? && Atoi(row.weeksText) == Err(r.error.cause)
    ensures r.Ok? ==>
      Atoi(row.positionText) == Ok(r.value.position) &&
      Atoi(row.peakText) == Ok(r.value.peakPosition) &&
      Atoi(row.weeksText) == Ok(r.value.weeksOnChart)
    ensures r.Ok? ==>
      var lastWeek := TrimSpace(row.lastWeekText);
      (IsLastWeekMarker(lastWeek) ==> r.value.positionLastWeek == -1) &&
      (!IsLastWeekMarker(lastWeek) ==> Atoi(lastWeek) == Ok(r.value.positionLastWeek)) &&
      (r.value.positionReentry <==> lastWeek == "Re")
    ensures r.Ok? ==> r.value.positionMoved == PositionMoved(row.lastWeekClass)
    ensures r.Ok? ==>
      r.value.artist == row.artist && r.value.title == row.title &&
      r.value.recordLabel == row.recordLabel &&
      r.value.coverImageSmallURL == AttrText(row.coverSrc) &&
      r.value.coverImageLargeURL == LargeCoverURL(AttrText(row.coverSrc))
  {
    var pos := Atoi(row.positionText);
    if pos.Err? then Err(PositionNotInt(pos.error))
    else
      var lastWeekText := TrimSpace(row.lastWeekText);
      var lastWeek := if IsLastWeekMarker(lastWeekText) then Ok(-1) else Atoi(lastWeekText);
      if lastWeek.Err? then Err(LastWeekNotInt(lastWeek.error))
      else
        var peak := Atoi(row.peakText);
        if peak.Err? then Err(PeakNotInt(peak.error))
        else
          var weeks := Atoi(row.weeksText);
          if weeks.Err? then Err(WeeksNotInt(weeks.error))
          else
            var cover := AttrText(row.coverSrc);
            Ok(Song(
              artist := row.artist,
              title := row.title,
              peakPosition := peak.value,
              position := pos.value,
              positionLastWeek := lastWeek.value,
              positionMoved := PositionMoved(row.lastWeekClass),
              positionReentry := lastWeekText == "Re",
              weeksOnChart := weeks.value,
              recordLabel := row.recordLabel,
              coverImageSmallURL := cover,
              coverImageLargeURL := LargeCoverURL(cover)))
  }

  /** White space anywhere in the position, peak or weeks text makes the row fail: those texts are not trimmed. */
  lemma PaddedNumberFails(row: Row, i: int)
    requires || (0 <= i < |row.positionText| && IsSpace(row.positionText[i]))
             || (0 <= i < |row.peakText| && IsSpace(row.peakText[i]))
             || (0 <= i < |row.weeksText| && IsSpace(row.weeksText[i]))
    ensures ProcessSongRow(row).Err?
  {
    if 0 <= i < |row.positionText| && IsSpace(row.positionText[i]) {
      AtoiRejectsSpace(row.positionText, i);
    } else if 0 <= i < |row.peakText| && IsSpace(row.peakText[i]) {
      AtoiRejectsSpace(row.peakText, i);
    } else {
      AtoiRejectsSpace(row.weeksText, i);
    }
  }

  /** The row's outcome depends on its last-week text only through that text trimmed. */
  lemma LastWeekTrimmedOnly(row: Row, lastWeekText: string)
    ensures TrimSpace(row.lastWeekText) == TrimSpace(lastWeekText) ==>
      ProcessSongRow(row) == ProcessSongRow(row.(lastWeekText := lastWeekText))
  {
    var row' := row.(lastWeekText := lastWeekText);
    if TrimSpace(row.lastWeekText) == TrimSpace(lastWeekText) {
      assert row'.lastWeekText == lastWeekText;
      assert TrimSpace(row'.lastWeekText) == TrimSpace(row.lastWeekText);
      assert row'.positionText == row.positionText && row'.peakText == row.peakText;
      assert row'.weeksText == row.weeksText && row'.lastWeekClass == row.lastWeekClass;
      assert row'.artist == row.artist && row'.title == row.title && row'.recordLabel == row.recordLabel;
      assert row'.coverSrc == row.coverSrc;
    }
  }

  /** White space around the last-week text does not matter: the row parses as if it were absent. */
  lemma LastWeekPaddingIgnored(row: Row, pre: string, t: string, post: string)
    requires row.lastWeekText == pre + t + post
    requires AllSpace(pre) && AllSpace(post) && Trimmed(t)
    ensures ProcessSongRow(row) == ProcessSongRow(row.(lastWeekText := t))
  {
    TrimSpacePadded(pre, t, post);
    TrimSpacePadded([], t, []);
    assert [] + t + [] == t;
    LastWeekTrimmedOnly(row, t);
  }

  /**
   * A parsed song has last week's position -1 exactly when its trimmed
   * last-week text is "New" or "Re", or is an integer text of value -1; it is
   * a re-entry exactly when that text is "Re".
   */
  lemma LastWeekSentinel(row: Row)
    ensures ProcessSongRow(row).Ok? ==>
      var s, lastWeek := ProcessSongRow(row).value, TrimSpace(row.lastWeekText);
      (s.positionLastWeek == -1 <==> IsLastWeekMarker(lastWeek) || Atoi(lastWeek) == Ok(-1)) &&
      (s.positionReentry ==> s.positionLastWeek == -1)
  {
  }

  /** A row whose trimmed last-week text is "Re" is a re-entry with no position last week. */
  lemma ReentryAccepted(row: Row)
    requires TrimSpace(row.lastWeekText) == "Re"
    requires Atoi(row.positionText).Ok? && Atoi(row.peakText).Ok? && Atoi(row.weeksText).Ok?
    ensures ProcessSongRow(row).Ok?
    ensures ProcessSongRow(row).value.positionLastWeek == -1 && ProcessSongRow(row).value.positionReentry
  {
  }

  /** The large cover URL differs from the small one exactly when the small one holds "img/small?"; no image gives no URL. */
  lemma CoverURLs(row: Row)
    ensures ProcessSongRow(row).Ok? ==>
      var s := ProcessSongRow(row).value;
      (s.coverImageLargeURL != s.coverImageSmallURL <==> Contains(s.coverImageSmallURL, "img/small?")) &&
      (s.coverImageSmallURL == "" ==> s.coverImageLargeURL == "")
  {
    var small := AttrText(row.coverSrc);
    ReplaceFirstChanges(small, "img/small?", "img/large?");
    if small == "" {
      assert !OccursAt(small, "img/small?", 0);
    }
  }

  // ---------------------------------------------------------------------------
  // Argument validation
  // ---------------------------------------------------------------------------

  /**
   * The checks GetCharts makes before any fetch, in order: day in [1, 31],
   * month in [1, 12], year in [1952, currentYear]. The first failing check is
   * reported with the value given.
   */
  function ValidateArgs(day: int, month: int, year: int, currentYear: int): (r: Option<ArgumentError>)
    ensures r == None <==> 1 <= day <= 31 && 1 <= month <= 12 && 1952 <= year <= currentYear
    ensures r == Some(InvalidDay(day)) <==> !(1 <= day <= 31)
    ensures r == Some(InvalidMonth(month)) <==> 1 <= day <= 31 && !(1 <= month <= 12)
    ensures r == Some(InvalidYear(year)) <==>
      1 <= day <= 31 && 1 <= month <= 12 && !(1952 <= year <= currentYear)
  {
    if day < 1 || day > 31 then Some(InvalidDay(day))
    else if month < 1 || month > 12 then Some(InvalidMonth(month))
    else if year < 1952 || year > currentYear then Some(InvalidYear(year))
    else None
  }

  /** The argument cases of the package's tests; their messages are proved in Validation. */
  lemma ArgumentTestCases(currentYear: int)
    ensures ValidateArgs(1, 1, 1950, currentYear) == Some(InvalidYear(1950))
    ensures ValidateArgs(1, 100, 1950, currentYear) == Some(InvalidMonth(100))
    ensures ValidateArgs(50, 1, 1952, currentYear) == Some(InvalidDay(50))
  {
  }

  // ---------------------------------------------------------------------------
  // Chart assembly: GetCharts
  // ---------------------------------------------------------------------------

  /** The number of rows of one table body that the classifier accepts. */
  function SongRowCount(rows: seq<Row>): (r: nat)
    ensures r <= |rows|
  {
    if rows == [] then 0
    else SongRowCount(rows[..|rows| - 1]) + if IsSongRow(rows[|rows| - 1]) then 1 else 0
  }

  /** SongRowCount is the number of accepted row indices. */
  lemma {:induction false} SongRowCountIsCardinality(rows: seq<Row>)
    ensures SongRowCount(rows) == |set k | 0 <= k < |rows| && IsSongRow(rows[k])|
  {
    if rows != [] {
      var last := |rows| - 1;
      var init := rows[..last];
      SongRowCountIsCardinality(init);
      var before := set k | 0 <= k < |init| && IsSongRow(init[k]);
      var after := set k | 0 <= k < |rows| && IsSongRow(rows[k]);
      if IsSongRow(rows[last]) {
        assert after == before + {last};
      } else {
        assert after == before;
      }
    }
  }

  /** The table-body callback's counting loop. */
  method CountSongRows(rows: seq<Row>) returns (size: nat)
    ensures size == SongRowCount(rows)
  {
    size := 0;
    for i := 0 to |rows|
      invariant size == SongRowCount(rows[..i])
    {
      assert rows[..i + 1][..i] == rows[..i];
      if IsSongRow(rows[i]) {
        size := size + 1;
      }
    }
    assert rows[..|rows|] == rows;
  }

  /** The length of the result slice: the accepted rows of the first table body (nil when there is none). */
  function ChartSize(doc: Document): nat {
    if |doc.tbodies| > 0 then SongRowCount(doc.tbodies[0]) else 0
  }

  /**
   * What the row callback leads to for one row: before the slice is sized, a
   * unit that fails; otherwise nothing for a rejected row, and for an accepted
   * row a unit that yields the parsed song or fails with its error.
   */
  function RowTask(sized: bool, row: Row): (r: Outcome<Song, TaskError>)
    ensures !sized ==> r == Failed(SongsUninitialised)
    ensures r.Skipped? <==> sized && !IsSongRow(row)
    ensures r.Done? ==> ProcessSongRow(row) == Ok(r.value)
    ensures sized && r.Failed? ==> r.error.ProcessingSong? && ProcessSongRow(row) == Err(r.error.song)
  {
    if !sized then Failed(SongsUninitialised)
    else if !IsSongRow(row) then Skipped
    else match ProcessSongRow(row)
      case Ok(s) => Done(s)
      case Err(e) => Failed(ProcessingSong(e))
  }

  function Tasks(sized: bool, rows: seq<Row>): seq<Outcome<Song, TaskError>> {
    seq(|rows|, k requires 0 <= k < |rows| => RowTask(sized, rows[k]))
  }

  /** Every song the rows yield has a position the result slice can hold (Go panics otherwise). */
  predicate SongsFit(doc: Document) {
    Fits(Successes(Tasks(|doc.tbodies| > 0, doc.rows)), ChartSize(doc), Position)
  }

  /**
   * The outcome of GetCharts: an argument error before any visit; the
   * collector's error; the first failed row's error; or the chart whose slots
   * hold the parsed songs, each at its position minus one.
   */
  function ChartsOf(day: int, month: int, year: int, currentYear: int, visit: Visit): (r: Result<Chart, ChartError>)
    requires ValidateArgs(day, month, year, currentYear) == None && visit.Visited? ==> SongsFit(visit.doc)
    ensures r.Ok? <==> (ValidateArgs(day, month, year, currentYear) == None && visit.Visited? &&
      FirstFailure(Tasks(|visit.doc.tbodies| > 0, visit.doc.rows)) == None)
    ensures r.Ok? ==> r.value.date == Date(year, month, day) && |r.value.songs| == ChartSize(visit.doc)
    ensures r.Ok? ==> forall i :: 0 <= i < |r.value.songs| && r.value.songs[i].Some? ==>
      r.value.songs[i].value.position == i + 1
  {
    match ValidateArgs(day, month, year, currentYear)
    case Some(e) => Err(BadArgument(e))
    case None =>
      match visit
      case VisitFailed(reason) => Err(Visiting(reason))
      case Visited(doc) =>
        var outs := Tasks(|doc.tbodies| > 0, doc.rows);
        match FirstFailure(outs)
        case Some(e) => Err(GettingCharts(e))
        case None => Ok(Chart(Date(year, month, day), Placed(ChartSize(doc), Successes(outs), Position)))
  }

  /**
   * The table-body callback over every table body: the first sizes the result
   * slice by its accepted rows and detaches the callback, so later ones do
   * nothing. With no table body the slice stays nil.
   */
  method SizeChart(tbodies: seq<seq<Row>>) returns (songs: array?<Option<Song>>)
    ensures songs == null <==> tbodies == []
    ensures songs != null ==> fresh(songs) && songs.Length == SongRowCount(tbodies[0])
    ensures songs != null ==> forall k :: 0 <= k < songs.Length ==> songs[k].None?
  {
    songs := null;
    var detached := false;
    for t := 0 to |tbodies|
      invariant detached <==> t > 0
      invariant songs == null <==> !detached
      invariant songs != null ==> fresh(songs) && songs.Length == SongRowCount(tbodies[0])
      invariant songs != null ==> forall k :: 0 <= k < songs.Length ==> songs[k].None?
    {
      if !detached {
        var size := CountSongRows(tbodies[t]);
        songs := new Option<Song>[size](_ => None);
        detached := true;
      }
    }
  }

  /**
   * The row callback over every row, with each dispatched unit of work run at
   * once: before the slice is sized every row fails, afterwards an accepted
   * row's song is stored at its position minus one. The first error is kept.
   */
  method RunRows(songs: array?<Option<Song>>, rows: seq<Row>, ghost n: nat) returns (firstError: Option<TaskError>)
    requires songs != null ==> songs.Length == n && forall k :: 0 <= k < n ==> songs[k].None?
    requires Fits(Successes(Tasks(songs != null, rows)), n, Position)
    modifies songs
    ensures firstError == FirstFailure(Tasks(songs != null, rows))
    ensures songs != null ==> songs[..] == Placed(n, Successes(Tasks(true, rows)), Position)
    ensures songs == null ==> Successes(Tasks(false, rows)) == []
  {
    ghost var outs := Tasks(songs != null, rows);
    firstError := None;
    assert outs[..0] == [];
    if songs != null {
      assert songs[..] == Placed(n, [], Position);
    }
    for i := 0 to |rows|
      invariant firstError == FirstFailure(outs[..i])
      invariant Fits(Successes(outs[..i]), n, Position)
      invariant songs != null ==> songs[..] == Placed(n, Successes(outs[..i]), Position)
    {
      Step(n, outs, i, Position);
      if songs == null {
        assert outs[i] == Failed(SongsUninitialised);
        if firstError.None? {
          firstError := Some(SongsUninitialised);
        }
      } else {
        var task := RowTask(true, rows[i]);
        assert task == outs[i];
        match task
        case Skipped =>
        case Failed(e) =>
          if firstError.None? {
            firstError := Some(e);
          }
        case Done(song) =>
          Store(songs, song, Position, n, Successes(outs[..i]));
      }
    }
    assert outs[..|rows|] == outs;
    if songs == null {
      NoSuccessUnsized(rows);
    }
  }

  /**
   * GetCharts, with the collector's callbacks run in the order it runs them:
   * the table-body callback over every table body, then the row callback over
   * every row.
   */
  method GetCharts(day: int, month: int, year: int, currentYear: int, visit: Visit)
    returns (res: Result<Chart, ChartError>)
    requires ValidateArgs(day, month, year, currentYear) == None && visit.Visited? ==> SongsFit(visit.doc)
    ensures res == ChartsOf(day, month, year, currentYear, visit)
    ensures res.Ok? ==> visit.Visited? && |res.value.songs| == ChartSize(visit.doc)
    ensures res.Ok? ==> forall i :: 0 <= i < |res.value.songs| && res.value.songs[i].Some? ==>
      res.value.songs[i].value.position == i + 1
    ensures res.Ok? ==> res.value.date == Date(year, month, day)
  {
    var invalid := ValidateArgs(day, month, year, currentYear);
    if invalid.Some? {
      return Err(BadArgument(invalid.value));
    }
    if visit.VisitFailed? {
      return Err(Visiting(visit.reason));
    }
    var doc := visit.doc;
    var songs := SizeChart(doc.tbodies);
    var firstError := RunRows(songs, doc.rows, ChartSize(doc));
    if firstError.Some? {
      return Err(GettingCharts(firstError.value));
    }
    var slots := if songs == null then [] else songs[..];
    return Ok(Chart(Date(year, month, day), slots));
  }

  /** The arguments are checked before the page is visited: a bad argument is reported whatever the page. */
  lemma ArgumentsCheckedFirst(day: int, month: int, year: int, currentYear: int, visit: Visit)
    requires ValidateArgs(day, month, year, currentYear).Some?
    ensures ChartsOf(day, month, year, currentYear, visit) ==
      Err(BadArgument(ValidateArgs(day, month, year, currentYear).value))
  {
  }

  /** With valid arguments, a failed visit is reported as the visiting error, before any row is waited for. */
  lemma VisitErrorReported(day: int, month: int, year: int, currentYear: int, reason: string)
    requires ValidateArgs(day, month, year, currentYear) == None
    ensures ChartsOf(day, month, year, currentYear, VisitFailed(reason)) == Err(Visiting(reason))
  {
  }

  /** Any failing row fails the whole call, with no chart; the error is that of the first failing row. */
  lemma RowErrorFailsChart(day: int, month: int, year: int, currentYear: int, doc: Document, k: int)
    requires ValidateArgs(day, month, year, currentYear) == None && SongsFit(doc)
    requires 0 <= k < |doc.rows|
    requires RowTask(|doc.tbodies| > 0, doc.rows[k]).Failed?
    requires forall j :: 0 <= j < k ==> !RowTask(|doc.tbodies| > 0, doc.rows[j]).Failed?
    ensures ChartsOf(day, month, year, currentYear, Visited(doc)) ==
      Err(GettingCharts(RowTask(|doc.tbodies| > 0, doc.rows[k]).error))
  {
    var outs := Tasks(|doc.tbodies| > 0, doc.rows);
    FirstFailureIsFirst(outs, k);
  }

  /** A page with rows but no table body fails with the uninitialised-slice error. */
  lemma NoTableBodyFails(day: int, month: int, year: int, currentYear: int, doc: Document)
    requires ValidateArgs(day, month, year, currentYear) == None
    requires doc.tbodies == [] && doc.rows != []
    ensures SongsFit(doc) &&
      ChartsOf(day, month, year, currentYear, Visited(doc)) == Err(GettingCharts(SongsUninitialised))
  {
    var outs := Tasks(false, doc.rows);
    assert Successes(outs) == [] by {
      NoSuccessUnsized(doc.rows);
    }
    RowErrorFailsChart(day, month, year, currentYear, doc, 0);
  }

  lemma {:induction false} NoSuccessUnsized(rows: seq<Row>)
    ensures Successes(Tasks(false, rows)) == []
  {
    if rows != [] {
      var init := rows[..|rows| - 1];
      NoSuccessUnsized(init);
      assert Tasks(false, rows)[..|rows| - 1] == Tasks(false, init);
    }
  }

  /** A rejected row in a sized chart changes nothing: the result is that of the page without it. */
  lemma RejectedRowIgnored(day: int, month: int, year: int, currentYear: int, doc: Document, k: int)
    requires ValidateArgs(day, month, year, currentYear) == None && SongsFit(doc)
    requires |doc.tbodies| > 0 && 0 <= k < |doc.rows| && !IsSongRow(doc.rows[k])
    ensures var doc' := doc.(rows := doc.rows[..k] + doc.rows[k + 1..]);
      SongsFit(doc') &&
      ChartsOf(day, month, year, currentYear, Visited(doc)) == ChartsOf(day, month, year, currentYear, Visited(doc'))
  {
    var rows' := doc.rows[..k] + doc.rows[k + 1..];
    var doc' := doc.(rows := rows');
    var outs, outs' := Tasks(true, doc.rows), Tasks(true, rows');
    assert outs[k] == Skipped;
    TasksWithout(true, doc.rows, k);
    SkippedIgnored(outs, k);
    assert ChartSize(doc') == ChartSize(doc);
  }

  /** Dropping a row drops just its outcome. */
  lemma TasksWithout(sized: bool, rows: seq<Row>, k: int)
    requires 0 <= k < |rows|
    ensures Tasks(sized, rows[..k] + rows[k + 1..]) == Tasks(sized, rows)[..k] + Tasks(sized, rows)[k + 1..]
  {
    var rows' := rows[..k] + rows[k + 1..];
    var outs, outs' := Tasks(sized, rows), Tasks(sized, rows');
    assert |outs'| == |outs[..k] + outs[k + 1..]|;
    forall j | 0 <= j < |outs'|
      ensures outs'[j] == (outs[..k] + outs[k + 1..])[j]
    {
      var source := if j < k then j else j + 1;
      assert rows'[j] == rows[source];
      assert outs'[j] == RowTask(sized, rows'[j]);
      assert outs[source] == RowTask(sized, rows[source]);
      assert (outs[..k] + outs[k + 1..])[j] == outs[source];
    }
  }

  /** Every accepted row that parses has its song's position filled in the chart, by a song of that position. */
  lemma RowSongSlotFilled(day: int, month: int, year: int, currentYear: int, doc: Document, k: int)
    requires ValidateArgs(day, month, year, currentYear) == None && SongsFit(doc)
    requires |doc.tbodies| > 0 && 0 <= k < |doc.rows| && IsSongRow(doc.rows[k])
    ensures ProcessSongRow(doc.rows[k]).Ok? && ChartsOf(day, month, year, currentYear, Visited(doc)).Ok? ==>
      var p, songs := ProcessSongRow(doc.rows[k]).value.position, ChartsOf(day, month, year, currentYear, Visited(doc)).value.songs;
      1 <= p <= |songs| && songs[p - 1].Some? && songs[p - 1].value.position == p
  {
    if ProcessSongRow(doc.rows[k]).Ok? && ChartsOf(day, month, year, currentYear, Visited(doc)).Ok? {
      var outs := Tasks(|doc.tbodies| > 0, doc.rows);
      assert outs[k] == RowTask(true, doc.rows[k]) == Done(ProcessSongRow(doc.rows[k]).value);
      DoneSongPlaced(ChartSize(doc), outs, k);
      ChartIsPlaced(day, month, year, currentYear, doc);
    }
  }

  /**
   * The song of a unit that succeeds fills the slot of its position in the
   * stored slice. This is `TaskGroup.DoneSlotFilled` at this module's `Song`
   * type, over an abstract outcome list: applied directly to the rows' tasks,
   * the generic lemma makes the solver unfold every row's parse, so each chart
   * module keeps its own instance.
   */
  lemma DoneSongPlaced(n: nat, outs: seq<Outcome<Song, TaskError>>, k: int)
    requires Fits(Successes(outs), n, Position) && 0 <= k < |outs| && outs[k].Done?
    ensures var p, songs := outs[k].value.position, Placed(n, Successes(outs), Position);
      1 <= p <= |songs| && songs[p - 1].Some? && songs[p - 1].value.position == p
  {
    DoneSlotFilled(n, outs, Position, k);
  }

  /** A returned chart is the pre-sized slice after storing every parsed song. */
  lemma ChartIsPlaced(day: int, month: int, year: int, currentYear: int, doc: Document)
    requires ValidateArgs(day, month, year, currentYear) == None && SongsFit(doc)
    ensures ChartsOf(day, month, year, currentYear, Visited(doc)).Ok? ==>
      ChartsOf(day, month, year, currentYear, Visited(doc)).value.songs ==
      Placed(ChartSize(doc), Successes(Tasks(|doc.tbodies| > 0, doc.rows)), Position)
  {
  }
}
