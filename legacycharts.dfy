/**
 * main.go: the earlier version of the same scraper. It classifies rows and
 * reads the trend exactly as officialcharts.go does (the functions are shared),
 * but its Song has no peak position, re-entry flag or cover images, only
 * "New" stands for "no position last week", its day and month checks reject
 * only zero and too-large values, the table-body callback guards itself with
 * an `initialised` flag, and the row callback has no check for an unsized slice.
 */
module LegacyCharts {
  import opened Results
  import opened GoText
  import opened Inputs
  import opened Validation
  import opened TaskGroup
  import OfficialCharts

  // ---------------------------------------------------------------------------
  // Data model
  // ---------------------------------------------------------------------------

  /** One song's entry in one week's chart, without peak, re-entry or covers. */
  datatype Song = Song(
    artist: string,
    title: string,
    position: int,
    positionLastWeek: int,
    positionMoved: OfficialCharts.PositionMove,
    weeksOnChart: int,
    recordLabel: string)

  function Position(s: Song): int {
    s.position
  }

  datatype Chart = Chart(date: Date, songs: seq<Option<Song>>)

  datatype SongError =
    | PositionNotInt(cause: NumError)
    | LastWeekNotInt(cause: NumError)
    | WeeksNotInt(cause: NumError)

  datatype ChartError =
    | BadArgument(argument: ArgumentError)
    | Visiting(reason: string)
    | GettingCharts(song: SongError)

  /** The context errors.Wrap puts in front of each field's parse error. */
  function Context(e: SongError): (r: string)
    ensures "casting " <= r
  {
    match e
    case PositionNotInt(_) => "casting position string to integer"
    case LastWeekNotInt(_) => "casting position last week to integer"
    case WeeksNotInt(_) => "casting position string to integer"
  }

  /** A bad weeks count is reported with the context of a bad position: the message cannot tell the two apart. */
  lemma WeeksErrorReadsAsPosition(c: NumError)
    ensures Context(WeeksNotInt(c)) == Context(PositionNotInt(c))
    ensures WeeksNotInt(c) != PositionNotInt(c)
  {
  }

  // ---------------------------------------------------------------------------
  // Row extractor: processSong
  // ---------------------------------------------------------------------------

  /**
   * Parses one chart row: position untrimmed, then the trimmed last-week text
   * ("New" or an int), then weeks untrimmed; the first that fails is reported.
   */
  function ProcessSong(row: Row): (r: Result<Song, SongError>)
    ensures r.Ok? <==>
      Atoi(row.positionText).Ok? &&
      (TrimSpace(row.lastWeekText) == "New" || Atoi(TrimSpace(row.lastWeekText)).Ok?) &&
      Atoi(row.weeksText).Ok?
    ensures r.Err? && r.error.PositionNotInt? ==> Atoi(row.positionText) == Err(r.error.cause)
    ensures r.Err? && r.error.LastWeekNotInt? ==>
      var lastWeek := TrimSpace(row.lastWeekText);
      Atoi(row.positionText).Ok? && lastWeek != "New" && Atoi(lastWeek) == Err(r.error.cause)
    ensures r.Err? && r.error.WeeksNotInt? ==>
      Atoi(row.positionText).Ok? &&
      (TrimSpace(row.lastWeekText) == "New" || Atoi(TrimSpace(row.lastWeekText)).Ok?) &&
      Atoi(row.weeksText) == Err(r.error.cause)
    ensures r.Ok? ==>
      var lastWeek := TrimSpace(row.lastWeekText);
      Atoi(row.positionText) == Ok(r.value.position) &&
      Atoi(row.weeksText) == Ok(r.value.weeksOnChart) &&
      (lastWeek == "New" ==> r.value.positionLastWeek == -1) &&
      (lastWeek != "New" ==> Atoi(lastWeek) == Ok(r.value.positionLastWeek))
    ensures r.Ok? ==>
      r.value.positionMoved == OfficialCharts.PositionMoved(row.lastWeekClass) &&
      r.value.artist == row.artist && r.value.title == row.title &&
      r.value.recordLabel == row.recordLabel
  {
    var pos := Atoi(row.positionText);
    if pos.Err? then Err(PositionNotInt(pos.error))
    else
      var lastWeekText := TrimSpace(row.lastWeekText);
      var lastWeek := if lastWeekText == "New" then Ok(-1) else Atoi(lastWeekText);
      if lastWeek.Err? then Err(LastWeekNotInt(lastWeek.error))
      else
        var weeks := Atoi(row.weeksText);
        if weeks.Err? then Err(WeeksNotInt(weeks.error))
        else
          Ok(Song(
            artist := row.artist,
            title := row.title,
            position := pos.value,
            positionLastWeek := lastWeek.value,
            positionMoved := OfficialCharts.PositionMoved(row.lastWeekClass),
            weeksOnChart := weeks.value,
            recordLabel := row.recordLabel))
  }

  /** A re-entry row fails: "Re" is neither "New" nor an integer. */
  lemma ReentryRowFails(row: Row)
    requires Atoi(row.positionText).Ok? && TrimSpace(row.lastWeekText) == "Re"
    ensures ProcessSong(row) == Err(LastWeekNotInt(ErrSyntax))
  {
    AtoiRejectsLeadingNonDigit("Re");
  }

  /** Wherever both variants parse a row, they agree on the fields main.go's Song has. */
  lemma AgreesWithOfficial(row: Row)
    ensures ProcessSong(row).Ok? && OfficialCharts.ProcessSongRow(row).Ok? ==>
      var s, t := ProcessSong(row).value, OfficialCharts.ProcessSongRow(row).value;
      s == Song(t.artist, t.title, t.position, t.positionLastWeek, t.positionMoved, t.weeksOnChart, t.recordLabel)
  {
    AtoiRejectsLeadingNonDigit("Re");
  }

  // ---------------------------------------------------------------------------
  // Argument validation
  // ---------------------------------------------------------------------------

  /** The checks as main.go writes them: a day or month is rejected only when zero or too large. */
  function ValidateArgs(day: int, month: int, year: int, currentYear: int): (r: Option<ArgumentError>)
    ensures r == None <==> day != 0 && day <= 31 && month != 0 && month <= 12 && 1952 <= year <= currentYear
    ensures r == Some(InvalidDay(day)) <==> day == 0 || day > 31
    ensures r == Some(InvalidMonth(month)) <==> day != 0 && day <= 31 && (month == 0 || month > 12)
    ensures r == Some(InvalidYear(year)) <==>
      day != 0 && day <= 31 && month != 0 && month <= 12 && !(1952 <= year <= currentYear)
  {
    if day == 0 || day > 31 then Some(InvalidDay(day))
    else if month == 0 || month > 12 then Some(InvalidMonth(month))
    else if year < 1952 || year > currentYear then Some(InvalidYear(year))
    else None
  }

  /** A negative day or month passes validation here, while officialcharts.go rejects it. */
  lemma NegativeDateAccepted(currentYear: int)
    requires currentYear >= 2000
    ensures ValidateArgs(-5, -3, 2000, currentYear) == None
    ensures OfficialCharts.ValidateArgs(-5, -3, 2000, currentYear) == Some(InvalidDay(-5))
  {
  }

  /** On every day and month that is not negative, both variants decide alike. */
  lemma ValidationAgreesOnNaturals(day: nat, month: nat, year: int, currentYear: int)
    ensures ValidateArgs(day, month, year, currentYear) == OfficialCharts.ValidateArgs(day, month, year, currentYear)
  {
  }

  // ---------------------------------------------------------------------------
  // Chart assembly: GetCharts
  // ---------------------------------------------------------------------------

  /** What the row callback leads to for one row: nothing for a rejected row, else the parsed song or its error. */
  function RowTask(row: Row): (r: Outcome<Song, SongError>)
    ensures r.Skipped? <==> !OfficialCharts.IsSongRow(row)
    ensures r.Done? ==> ProcessSong(row) == Ok(r.value)
    ensures r.Failed? ==> ProcessSong(row) == Err(r.error)
  {
    if !OfficialCharts.IsSongRow(row) then Skipped
    else match ProcessSong(row)
      case Ok(s) => Done(s)
      case Err(e) => Failed(e)
  }

  function Tasks(rows: seq<Row>): seq<Outcome<Song, SongError>> {
    seq(|rows|, k requires 0 <= k < |rows| => RowTask(rows[k]))
  }

  /**
   * Every song the rows yield has a position the slice can hold. Without a
   * table body the slice is nil, so then no row may yield a song (Go panics).
   */
  predicate SongsFit(doc: Document) {
    Fits(Successes(Tasks(doc.rows)), OfficialCharts.ChartSize(doc), Position)
  }

  /** The outcome of main.go's GetCharts. */
  function ChartsOf(day: int, month: int, year: int, currentYear: int, visit: Visit): (r: Result<Chart, ChartError>)
    requires ValidateArgs(day, month, year, currentYear) == None && visit.Visited? ==> SongsFit(visit.doc)
    ensures r.Ok? <==> (ValidateArgs(day, month, year, currentYear) == None && visit.Visited? &&
      FirstFailure(Tasks(visit.doc.rows)) == None)
    ensures r.Ok? ==> r.value.date == Date(year, month, day) && |r.value.songs| == OfficialCharts.ChartSize(visit.doc)
    ensures r.Ok? ==> forall i :: 0 <= i < |r.value.songs| && r.value.songs[i].Some? ==>
      r.value.songs[i].value.position == i + 1
  {
    match ValidateArgs(day, month, year, currentYear)
    case Some(e) => Err(BadArgument(e))
    case None =>
      match visit
      case VisitFailed(reason) => Err(Visiting(reason))
      case Visited(doc) =>
        var outs := Tasks(doc.rows);
        match FirstFailure(outs)
        case Some(e) => Err(GettingCharts(e))
        case None =>
          Ok(Chart(Date(year, month, day), Placed(OfficialCharts.ChartSize(doc), Successes(outs), Position)))
  }

  /**
   * The table-body callback over every table body: the first sets the
   * `initialised` flag and sizes the slice; later ones return at once.
   */
  method SizeChart(tbodies: seq<seq<Row>>) returns (songs: array?<Option<Song>>)
    ensures songs == null <==> tbodies == []
    ensures songs != null ==> fresh(songs) && songs.Length == OfficialCharts.SongRowCount(tbodies[0])
    ensures songs != null ==> forall k :: 0 <= k < songs.Length ==> songs[k].None?
  {
    songs := null;
    var initialised := false;
    for t := 0 to |tbodies|
      invariant initialised <==> t > 0
      invariant songs == null <==> !initialised
      invariant songs != null ==> fresh(songs) && songs.Length == OfficialCharts.SongRowCount(tbodies[0])
      invariant songs != null ==> forall k :: 0 <= k < songs.Length ==> songs[k].None?
    {
      if initialised {
        continue;
      }
      initialised := true;
      var size := OfficialCharts.CountSongRows(tbodies[t]);
      songs := new Option<Song>[size](_ => None);
    }
  }

  /** The row callback over every row, with each dispatched unit run at once and the first error kept. */
  method RunRows(songs: array?<Option<Song>>, rows: seq<Row>, ghost n: nat) returns (firstError: Option<SongError>)
    requires songs != null ==> songs.Length == n && forall k :: 0 <= k < n ==> songs[k].None?
    requires songs == null ==> n == 0
    requires Fits(Successes(Tasks(rows)), n, Position)
    modifies songs
    ensures firstError == FirstFailure(Tasks(rows))
    ensures songs != null ==> songs[..] == Placed(n, Successes(Tasks(rows)), Position)
  {
    ghost var outs := Tasks(rows);
    firstError := None;
    assert outs[..0] == [];
    if songs != null {
      assert songs[..] == Placed(n, [], Position);
    }
    for i := 0 to |rows|
      invariant firstError == FirstFailure(outs[..i])
      invariant Fits(Successes(outs[..i]), n, Position)
      invariant songs != null ==> songs[..] == Placed(n, Successes(outs[..i]), Position)
    {
      Step(n, outs, i, Position);
      var task := RowTask(rows[i]);
      assert task == outs[i];
      match task
      case Skipped =>
      case Failed(e) =>
        if firstError.None? {
          firstError := Some(e);
        }
      case Done(song) =>
        Store(songs, song, Position, n, Successes(outs[..i]));
    }
    assert outs[..|rows|] == outs;
  }

  /** main.go's GetCharts, with the callbacks run in the collector's order. */
  method GetCharts(day: int, month: int, year: int, currentYear: int, visit: Visit)
    returns (res: Result<Chart, ChartError>)
    requires ValidateArgs(day, month, year, currentYear) == None && visit.Visited? ==> SongsFit(visit.doc)
    ensures res == ChartsOf(day, month, year, currentYear, visit)
    ensures res.Ok? ==> visit.Visited? && |res.value.songs| == OfficialCharts.ChartSize(visit.doc)
    ensures res.Ok? ==> forall i :: 0 <= i < |res.value.songs| && res.value.songs[i].Some? ==>
      res.value.songs[i].value.position == i + 1
    ensures res.Ok? ==> res.value.date == Date(year, month, day)
  {
    var invalid := ValidateArgs(day, month, year, currentYear);
    if invalid.Some? {
      return Err(BadArgument(invalid.value));
    }
    if visit.VisitFailed? {
      return Err(Visiting(visit.reason));
    }
    var doc := visit.doc;
    var songs := SizeChart(doc.tbodies);
    var firstError := RunRows(songs, doc.rows, OfficialCharts.ChartSize(doc));
    if firstError.Some? {
      return Err(GettingCharts(firstError.value));
    }
    var slots := if songs == null then [] else songs[..];
    return Ok(Chart(Date(year, month, day), slots));
  }

  /** The arguments are checked before the page is visited: a bad argument is reported whatever the page. */
  lemma ArgumentsCheckedFirst(day: int, month: int, year: int, currentYear: int, visit: Visit)
    requires ValidateArgs(day, month, year, currentYear).Some?
    ensures ChartsOf(day, month, year, currentYear, visit) ==
      Err(BadArgument(ValidateArgs(day, month, year, currentYear).value))
  {
  }

  /** With main.go's checks passed, a failed visit is reported as the visiting error, before any row is waited for. */
  lemma VisitErrorReported(day: int, month: int, year: int, currentYear: int, reason: string)
    requires ValidateArgs(day, month, year, currentYear) == None
    ensures ChartsOf(day, month, year, currentYear, VisitFailed(reason)) == Err(Visiting(reason))
  {
  }

  /** Any failing row fails the whole call; the error is that of the first failing row. */
  lemma RowErrorFailsChart(day: int, month: int, year: int, currentYear: int, doc: Document, k: int)
    requires ValidateArgs(day, month, year, currentYear) == None && SongsFit(doc)
    requires 0 <= k < |doc.rows| && RowTask(doc.rows[k]).Failed?
    requires forall j :: 0 <= j < k ==> !RowTask(doc.rows[j]).Failed?
    ensures ChartsOf(day, month, year, currentYear, Visited(doc)) == Err(GettingCharts(RowTask(doc.rows[k]).error))
  {
    FirstFailureIsFirst(Tasks(doc.rows), k);
  }

  /**
   * Without a table body and without a failing row, the call succeeds with an
   * empty chart; officialcharts.go fails the same page when it has any row.
   */
  lemma NoTableBodyEmptyChart(day: int, month: int, year: int, currentYear: int, doc: Document)
    requires ValidateArgs(day, month, year, currentYear) == None && SongsFit(doc)
    requires doc.tbodies == []
    requires forall k :: 0 <= k < |doc.rows| ==> !RowTask(doc.rows[k]).Failed?
    ensures ChartsOf(day, month, year, currentYear, Visited(doc)) == Ok(Chart(Date(year, month, day), []))
  {
    NoFailure(Tasks(doc.rows));
  }

  /** Every accepted row that parses has its song's position filled in the chart, by a song of that position. */
  lemma RowSongSlotFilled(day: int, month: int, year: int, currentYear: int, doc: Document, k: int)
    requires ValidateArgs(day, month, year, currentYear) == None && SongsFit(doc)
    requires 0 <= k < |doc.rows| && OfficialCharts.IsSongRow(doc.rows[k])
    ensures ProcessSong(doc.rows[k]).Ok? && ChartsOf(day, month, year, currentYear, Visited(doc)).Ok? ==>
      var p, songs := ProcessSong(doc.rows[k]).value.position, ChartsOf(day, month, year, currentYear, Visited(doc)).value.songs;
      1 <= p <= |songs| && songs[p - 1].Some? && songs[p - 1].value.position == p
  {
    if ProcessSong(doc.rows[k]).Ok? && ChartsOf(day, month, year, currentYear, Visited(doc)).Ok? {
      assert Tasks(doc.rows)[k] == RowTask(doc.rows[k]) == Done(ProcessSong(doc.rows[k]).value);
      DoneSongPlaced(OfficialCharts.ChartSize(doc), Tasks(doc.rows), k);
      ChartIsPlaced(day, month, year, currentYear, doc);
    }
  }

  /**
   * The song of a unit that succeeds fills the slot of its position in the
   * stored slice. This is `TaskGroup.DoneSlotFilled` at this module's `Song`
   * type, over an abstract outcome list: applied directly to the rows' tasks,
   * the generic lemma makes the solver unfold every row's parse, so each chart
   * module keeps its own instance.
   */
  lemma DoneSongPlaced(n: nat, outs: seq<Outcome<Song, SongError>>, k: int)
    requires Fits(Successes(outs), n, Position) && 0 <= k < |outs| && outs[k].Done?
    ensures var p, songs := outs[k].value.position, Placed(n, Successes(outs), Position);
      1 <= p <= |songs| && songs[p - 1].Some? && songs[p - 1].value.position == p
  {
    DoneSlotFilled(n, outs, Position, k);
  }

  /** A returned chart is the pre-sized slice after storing every parsed song. */
  lemma ChartIsPlaced(day: int, month: int, year: int, currentYear: int, doc: Document)
    requires ValidateArgs(day, month, year, currentYear) == None && SongsFit(doc)
    ensures ChartsOf(day, month, year, currentYear, Visited(doc)).Ok? ==>
      ChartsOf(day, month, year, currentYear, Visited(doc)).value.songs ==
      Placed(OfficialCharts.ChartSize(doc), Successes(Tasks(doc.rows)), Position)
  {
  }
}
