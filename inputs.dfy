/**
 * What the chart core receives from its collaborators: the page as the
 * retrieval library hands it over, each table row reduced to the strings its
 * selectors would return, and the requested date.
 */
module Inputs {
  import opened Results

  /**
   * One `tr` element of the chart table, as the selectors used on it read it:
   *  - classAttr:     the row's own `class` attribute (None when absent)
   *  - hasAdspace:    whether the row has an `.adspace` descendant
   *  - positionText:  text of `.position`
   *  - lastWeekText:  text of `.last-week`
   *  - lastWeekClass: `class` attribute of `.last-week` (None when absent)
   *  - peakText:      text of the fourth cell, `td:nth-child(4)`
   *  - weeksText:     text of the fifth cell, `td:nth-child(5)`
   *  - artist, title: texts of `.title-artist .artist a` and `.title-artist .title a`
   *  - recordLabel:   text of `.label`
   *  - coverSrc:      `src` attribute of `.track .cover img` (None when absent)
   * A selector that matches nothing reads as the empty text.
   */
  datatype Row = Row(
    classAttr: Option<string>,
    hasAdspace: bool,
    positionText: string,
    lastWeekText: string,
    lastWeekClass: Option<string>,
    peakText: string,
    weeksText: string,
    artist: string,
    title: string,
    recordLabel: string,
    coverSrc: Option<string>)

  /** goquery's `value, _ := Attr(name)`: a missing attribute reads as "". */
  function AttrText(a: Option<string>): (r: string)
    ensures a.None? ==> r == ""
    ensures a.Some? ==> r == a.value
  {
    match a
    case None => ""
    case Some(v) => v
  }

  /**
   * A fetched chart page, as the two registered callbacks see it:
   *  - tbodies: every match of the table-body selector, in document order,
   *             each given by its `tr` descendants
   *  - rows:    every match of the row selector, in document order
   * The collector runs the table-body callback over all of its matches before
   * it runs the row callback over any of its own.
   */
  datatype Document = Document(tbodies: seq<seq<Row>>, rows: seq<Row>)

  /** The outcome of the one page visit: the parsed page, or the collector's error. */
  datatype Visit = Visited(doc: Document) | VisitFailed(reason: string)

  /** The requested chart date, as given by the caller. */
  datatype Date = Date(year: int, month: int, day: int)
}
