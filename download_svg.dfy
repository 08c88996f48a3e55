/**
 * The PNG export of docs/js/download-svg.js: the file name built from the
 * chart's season, club name and record, the enlarged clone of the chart,
 * and the download button that is disabled while an export runs.
 */
module DownloadSvg {
  import opened Js
  import opened SeasonSelector
  import RecordChart

  /** The side of the exported square, in pixels. */
  const ExportSize: int := 1600

  /** `${season}-${team.replace(" ", "")}-${record}.png`. */
  function Filename(season: string, team: string, record: string): (r: string)
    ensures ' ' !in team ==> r == season + "-" + team + "-" + record + ".png"
    ensures |r| == |season| + |team| + |record| + 6 - (if ' ' in team then 1 else 0)
  {
    season + "-" + RemoveFirstSpace(team) + "-" + record + ".png"
  }

  /** Only the first space goes: whatever follows it is kept as it is. */
  lemma RemoveFirstSpaceAt(a: string, b: string)
    requires ' ' !in a
    ensures RemoveFirstSpace(a + " " + b) == a + b
  {
    var s := a + " " + b;
    assert s[..|a|] == a && s[|a|] == ' ';
    assert IndexOf(s, ' ') == |a|;
    assert s[|a| + 1..] == b;
  }

  /** A club name of several words loses its first space only. */
  lemma FilenameOfSpacedClub(season: string, first: string, rest: string, record: string)
    requires ' ' !in first
    ensures Filename(season, first + " " + rest, record) == season + "-" + first + rest + "-" + record + ".png"
  {
    RemoveFirstSpaceAt(first, rest);
  }

  /** "Blue Jays" becomes "BlueJays". */
  lemma BlueJays()
    ensures RemoveFirstSpace("Blue Jays") == "BlueJays"
  {
    var a, b := "Blue", "Jays";
    assert ' ' !in a;
    RemoveFirstSpaceAt(a, b);
    assert a + " " + b == "Blue Jays";
    assert a + b == "BlueJays";
  }

  /** Removing a character brings in no new one. */
  lemma RemoveFirstSpaceKeepsOut(s: string, c: char)
    requires c !in s
    ensures c !in RemoveFirstSpace(s)
  {
    if ' ' in s {
      var i := IndexOf(s, ' ');
      assert RemoveFirstSpace(s) == s[..i] + s[i + 1..];
      assert c !in s[..i] && c !in s[i + 1..];
    }
  }

  /** Decimal digits hold no '-'. */
  lemma NoDashInDigits(n: nat)
    ensures '-' !in NatToString(n)
  {
    var w := NatToString(n);
    assert forall i :: 0 <= i < |w| ==> IsDigit(w[i]);
  }

  /**
   * With a season and a club name free of '-', the file name of a
   * `win-loss` record splits back into its four parts, and the two counts
   * are recovered from their digits.
   */
  lemma FilenameFields(season: string, team: string, win: nat, loss: nat)
    requires '-' !in season && '-' !in team
    ensures
      var pieces := Split(Filename(season, team, RecordChart.RecordText(win, loss)), '-');
      && pieces == [season, RemoveFirstSpace(team), NatToString(win), NatToString(loss) + ".png"]
      && DigitsValue(pieces[2]) == win
      && DigitsValue(pieces[3][..|pieces[3]| - 4]) == loss
  {
    var t, w, l := RemoveFirstSpace(team), NatToString(win), NatToString(loss);
    var tail := l + ".png";
    var parts := [season, t, w, tail];
    assert forall i :: 0 <= i < |parts| ==> '-' !in parts[i] by {
      RemoveFirstSpaceKeepsOut(team, '-');
      NoDashInDigits(win);
      NoDashInDigits(loss);
      assert forall i :: |l| <= i < |tail| ==> tail[i] == ".png"[i - |l|];
    }
    FilenameAsJoin(season, team, win, loss);
    SplitJoin(parts, '-');
    assert DigitsValue(w) == win by { NatToStringRoundTrip(win); }
    assert tail[..|tail| - 4] == l;
    assert DigitsValue(l) == loss by { NatToStringRoundTrip(loss); }
  }

  /** The file name is the four fields joined by '-'. */
  lemma FilenameAsJoin(season: string, team: string, win: nat, loss: nat)
    ensures Filename(season, team, RecordChart.RecordText(win, loss))
         == Join([season, RemoveFirstSpace(team), NatToString(win), NatToString(loss) + ".png"], '-')
  {
    var t, w, tail := RemoveFirstSpace(team), NatToString(win), NatToString(loss) + ".png";
    var parts := [season, t, w, tail];
    assert parts[1..] == [t, w, tail] && parts[1..][1..] == [w, tail] && parts[1..][1..][1..] == [tail];
    assert Join([w, tail], '-') == w + ['-'] + tail;
    assert Join([t, w, tail], '-') == t + ['-'] + (w + ['-'] + tail);
  }

  /** The exported copy of the chart's SVG. */
  datatype Svg = Svg(width: Option<int>, height: Option<int>, recordText: string, download: Option<string>)

  /**
   * What `downloadHandler` ends with: the clone it made, the file name, and
   * the element `document.querySelector('[data-download]')` handed to the
   * export; or a thrown error, logged by the handler or not.
   */
  datatype Download =
    | Saved(clone: Svg, filename: string, exported: Svg)
    | Failed(loggedByHandler: bool)

  /**
   * The outcome of one call, with the clones left in `document.body`
   * afterwards, in document order.
   */
  datatype Handled = Handled(download: Download, leftovers: seq<Svg>)

  /**
   * `downloadHandler({ svg, season, team })`: the clone is sized 1600 by
   * 1600, named after the chart's record text and appended to the document.
   * The export takes the first `[data-download]` element of the document,
   * which is an older clone when an earlier export failed. A missing club
   * name throws before the guarded part, unlogged; a failed export is
   * logged and rethrown, and its clone is never removed.
   */
  function DownloadHandler(svg: Svg, season: JsValue, team: Option<string>, leftovers: seq<Svg>, exportSucceeds: bool): (r: Handled)
    ensures team == None ==> r == Handled(Failed(false), leftovers)
    ensures r.download.Saved? <==> team.Some? && exportSucceeds
    ensures team.Some? ==>
      var filename := Filename(SeasonText(season), team.value, svg.recordText);
      var clone := svg.(width := Some(ExportSize), height := Some(ExportSize), download := Some(filename));
      && (!exportSucceeds ==> r == Handled(Failed(true), leftovers + [clone]))
      && (exportSucceeds ==>
            && r.download == Saved(clone, filename, if leftovers == [] then clone else leftovers[0])
            && r.leftovers == leftovers)
  {
    match team
    case None => Handled(Failed(false), leftovers)
    case Some(club) =>
      var clone := svg.(width := Some(ExportSize), height := Some(ExportSize));
      var filename := Filename(SeasonText(season), club, clone.recordText);
      var appended := leftovers + [clone.(download := Some(filename))];
      var exported := appended[0];
      if exportSucceeds then Handled(Saved(clone.(download := Some(filename)), filename, exported), leftovers)
      else Handled(Failed(true), appended)
  }

  /** The download of a chart whose record text is `win-loss` is named after that record. */
  lemma ChartRecordInFilename(svg: Svg, season: JsValue, club: string, leftovers: seq<Svg>, win: nat, loss: nat)
    requires svg.recordText == RecordChart.RecordText(win, loss)
    ensures DownloadHandler(svg, season, Some(club), leftovers, true).download.Saved?
    ensures DownloadHandler(svg, season, Some(club), leftovers, true).download.filename
      == SeasonText(season) + "-" + RemoveFirstSpace(club) + "-" + NatToString(win) + "-" + NatToString(loss) + ".png"
  {
    var r := DownloadHandler(svg, season, Some(club), leftovers, true).download;
    var front := SeasonText(season) + "-" + RemoveFirstSpace(club) + "-";
    assert r.filename == front + svg.recordText + ".png";
    assert svg.recordText == NatToString(win) + "-" + NatToString(loss);
  }

  /**
   * After a failed export in a clean document, the next successful export
   * saves the failed export's chart under the new file name.
   */
  lemma FailedCloneExportedNext(first: Svg, second: Svg, season: JsValue, club: string, club2: string)
    ensures
      var failed := DownloadHandler(first, season, Some(club), [], false);
      var next := DownloadHandler(second, season, Some(club2), failed.leftovers, true);
      && next.download.Saved?
      && next.download.exported.recordText == first.recordText
      && next.download.exported.download == Some(Filename(SeasonText(season), club, first.recordText))
      && next.download.filename == Filename(SeasonText(season), club2, second.recordText)
      && |next.leftovers| == 1
  {
  }

  /** The messages `console.error` receives. */
  const HandlerError := "Error in downloadHandler:"
  const ClickError := "Error downloading SVG:"

  /**
   * The download button: its inline pointer-events style (unset at first),
   * the errors the click path logs, and the clones failed exports left in
   * the document.
   */
  class DownloadButton {
    var pointerEvents: string
    var errors: seq<string>
    var leftovers: seq<Svg>

    constructor()
      ensures pointerEvents == "" && errors == [] && leftovers == []
    {
      pointerEvents := "";
      errors := [];
      leftovers := [];
    }

    /**
     * `handleClick`: the button takes no pointer events while the handler
     * runs (`during`), errors are logged, and the button is enabled again
     * whatever the outcome.
     */
    method HandleClick(svg: Svg, season: JsValue, team: Option<string>, exportSucceeds: bool)
      returns (r: Download, during: string)
      modifies this
      ensures r == DownloadHandler(svg, season, team, old(leftovers), exportSucceeds).download
      ensures leftovers == DownloadHandler(svg, season, team, old(leftovers), exportSucceeds).leftovers
      ensures during == "none"
      ensures pointerEvents == "auto"
      ensures r.Saved? ==> errors == old(errors)
      ensures r.Failed? ==>
        errors == old(errors) + (if r.loggedByHandler then [HandlerError] else []) + [ClickError]
    {
      pointerEvents := "none";
      during := pointerEvents;
      var h := DownloadHandler(svg, season, team, leftovers, exportSucceeds);
      r, leftovers := h.download, h.leftovers;
      if r.Failed? {
        if r.loggedByHandler {
          errors := errors + [HandlerError];
        }
        errors := errors + [ClickError];
      }
      pointerEvents := "auto";
    }
  }
}
