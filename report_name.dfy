/**
 * The download name that `generateAndSendReport` (server.js:258-271) gives a
 * generated document: `"<date> <title>.docx"`, where the title is the
 * caller's `fileName` or, when that is empty, the template URL's base name
 * without its extension.  The date is what `getFrenchFormattedDate(false)`
 * returns at the time of the call, passed in as `today`.
 */
module ReportName {
  import opened Wrappers
  import opened JsText
  import NodePath

  /**
   * `path.basename(url).replace(path.extname(path.basename(url)), '')`:
   * the first occurrence of the extension text is removed, which is not
   * always the one at the end.
   */
  function FileNameWithoutExt(url: string): string {
    var originalFileName := NodePath.Basename(url);
    RemoveFirst(originalFileName, NodePath.Extname(originalFileName))
  }

  /** The same removal on one path segment, with the segment's extension. */
  function StripExt(segment: string): string {
    RemoveFirst(segment, NodePath.ExtOfSegment(segment))
  }

  lemma FileNameWithoutExtBySegment(url: string)
    ensures FileNameWithoutExt(url) == StripExt(NodePath.Basename(url))
    ensures NodePath.Extname(NodePath.Basename(url)) == NodePath.ExtOfSegment(NodePath.Basename(url))
  {
    NodePath.ExtnameOfSegment(NodePath.Basename(url));
  }

  /** `fileName || fileNameWithoutExt`; an omitted `fileName` defaults to `""`. */
  function ReportTitle(url: string, fileName: string): string {
    if fileName != "" then fileName else FileNameWithoutExt(url)
  }

  /** `${getFrenchFormattedDate(false)} ${newTitle}.docx` */
  function DownloadFileName(url: string, fileName: string, today: string): (r: string)
    ensures |r| >= |today| + 6
    ensures r[..|today| + 1] == today + " "
    ensures r[|r| - 5..] == ".docx"
  {
    today + " " + ReportTitle(url, fileName) + ".docx"
  }

  /** The title inside a download name made on `today`, if it has that shape. */
  function TitleOfDownloadName(name: string, today: string): Option<string> {
    if |name| >= |today| + 6 && name[..|today| + 1] == today + " " && name[|name| - 5..] == ".docx"
    then Some(name[|today| + 1..|name| - 5])
    else None
  }

  /** The download name holds the title verbatim, between the date and `.docx`. */
  lemma DownloadNameRoundTrip(url: string, fileName: string, today: string)
    ensures TitleOfDownloadName(DownloadFileName(url, fileName, today), today) == Some(ReportTitle(url, fileName))
  {
    var t := ReportTitle(url, fileName);
    var name := DownloadFileName(url, fileName, today);
    assert name[|today| + 1..|name| - 5] == t;
  }

  /** Every name that reads back as a title is the download name of that title. */
  lemma DownloadNameFromTitle(name: string, today: string, t: string)
    requires TitleOfDownloadName(name, today) == Some(t)
    ensures name == today + " " + t + ".docx"
  {
    assert name == name[..|today| + 1] + name[|today| + 1..|name| - 5] + name[|name| - 5..];
  }

  /** A non-empty `fileName` is the title, whatever the URL. */
  lemma GivenTitleWins(url: string, fileName: string, today: string)
    requires fileName != ""
    ensures DownloadFileName(url, fileName, today) == today + " " + fileName + ".docx"
  {
  }

  /** A base name without extension is kept as it is. */
  lemma ExtensionlessBaseKept(url: string)
    requires NodePath.Extname(NodePath.Basename(url)) == ""
    ensures FileNameWithoutExt(url) == NodePath.Basename(url)
  {
    RemoveFirstEmpty(NodePath.Basename(url));
  }

  /** The extension of a segment is a suffix of it. */
  lemma SegmentExtSuffix(b: string)
    ensures var e := NodePath.ExtOfSegment(b); |e| <= |b| && OccursAt(b, e, |b| - |e|)
  {
    NodePath.SegmentExtShape(b);
    var e := NodePath.ExtOfSegment(b);
    assert e == "" ==> b[|b|..|b|] == e;
  }

  /** Exactly the extension's length is removed from the base name. */
  lemma StrippedLength(url: string)
    ensures var b := NodePath.Basename(url);
      |FileNameWithoutExt(url)| == |b| - |NodePath.Extname(b)|
  {
    FileNameWithoutExtBySegment(url);
    StripExtLength(NodePath.Basename(url));
  }

  lemma StripExtLength(b: string)
    ensures |StripExt(b)| == |b| - |NodePath.ExtOfSegment(b)|
  {
    var e := NodePath.ExtOfSegment(b);
    SegmentExtSuffix(b);
    RemoveFirstLength(b, e, |b| - |e|);
  }

  /**
   * When the extension text occurs nowhere before the end of the base name,
   * stripping it leaves the base name minus that trailing extension.
   */
  lemma StrippedAtEnd(url: string)
    requires var b := NodePath.Basename(url); var e := NodePath.Extname(b);
      forall j: nat :: j < |b| - |e| ==> !OccursAt(b, e, j)
    ensures var b := NodePath.Basename(url);
      FileNameWithoutExt(url) + NodePath.Extname(b) == b
  {
    FileNameWithoutExtBySegment(url);
    StripExtAtEnd(NodePath.Basename(url));
  }

  lemma StripExtAtEnd(b: string)
    requires var e := NodePath.ExtOfSegment(b); forall j: nat :: j < |b| - |e| ==> !OccursAt(b, e, j)
    ensures StripExt(b) + NodePath.ExtOfSegment(b) == b
  {
    SegmentExtSuffix(b);
    RemoveFirstSuffix(b, NodePath.ExtOfSegment(b));
  }

  /** `a.xa.x` loses its first `.x`, not its last: the result is `aa.x`. */
  lemma StrippedFirstOccurrence()
    ensures FileNameWithoutExt("templates/a.xa.x") == "aa.x"
  {
    var b := "a.xa.x";
    assert "templates/a.xa.x" == "templates" + "/" + b;
    NodePath.BasenameOfJoin("templates", b);
    FileNameWithoutExtBySegment("templates/a.xa.x");
    StripExtQuirk();
  }

  lemma StripExtQuirk()
    ensures StripExt("a.xa.x") == "aa.x"
  {
    QuirkSegmentExtension();
    QuirkRemoval();
  }

  lemma QuirkRemoval()
    ensures RemoveFirst("a.xa.x", ".x") == "aa.x"
  {
    QuirkFirstOccurrence();
    RemoveFirstAt("a.xa.x", ".x", 1);
    assert "a.xa.x"[..1] + "a.xa.x"[3..] == "aa.x";
  }

  lemma QuirkSegmentExtension()
    ensures NodePath.ExtOfSegment("a.xa.x") == ".x"
  {
    assert "a.xa.x"[..5] == "a.xa.";
    assert NodePath.LastIndexOf("a.xa.x", '.') == Some(4);
  }

  lemma QuirkFirstOccurrence()
    ensures IndexOf("a.xa.x", ".x") == Some(1)
  {
    assert "a.xa.x"[0..2][0] == 'a';
    assert "a.xa.x"[1..3] == ".x";
    assert OccursAt("a.xa.x", ".x", 1) && !OccursAt("a.xa.x", ".x", 0);
  }

  /**
   * A template stored as `<dir>/<stem>.docx`, with a stem free of `/` and
   * `.`, falls back to the title `<stem>`.
   */
  lemma DocxTemplateStem(dir: string, stem: string)
    requires stem != "" && '/' !in stem && '.' !in stem
    ensures FileNameWithoutExt(dir + "/" + stem + ".docx") == stem
  {
    var b := stem + ".docx";
    assert forall k :: 0 <= k < |stem| ==> b[k] == stem[k];
    assert '/' !in b;
    assert dir + "/" + stem + ".docx" == dir + "/" + b;
    NodePath.BasenameOfJoin(dir, b);
    FileNameWithoutExtBySegment(dir + "/" + b);
    StripDocx(stem);
  }

  lemma StripDocx(stem: string)
    requires stem != "" && '.' !in stem
    ensures StripExt(stem + ".docx") == stem
  {
    var b := stem + ".docx";
    assert forall k :: 0 <= k < |stem| ==> b[k] == stem[k];
    assert b[|stem|] == '.';
    assert forall j :: |stem| < j < |b| ==> b[j] != '.';
    assert NodePath.LastIndexOf(b, '.') == Some(|stem|);
    assert b != "..";
    assert NodePath.ExtOfSegment(b) == ".docx";
    forall j: nat | j < |stem| ensures !OccursAt(b, ".docx", j) {
      assert b[j] == stem[j];
    }
    assert OccursAt(b, ".docx", |stem|);
    RemoveFirstSuffix(b, ".docx");
  }
}
