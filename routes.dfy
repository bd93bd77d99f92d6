/**
 * The document routes of server.js: `/catalogue`, `/programme`, `/devis`
 * and `/facture`.  Each checks its query parameters, fetches its data,
 * builds a title from record fields and hands template, data and title to
 * `generateAndSendReport`.  A route's reply is modelled as the template it
 * renders and the download name it gives, or the error status it answers with.
 *
 * The helpers from utils.js are parameters: `ymd` (a date string to its
 * printed form), `today` (what `getFrenchFormattedDate(false)` returns) and
 * `fetch` (`getAirtableRecord(table, id)`, where `None` stands for a call
 * that throws or gives nothing back).
 */
module Routes {
  import opened Wrappers
  import opened JsText
  import NodePath
  import ReportName

  /** A record as server.js reads it: field name to string value; an absent field reads as `undefined`. */
  type Record = map<string, JsValue>

  /** `data[key]` */
  function Get(data: Record, key: string): JsValue {
    if key in data then data[key] else None
  }

  const TemplateDir := "https://github.com/isadoravv/templater/raw/refs/heads/main/templates"
  const CatalogueTemplate := TemplateDir + "/catalogue.docx"
  const ProgrammeTemplate := TemplateDir + "/programme.docx"
  const DevisTemplate := TemplateDir + "/devis.docx"

  const MissingRecordId := "Paramètre recordId manquant."
  const ProgrammeFallback := "err titre prog"
  const CataloguePrefix := "Catalogue des formations FSH "
  const DevisPrefix := "DEVIS FSH "

  /** What a route answers. */
  datatype Reply =
    | BadRequest(error: string)                          // status 400 with a JSON error
    | ServerError                                        // status 500 with a JSON error
    | Attachment(templateUrl: string, fileName: string)  // the generated document as a download

  /**
   * The `/programme` title: the programme's title followed, when both
   * dates are set, by `<ymd(du)>-<ymd(au)>` with no separator before it;
   * `"err titre prog"` when that leaves nothing.
   */
  function ProgrammeTitle(data: Record, ymd: string -> string): (t: string)
    ensures t != ""
    ensures var titre, du, au := Get(data, "titre_fromprog"), Get(data, "du"), Get(data, "au");
      !(Truthy(du) && Truthy(au)) ==> t == if Truthy(titre) then titre.value else ProgrammeFallback
    ensures var titre, du, au := Get(data, "titre_fromprog"), Get(data, "du"), Get(data, "au");
      Truthy(du) && Truthy(au) ==> t == ToJsString(titre) + ymd(du.value) + "-" + ymd(au.value)
  {
    var newTitle := Get(data, "titre_fromprog");
    var du, au := Get(data, "du"), Get(data, "au");
    // `newTitle += ...`; inside the literal, `data["au"] && ymd(data["au"])` is `ymd(au)` since `au` is truthy
    var newTitle := if Truthy(du) && Truthy(au)
                    then Some(ToJsString(newTitle) + ymd(du.value) + "-" + ymd(au.value))
                    else newTitle;
    OrElse(newTitle, ProgrammeFallback)
  }

  /** A set programme title always opens the programme's document title. */
  lemma ProgrammeTitleStartsWithTitre(data: Record, ymd: string -> string)
    requires Truthy(Get(data, "titre_fromprog"))
    ensures var titre := Get(data, "titre_fromprog").value;
      |titre| <= |ProgrammeTitle(data, ymd)| && ProgrammeTitle(data, ymd)[..|titre|] == titre
  {
    var titre := Get(data, "titre_fromprog").value;
    var t := ProgrammeTitle(data, ymd);
    if Truthy(Get(data, "du")) && Truthy(Get(data, "au")) {
      assert t == titre + (ymd(Get(data, "du").value) + "-" + ymd(Get(data, "au").value));
    }
  }

  /**
   * With both dates set but no programme title, the title starts with the
   * text `undefined`, as `undefined + "..."` does in JavaScript.
   */
  lemma ProgrammeTitleWithoutTitre(data: Record, ymd: string -> string)
    requires "titre_fromprog" !in data
    requires Truthy(Get(data, "du")) && Truthy(Get(data, "au"))
    ensures ProgrammeTitle(data, ymd)[..9] == "undefined"
  {
  }

  /** The `/devis` title: `DEVIS FSH <id> `, trailing space included. */
  function DevisTitle(data: Record): (t: string)
    ensures |t| > |DevisPrefix| && t[..|DevisPrefix|] == DevisPrefix && t[|t| - 1] == ' '
    ensures t[|DevisPrefix|..|t| - 1] == ToJsString(Get(data, "id"))
  {
    DevisPrefix + ToJsString(Get(data, "id")) + " "
  }

  /** The `/facture` title: `<id> <nom> <prenom>`. */
  function FactureTitle(data: Record): (t: string)
    ensures var id, nom, prenom := ToJsString(Get(data, "id")), ToJsString(Get(data, "nom")), ToJsString(Get(data, "prenom"));
      && |t| == |id| + |nom| + |prenom| + 2
      && t[..|id|] == id && t[|id|] == ' '
      && t[|id| + 1..|id| + 1 + |nom|] == nom && t[|id| + 1 + |nom|] == ' '
      && t[|t| - |prenom|..] == prenom
  {
    ToJsString(Get(data, "id")) + " " + ToJsString(Get(data, "nom")) + " " + ToJsString(Get(data, "prenom"))
  }

  /** The `annee` query parameter, or the year after `currentYear` when it is missing or empty. */
  function CatalogueYear(annee: JsValue, currentYear: nat): (y: string)
    ensures y != ""
    ensures Truthy(annee) ==> y == annee.value
    ensures !Truthy(annee) ==> (forall k :: 0 <= k < |y| ==> IsDigit(y[k])) && ParseDecimal(y) == currentYear + 1
    ensures !Truthy(annee) ==> |y| > 1 ==> y[0] != '0'
  {
    if Truthy(annee) then annee.value
    else
      NumberToStringRoundTrip(currentYear + 1);
      NumberToString(currentYear + 1)
  }

  /** The `/catalogue` title: `Catalogue des formations FSH <annee>`. */
  function CatalogueTitle(annee: JsValue, currentYear: nat): (t: string)
    ensures |t| > |CataloguePrefix| && t[..|CataloguePrefix|] == CataloguePrefix
    ensures t[|CataloguePrefix|..] == CatalogueYear(annee, currentYear)
  {
    CataloguePrefix + CatalogueYear(annee, currentYear)
  }

  /**
   * A route behind `if (!recordId) return 400`: it fetches the record from
   * `table`, then renders `templateUrl` under the title `title` makes of the
   * record.  Reading a field of a record that did not arrive throws, so a
   * failed fetch answers 500.
   */
  function RecordRoute(table: string, templateUrl: string, title: Record -> string,
                       recordId: JsValue, fetch: (string, string) -> Option<Record>, today: string): (r: Reply)
    ensures r.BadRequest? <==> !Truthy(recordId)
    ensures r.BadRequest? ==> r.error == MissingRecordId
    ensures Truthy(recordId) ==> (r == ServerError <==> fetch(table, recordId.value).None?)
    ensures r.Attachment? ==> r.templateUrl == templateUrl
    ensures r.Attachment? ==> exists data :: fetch(table, recordId.value) == Some(data)
                                           && r.fileName == ReportName.DownloadFileName(templateUrl, title(data), today)
  {
    if !Truthy(recordId) then BadRequest(MissingRecordId)
    else
      match fetch(table, recordId.value)
      case None => ServerError
      case Some(data) => Attachment(templateUrl, ReportName.DownloadFileName(templateUrl, title(data), today))
  }

  /** `/programme`: the session's programme, named after its title and dates. */
  function Programme(recordId: JsValue, fetch: (string, string) -> Option<Record>,
                     ymd: string -> string, today: string): (r: Reply)
    ensures r.BadRequest? <==> !Truthy(recordId)
    ensures Truthy(recordId) ==> (r == ServerError <==> fetch("Sessions", recordId.value).None?)
    ensures Truthy(recordId) && fetch("Sessions", recordId.value).Some? ==>
      r == Attachment(ProgrammeTemplate, today + " " + ProgrammeTitle(fetch("Sessions", recordId.value).value, ymd) + ".docx")
  {
    RecordRoute("Sessions", ProgrammeTemplate, data => ProgrammeTitle(data, ymd), recordId, fetch, today)
  }

  /** `/devis`: a quote from the `Devis` table. */
  function Devis(recordId: JsValue, fetch: (string, string) -> Option<Record>, today: string): (r: Reply)
    ensures r.BadRequest? <==> !Truthy(recordId)
    ensures Truthy(recordId) ==> (r == ServerError <==> fetch("Devis", recordId.value).None?)
    ensures Truthy(recordId) && fetch("Devis", recordId.value).Some? ==>
      r == Attachment(DevisTemplate, today + " " + DevisTitle(fetch("Devis", recordId.value).value) + ".docx")
  {
    RecordRoute("Devis", DevisTemplate, DevisTitle, recordId, fetch, today)
  }

  /** `/facture`: an invoice for an `Inscriptions` record, rendered from the programme template. */
  function Facture(recordId: JsValue, fetch: (string, string) -> Option<Record>, today: string): (r: Reply)
    ensures r.BadRequest? <==> !Truthy(recordId)
    ensures Truthy(recordId) ==> (r == ServerError <==> fetch("Inscriptions", recordId.value).None?)
    ensures Truthy(recordId) && fetch("Inscriptions", recordId.value).Some? ==>
      r == Attachment(ProgrammeTemplate, today + " " + FactureTitle(fetch("Inscriptions", recordId.value).value) + ".docx")
  {
    RecordRoute("Inscriptions", ProgrammeTemplate, FactureTitle, recordId, fetch, today)
  }

  /**
   * What `await getAirtableRecords(...)` does in `/catalogue`: it throws, or
   * it gives a falsy value, or a truthy value whose `records` is an object
   * (its `length` can be read) or is not (reading `length` throws).
   */
  datatype RecordsQuery =
    | QueryThrew
    | NoData
    | Data(hasRecords: bool)

  /** The query's outcome makes the `try` block throw before the report is generated. */
  predicate QueryFails(q: RecordsQuery) {
    q.QueryThrew? || (q.Data? && !q.hasRecords)
  }

  /**
   * `/catalogue`: the catalogue of sessions for a year.  A query that
   * throws, or a truthy result without `records` (for `data.records.length`
   * then throws), answers 500; a query that gives nothing back still goes
   * on to the report.
   */
  function Catalogue(annee: JsValue, currentYear: nat, query: RecordsQuery, today: string): (r: Reply)
    ensures r == ServerError <==> QueryFails(query)
    ensures !QueryFails(query) ==>
      r == Attachment(CatalogueTemplate, today + " " + CatalogueTitle(annee, currentYear) + ".docx")
  {
    match query
    case QueryThrew => ServerError
    case Data(false) => ServerError
    case _ =>
      Attachment(CatalogueTemplate,
                 ReportName.DownloadFileName(CatalogueTemplate, CatalogueTitle(annee, currentYear), today))
  }

  /**
   * Were a route to pass no title, a template stored under any directory as
   * `programme.docx` would give the title `programme`.
   */
  lemma ProgrammeTemplateStem(dir: string)
    ensures ReportName.FileNameWithoutExt(dir + "/" + "programme" + ".docx") == "programme"
  {
    assert '.' !in "programme" && '/' !in "programme";
    ReportName.DocxTemplateStem(dir, "programme");
  }

  /**
   * A session titled `Formation X` running from 2025-03-01 to 2025-03-03,
   * with `ymd` printing those dates as `01-03-2025` and `03-03-2025`,
   * downloads as `<today> Formation X01-03-2025-03-03-2025.docx`.
   */
  lemma ProgrammeScenario(recordId: string, fetch: (string, string) -> Option<Record>,
                          ymd: string -> string, today: string)
    requires recordId != ""
    requires fetch("Sessions", recordId) ==
      Some(map["titre_fromprog" := Some("Formation X"), "du" := Some("2025-03-01"), "au" := Some("2025-03-03")])
    requires ymd("2025-03-01") == "01-03-2025" && ymd("2025-03-03") == "03-03-2025"
    ensures Programme(Some(recordId), fetch, ymd, today)
         == Attachment(ProgrammeTemplate, today + " " + ("Formation X" + "01-03-2025" + "-" + "03-03-2025") + ".docx")
  {
    ScenarioTitle(fetch("Sessions", recordId).value, ymd);
  }

  lemma ScenarioTitle(data: Record, ymd: string -> string)
    requires data == map["titre_fromprog" := Some("Formation X"), "du" := Some("2025-03-01"), "au" := Some("2025-03-03")]
    requires ymd("2025-03-01") == "01-03-2025" && ymd("2025-03-03") == "03-03-2025"
    ensures ProgrammeTitle(data, ymd) == "Formation X" + "01-03-2025" + "-" + "03-03-2025"
  {
    assert Get(data, "titre_fromprog") == Some("Formation X");
    assert Get(data, "du") == Some("2025-03-01");
    assert Get(data, "au") == Some("2025-03-03");
  }
}
