# templater: the pure logic of server.js

The templater is an Express server that turns records of an Airtable base
into Word documents. Each document route fetches a record (or a list of
records), hands it with a remote `.docx` template to a report generator,
and sends the result back as a download named `"<date> <title>.docx"`.
The report generator, the field normaliser, the date helpers and the
Airtable client all live in `utils.js`, which is not part of this model.

This project models the three pieces of `server.js` that are string and list
logic:

- **the rich-text field classifier** of `/schemas` (module `Schemas`). It
  finds the `Sessions` table and keeps, in schema order, the names of its
  fields that are `richText` or that are `multipleLookupValues` lookups of a
  rich-text field. The filter callback returns `field.name`, so a qualifying
  field with an empty name is dropped too. A lookup field without
  `options.result` makes the callback throw, which ends the whole handler
  with status 500. The schema fetch failing, and a schema with no
  `Sessions` table, end it the same way.
- **the download name** built by `generateAndSendReport` (module
  `ReportName`). The title is the caller's `fileName` when that is
  non-empty. Otherwise it is the template URL's base name with its
  extension removed through `String.prototype.replace`, which removes only
  the FIRST occurrence of the extension text. Node's `path.basename` and
  `path.extname` are modelled in `NodePath`, including `basename` ignoring
  trailing `/` and `extname` giving `""` for `.bashrc`-style names and for
  `..`. The JavaScript string behaviour the file relies on is in
  `JsText`: truthiness, `undefined` printing as `undefined`, `indexOf`,
  `replace`, and the decimal printing of a number.
- **the per-route titles and replies** (module `Routes`):
  - `/programme` appends `ymd(du) + "-" + ymd(au)` to `titre_fromprog` when
    both dates are set, with no separator before the dates. It falls back
    to `"err titre prog"` when the result is empty. When the title field is
    missing but both dates are set, the title starts with the text
    `undefined`, as `undefined + "..."` does.
  - `/devis` uses `"DEVIS FSH <id> "`, trailing space included.
  - `/facture` uses `"<id> <nom> <prenom>"` and renders the programme
    template, as the code says.
  - `/catalogue` uses `"Catalogue des formations FSH <annee>"`, where a
    missing or empty `annee` becomes the year after the current one.
  - The record routes answer 400 when `recordId` is missing or empty. They
    answer 500 when the record fetch throws or gives nothing back, because
    the title then reads a field of `null`.

  Every route passes a non-empty title, so the template-name fallback of
  `generateAndSendReport` is never used by the shipped routes. The route
  contracts state the download name directly as `<today> <route title>.docx`.

The helpers from `utils.js` are parameters of the model:
`getFrenchFormattedDate(false)` is the string `today`, `ymd` is a function
`string -> string`, and `getAirtableRecord` is a function from (table, id)
to an optional record. The current year is a number parameter. A record is
a map from field name to an optional string. An absent field and a `None`
value both read as JavaScript `undefined`.

The programme title reads the field `titre_fromprog`. The fallback title
removes the first occurrence of the extension text, which for a base name
like `a.xa.x` is not the trailing one (`StrippedFirstOccurrence`).

## Model

| member | source | states |
|---|---|---|
| `Schemas.KeepField` | server.js:27-35 | the filter callback throws exactly on a lookup field without a result type; otherwise its value is truthy exactly when the field is rich text, or a lookup of rich text, and has a non-empty name |
| `Schemas.NamesFrom` | server.js:25-36 | from any index on, the chain fails exactly when some later field breaks the callback, and with the first such field; otherwise it returns at most one name per field, and a name is returned exactly when some kept field has it |
| `Schemas.MarkdownFieldNames` | server.js:25-36 | fails exactly when a lookup field lacks a result type; otherwise the names are no more than the fields, none is empty, and a name is listed exactly when a rich-text field or a lookup of rich text with that non-empty name exists |
| `Schemas.NamesFromAreKept` | server.js:25-36 | when the chain from an index does not throw, it returns exactly the names of the kept fields from that index on |
| `Schemas.KeptFollowOrder` | server.js:25-36 | the kept fields from an index on are listed in increasing schema order, with their names, and none is missed |
| `Schemas.NamesFollowSchemaOrder` | server.js:25-36 | the k-th name is the name of the k-th kept field in schema order, the kept indices increase, and every kept field is listed |
| `Schemas.FindTable` | server.js:25 | `find` gives nothing exactly when no table has the name; otherwise it gives the first table with that name |
| `Schemas.SchemasRoute` | server.js:17-43 | no schema is an error; a schema with no `Sessions` table is exactly the missing-table error; otherwise the reply is the classifier's result on the first `Sessions` table's fields |
| `Schemas.OtherTypesNeverListed` | server.js:27-35 | a field that is neither rich text nor a lookup never makes the callback throw and is never among the kept fields, whatever its name and result type |
| `JsText.Truthy` | server.js:101 | a value is falsy exactly when it is `undefined` or the empty string; this is the test `ToJsString`, `OrElse` and the record routes' 400 are stated with |
| `JsText.ToJsString` | server.js:114-122 | a truthy value prints as itself, the result is empty exactly for the empty string, and `undefined` prints as the text `undefined` |
| `JsText.OrElse` | server.js:122 | the JavaScript `or` of a value and a string fallback is the value as printed when it is truthy and the fallback otherwise, and is empty exactly when both are empty |
| `JsText.IndexOfFrom` | server.js:268 | the search from an index finds the first occurrence at or after it, or reports that there is none |
| `JsText.IndexOf` | server.js:268 | `indexOf` gives the first index where the pattern occurs, and gives nothing exactly when the pattern occurs nowhere |
| `JsText.RemoveFirst` | server.js:268 | `replace(p, '')` with a string pattern; its properties are stated by `RemoveFirstSpec`, `RemoveFirstEmpty`, `RemoveFirstSuffix` and `RemoveFirstLength` |
| `JsText.RemoveFirstSpec` | server.js:268 | `replace(p, '')` leaves the string unchanged when `p` does not occur, and otherwise cuts out the first occurrence only |
| `JsText.RemoveFirstEmpty` | server.js:268 | removing the empty extension leaves the name unchanged |
| `JsText.RemoveFirstSuffix` | server.js:268 | a pattern that occurs only at the end is removed from the end, so the result followed by the pattern is the original |
| `JsText.RemoveFirstLength` | server.js:268 | a pattern that occurs is removed in full, so the string shrinks by its length |
| `JsText.NumberToString` | server.js:84 | a number prints as a non-empty string of decimal digits with no leading zero |
| `JsText.NumberToStringRoundTrip` | server.js:84 | reading the printed digits back gives the number |
| `JsText.NumberToStringInjective` | server.js:84 | two different years never print alike |
| `NodePath.StripTrailingSlashes` | server.js:267 | gives the longest prefix that does not end in `/`; everything cut off is `/` |
| `NodePath.AfterLastSlash` | server.js:267 | gives the longest suffix without `/`, which is preceded by `/` when it is not the whole string |
| `NodePath.Basename` | server.js:267 | a base name never holds `/` |
| `NodePath.LastIndexOf` | server.js:268 | gives the last index holding the character, or nothing exactly when the character does not occur |
| `NodePath.BasenameIdempotent` | server.js:267-268 | the base name of a base name is itself, so `extname` of the base name sees the same segment |
| `NodePath.SlashFreeBasename` | server.js:267 | a string without `/` is its own base name |
| `NodePath.BasenameOfJoin` | server.js:267 | the base name of `dir/name` is `name`, for any directory and any non-empty `name` without `/` |
| `NodePath.BasenameEmptyIff` | server.js:267 | the base name is empty exactly when the path is made of `/` only |
| `NodePath.Extname` | server.js:268 | `path.extname`: the extension of the base name; its shape is stated by `ExtnameShape` and when it is empty by `ExtnameEmptyIff` |
| `NodePath.ExtOfSegment` | server.js:268 | `path.extname` from the last `.` of one slash-free segment; characterised by `SegmentExtShape` and `SegmentExtEmptyIff` |
| `NodePath.ExtnameOfSegment` | server.js:268 | on a segment without `/`, `extname` is that segment's own extension |
| `NodePath.SegmentExtShape` | server.js:268 | a segment's extension is empty, or its suffix from the last `.`, holding no other `.` |
| `NodePath.SegmentExtEmptyIff` | server.js:268 | a segment's extension is empty exactly when the segment has no `.` after its first character, or is `..` |
| `NodePath.ExtnameShape` | server.js:268 | `extname` is empty, or a suffix of the base name that starts with its last `.` and holds no other `.` |
| `NodePath.ExtnameEmptyIff` | server.js:268 | `extname` is empty exactly when the base name has no `.` after its first character, or is `..` |
| `ReportName.FileNameWithoutExt` | server.js:267-268 | the base name with the first occurrence of its extension text removed; stated by `StrippedLength`, `StrippedAtEnd`, `ExtensionlessBaseKept` and `StrippedFirstOccurrence` |
| `ReportName.ReportTitle` | server.js:258-269 | the JavaScript `or` of `fileName` and the stripped base name, with `fileName` defaulting to `""`; `GivenTitleWins` states the first case and the stripping lemmas the second |
| `ReportName.DownloadFileName` | server.js:271 | the download name starts with the date and a space and ends with `.docx` |
| `ReportName.DownloadNameRoundTrip` | server.js:271 | the title can be read back from the download name, so it appears in it verbatim |
| `ReportName.DownloadNameFromTitle` | server.js:271 | every name that reads back as a title is `<date> <title>.docx` |
| `ReportName.GivenTitleWins` | server.js:269-271 | a non-empty `fileName` is the title, whatever the template URL |
| `ReportName.ExtensionlessBaseKept` | server.js:267-269 | a base name without extension is the fallback title as it is |
| `ReportName.StrippedLength` | server.js:267-268 | the fallback title is exactly the extension's length shorter than the base name |
| `ReportName.StrippedAtEnd` | server.js:267-268 | when the extension text occurs only at the end, the fallback title followed by the extension is the base name |
| `ReportName.StripExtLength` | server.js:268 | removing a segment's extension shortens it by exactly the extension's length |
| `ReportName.StripExtAtEnd` | server.js:268 | when the extension text occurs only at the end of the segment, the stripped segment followed by the extension is the segment |
| `ReportName.StrippedFirstOccurrence` | server.js:268 | for `templates/a.xa.x` the fallback title is `aa.x`: the first `.x` is removed, not the last |
| `ReportName.DocxTemplateStem` | server.js:267-269 | a template `<dir>/<stem>.docx`, with a stem free of `/` and `.`, falls back to the title `<stem>` |
| `Routes.ProgrammeTitle` | server.js:114-122 | the title is never empty; without both dates it is the programme title or `err titre prog`; with both it is the programme title, printed as JavaScript prints it, followed by `ymd(du)-ymd(au)` |
| `Routes.ProgrammeTitleStartsWithTitre` | server.js:114-115 | a set programme title always opens the document title |
| `Routes.ProgrammeTitleWithoutTitre` | server.js:114-115 | with both dates set and no programme title, the title starts with `undefined` |
| `Routes.DevisTitle` | server.js:153 | the title is `DEVIS FSH `, then the id as printed, then one trailing space |
| `Routes.FactureTitle` | server.js:197 | the title holds id, nom and prenom as printed, in that order, separated by single spaces, and nothing else |
| `Routes.CatalogueYear` | server.js:52-54 | a truthy `annee` is kept verbatim; otherwise the year is the current year plus one as JavaScript prints it: decimal digits with no leading zero |
| `Routes.CatalogueTitle` | server.js:84 | the title is `Catalogue des formations FSH ` followed by the year |
| `Routes.RecordRoute` | server.js:99-123 | 400 exactly when `recordId` is missing or empty, with the French message; 500 exactly when the fetch gives no record; otherwise the route's template with the download name of the title made from the fetched record |
| `Routes.Programme` | server.js:95-131 | the `Sessions` record's download is named `<today> <programme title>.docx` from the programme template; 400 and 500 as for every record route |
| `Routes.Devis` | server.js:134-170 | the `Devis` record's download is named `<today> <devis title>.docx` from the devis template; 400 and 500 as for every record route |
| `Routes.Facture` | server.js:173-206 | the `Inscriptions` record's download is named `<today> <facture title>.docx` and uses the programme template; 400 and 500 as for every record route |
| `Routes.Catalogue` | server.js:47-93 | 500 exactly when the records query throws or gives a truthy result without `records` (reading `data.records.length` then throws); otherwise, a falsy result included, the catalogue template, downloaded as `<today> <catalogue title>.docx` |
| `Routes.ProgrammeTemplateStem` | server.js:119 | a `programme.docx` template under any directory would fall back to the title `programme` |
| `Routes.ProgrammeScenario` | server.js:114-122 | `Formation X` running from 2025-03-01 to 2025-03-03 downloads as `<today> Formation X01-03-2025-03-03-2025.docx` when `ymd` prints those dates as `01-03-2025` and `03-03-2025` |

## Left out

- HTTP handling: Express routing, request parsing, `index.html`, status codes as numbers, response headers, `res.json` and `res.end` (server.js:1-15, 273-285) are I/O. Replies are modelled as `Reply` values.
- `fetchTemplate`, `generateReport`, `getAirtableSchema`, `getAirtableRecord(s)`, `processFieldsForDocx`, `getFrenchFormattedDate` and `ymd` live in `utils.js`, which is not part of this model. The date helpers and the record fetch are parameters. The template fetch and the report generator are left out, so a failure inside `generateAndSendReport` (its own 500 reply) is not modelled.
- The Airtable formula of `/catalogue` (server.js:57-67) is opaque query text and is not modelled. It names the year 2025 whatever `annee` is; only the title uses `annee`.
- `/factures` (server.js:209-253), `generateReportBuffer` (server.js:305-313) and `createZipArchive` (server.js:335-359) are stream or archive code, and partly commented out.
- Async sequencing, the text `console` logs and the server start-up (server.js:366-368) have no behaviour to model. The one log argument that can throw, `data.records.length` in `/catalogue` (server.js:72), is modelled by `Routes.Catalogue`.
- `NodePath`: only Node's POSIX `path` is modelled. On Windows, `path` is `path.win32`, whose `basename` and `extname` also split on `\` and handle drive letters; that variant is not modelled.
- `Schemas.SchemasRoute`: `SchemaUnavailable` stands for every failure of the schema fetch, whether `getAirtableSchema` gives nothing back or throws (server.js:19, 39-41). A `Sessions` table without a `fields` list is not modelled; `.filter` on `undefined` would throw and answer 500 as well.
- Record values are strings or `undefined`. Lookup arrays, numbers and `null` are not modelled, so their JavaScript string forms (`a,b`, `null`) are not either.
- `Routes.Catalogue`: a query parameter given twice (an array in Express) and a current year below zero are not modelled. The year is a `nat`.
- `Routes.RecordRoute`: only the reply is modelled. Passing the fetched record to the report generator is not.
