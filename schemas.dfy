/**
 * The `/schemas` handler (server.js:17-43): from the data store's schema it
 * picks the `Sessions` table and returns, in schema order, the names of
 * its fields that hold markdown, i.e. rich-text fields and lookups of a
 * rich-text field.
 */
module Schemas {
  import opened Wrappers

  /**
   * A field descriptor.  `resultType` is `options.result.type`; `None`
   * stands for a descriptor without `options.result`.
   */
  datatype Field = Field(name: string, fieldType: string, resultType: Option<string>)

  datatype Table = Table(name: string, fields: seq<Field>)

  /** Why the handler answers with status 500 instead of a field list. */
  datatype SchemaError =
    | SchemaUnavailable                  // the schema fetch gave nothing
    | NoSessionsTable                    // `find` gave `undefined`; reading `.fields` throws
    | LookupWithoutResult(field: string) // `field.options.result.type` throws

  /** The field holds markdown: it is rich text, or a lookup whose result is rich text. */
  predicate HoldsMarkdown(f: Field) {
    f.fieldType == "richText"
    || (f.fieldType == "multipleLookupValues" && f.resultType == Some("richText"))
  }

  /** The filter callback throws on this field: a lookup without a result type. */
  predicate BreaksFilter(f: Field) {
    f.fieldType == "multipleLookupValues" && f.resultType.None?
  }

  /** The filter keeps the field: it holds markdown and its name, the callback's value, is truthy. */
  predicate Kept(f: Field) {
    HoldsMarkdown(f) && f.name != ""
  }

  /**
   * The filter callback: the truthiness of what it returns (`field.name`
   * for a markdown field, otherwise `null` or nothing), or the error it throws.
   */
  function KeepField(f: Field): (r: Result<bool, SchemaError>)
    ensures r.Err? <==> BreaksFilter(f)
    ensures r.Err? ==> r.error == LookupWithoutResult(f.name)
    ensures r.Ok? ==> (r.value <==> Kept(f))
  {
    if f.fieldType == "richText" then Ok(f.name != "")
    else if f.fieldType == "multipleLookupValues" then
      match f.resultType
      case None => Err(LookupWithoutResult(f.name))
      case Some(t) => Ok(t == "richText" && f.name != "")
    else Ok(false)
  }

  /**
   * `fields.filter(callback).map(field => field.name)` over the fields from
   * index `i` on: the callback runs on each field in order, and the first
   * one that throws ends the whole chain.
   */
  function NamesFrom(fields: seq<Field>, i: nat): (r: Result<seq<string>, SchemaError>)
    requires i <= |fields|
    ensures r.Err? <==> exists j :: i <= j < |fields| && BreaksFilter(fields[j])
    ensures r.Err? ==> exists j :: i <= j < |fields| && BreaksFilter(fields[j])
                                   && r.error == LookupWithoutResult(fields[j].name)
                                   && forall k :: i <= k < j ==> !BreaksFilter(fields[k])
    ensures r.Ok? ==> |r.value| <= |fields| - i
    ensures r.Ok? ==> forall x :: x in r.value <==> exists j :: i <= j < |fields| && fields[j].name == x && Kept(fields[j])
    decreases |fields| - i
  {
    if i == |fields| then Ok([])
    else
      match KeepField(fields[i])
      case Err(e) => Err(e)
      case Ok(keep) =>
        match NamesFrom(fields, i + 1)
        case Err(e) => Err(e)
        case Ok(rest) => Ok(if keep then [fields[i].name] + rest else rest)
  }

  /** The names of the markdown fields of one table's field list (server.js:25-36). */
  function MarkdownFieldNames(fields: seq<Field>): (r: Result<seq<string>, SchemaError>)
    ensures r.Err? <==> exists j :: 0 <= j < |fields| && BreaksFilter(fields[j])
    ensures r.Ok? ==> |r.value| <= |fields|
    ensures r.Ok? ==> forall x :: x in r.value ==> x != ""
    ensures r.Ok? ==> forall x :: x in r.value <==> exists j :: 0 <= j < |fields| && fields[j].name == x && Kept(fields[j])
  {
    NamesFrom(fields, 0)
  }

  /** The indices, from `i` on, of the fields the filter keeps. */
  function KeptIndicesFrom(fields: seq<Field>, i: nat): seq<nat>
    requires i <= |fields|
    decreases |fields| - i
  {
    if i == |fields| then []
    else (if Kept(fields[i]) then [i] else []) + KeptIndicesFrom(fields, i + 1)
  }

  /** The names, from `i` on, of the fields the filter keeps, ignoring fields that would throw. */
  function KeptNamesFrom(fields: seq<Field>, i: nat): seq<string>
    requires i <= |fields|
    decreases |fields| - i
  {
    if i == |fields| then []
    else (if Kept(fields[i]) then [fields[i].name] else []) + KeptNamesFrom(fields, i + 1)
  }

  /** `idx` lists, in increasing order, exactly the kept indices from `i` on, and `names` are their names. */
  ghost predicate SelectsInOrder(fields: seq<Field>, i: nat, idx: seq<nat>, names: seq<string>) {
    && |idx| == |names|
    && (forall k :: 0 <= k < |idx| ==> i <= idx[k] < |fields| && Kept(fields[idx[k]]) && fields[idx[k]].name == names[k])
    && (forall k, l :: 0 <= k < l < |idx| ==> idx[k] < idx[l])
    && (forall j :: i <= j < |fields| && Kept(fields[j]) ==> j in idx)
  }

  /** When the chain does not throw, it returns the kept names. */
  lemma {:induction false} NamesFromAreKept(fields: seq<Field>, i: nat)
    requires i <= |fields|
    requires NamesFrom(fields, i).Ok?
    ensures NamesFrom(fields, i).value == KeptNamesFrom(fields, i)
    decreases |fields| - i
  {
    if i < |fields| {
      assert KeepField(fields[i]).Ok?;
      NamesFromAreKept(fields, i + 1);
    }
  }

  lemma {:induction false} KeptFollowOrder(fields: seq<Field>, i: nat)
    requires i <= |fields|
    ensures SelectsInOrder(fields, i, KeptIndicesFrom(fields, i), KeptNamesFrom(fields, i))
    decreases |fields| - i
  {
    if i < |fields| {
      KeptFollowOrder(fields, i + 1);
      if Kept(fields[i]) {
        PrependSelected(fields, i, KeptIndicesFrom(fields, i + 1), KeptNamesFrom(fields, i + 1));
      }
    }
  }

  /**
   * The output keeps the schema's order: the k-th name is the name of the
   * k-th kept field, and every kept field is listed.
   */
  lemma NamesFollowSchemaOrder(fields: seq<Field>)
    requires MarkdownFieldNames(fields).Ok?
    ensures SelectsInOrder(fields, 0, KeptIndicesFrom(fields, 0), MarkdownFieldNames(fields).value)
  {
    NamesFromAreKept(fields, 0);
    KeptFollowOrder(fields, 0);
  }

  lemma PrependSelected(fields: seq<Field>, i: nat, idx: seq<nat>, names: seq<string>)
    requires i < |fields| && Kept(fields[i])
    requires SelectsInOrder(fields, i + 1, idx, names)
    ensures SelectsInOrder(fields, i, [i] + idx, [fields[i].name] + names)
  {
    var idx', names' := [i] + idx, [fields[i].name] + names;
    forall k | 0 <= k < |idx'|
      ensures i <= idx'[k] < |fields| && Kept(fields[idx'[k]]) && fields[idx'[k]].name == names'[k]
    {
      if k > 0 { assert idx'[k] == idx[k - 1] && names'[k] == names[k - 1]; }
    }
    forall k, l | 0 <= k < l < |idx'| ensures idx'[k] < idx'[l] {
      assert idx'[l] == idx[l - 1];
      if k > 0 { assert idx'[k] == idx[k - 1]; }
    }
    forall j | i <= j < |fields| && Kept(fields[j]) ensures j in idx' {
      if j > i { assert j in idx; }
    }
  }

  /** `tables.find(table => table.name === name)`: the first table with that name. */
  function FindTable(tables: seq<Table>, name: string): (r: Option<Table>)
    ensures r.None? <==> forall i :: 0 <= i < |tables| ==> tables[i].name != name
    ensures r.Some? ==> exists i :: 0 <= i < |tables| && tables[i] == r.value && r.value.name == name
                                    && forall j :: 0 <= j < i ==> tables[j].name != name
  {
    if tables == [] then None
    else if tables[0].name == name then Some(tables[0])
    else
      var r := FindTable(tables[1..], name);
      assert r.Some? ==> exists i :: 1 <= i < |tables| && tables[i] == r.value && r.value.name == name
                                     && forall j :: 0 <= j < i ==> tables[j].name != name by {
        if r.Some? {
          var i :| 0 <= i < |tables[1..]| && tables[1..][i] == r.value && r.value.name == name
                   && forall j :: 0 <= j < i ==> tables[1..][j].name != name;
          assert tables[i + 1] == r.value;
          assert forall j :: 1 <= j < i + 1 ==> tables[j].name == tables[1..][j - 1].name;
        }
      }
      r
  }

  /**
   * The whole handler: the schema fetch's result, `None` when it gave
   * nothing or threw (both end in the 500 reply), to the `champsMarkdown`
   * list or the error behind the 500 reply.
   */
  function SchemasRoute(schema: Option<seq<Table>>): (r: Result<seq<string>, SchemaError>)
    ensures schema.None? ==> r == Err(SchemaUnavailable)
    ensures schema.Some? ==>
      (r == Err(NoSessionsTable) <==> forall i :: 0 <= i < |schema.value| ==> schema.value[i].name != "Sessions")
    ensures schema.Some? && FindTable(schema.value, "Sessions").Some? ==>
      r == MarkdownFieldNames(FindTable(schema.value, "Sessions").value.fields)
  {
    match schema
    case None => Err(SchemaUnavailable)
    case Some(tables) =>
      match FindTable(tables, "Sessions")
      case None => Err(NoSessionsTable)
      case Some(sessions) => MarkdownFieldNames(sessions.fields)
  }

  /**
   * A field whose type is neither `richText` nor `multipleLookupValues` is
   * never listed and never makes the callback throw, whatever its name and
   * its result type: only lookups are looked through.
   */
  lemma OtherTypesNeverListed(fields: seq<Field>, j: nat)
    requires j < |fields|
    requires fields[j].fieldType != "richText" && fields[j].fieldType != "multipleLookupValues"
    ensures KeepField(fields[j]) == Ok(false)
    ensures j !in KeptIndicesFrom(fields, 0)
  {
    KeptFollowOrder(fields, 0);
  }
}
