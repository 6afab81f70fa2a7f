/**
 The Airtable table the check-in handler talks to, reduced to what the
 handler depends on: records with an id and named cells, the meaning of the
 two filter formulas it builds, and the effect of the PATCH (update) and
 POST (create) calls it issues. The formula language, URLs and HTTP are not
 modelled; only what the filters select and what the writes change.
 */
module RecordStore {
  import opened JsValues

  /** A cell value as the handler writes it: text or a checkbox. */
  datatype FieldValue = Text(text: string) | Flag(flag: bool)

  /** The cells of one record, by column name. */
  type Fields = map<string, FieldValue>

  datatype StoreRecord = StoreRecord(id: string, fields: Fields)

  type Table = seq<StoreRecord>

  const NameField: string := "Name"
  const PhoneField: string := "Phone"
  const TelegramField: string := "TG"
  const ArrivedField: string := "Arrived"
  const ArrivedAtField: string := "Arrived At"

  /** A cell as the filter formula sees it: text as is, blank or non-text as "". */
  function CellText(fields: Fields, column: string): string {
    if column in fields && fields[column].Text? then fields[column].text else ""
  }

  /** The two filters the handler can ask for. */
  datatype Query =
    | ByTelegram(handle: string)   // {TG}='<handle>'
    | ByPhone(core: string)        // SEARCH('<core>', {Phone})

  /**
   What a filter formula means for one record: equality on TG, containment in
   Phone. A non-empty handle matches only a TG cell holding exactly that text,
   a non-empty core only a text Phone cell, and an empty core every record.
   */
  predicate Matches(q: Query, r: StoreRecord)
    ensures q.ByTelegram? && q.handle != "" && Matches(q, r) ==>
      TelegramField in r.fields && r.fields[TelegramField] == Text(q.handle)
    ensures q.ByPhone? && q.core != "" && Matches(q, r) ==>
      PhoneField in r.fields && r.fields[PhoneField].Text?
    ensures q == ByPhone("") ==> Matches(q, r)
  {
    match q
    case ByTelegram(handle) => CellText(r.fields, TelegramField) == handle
    case ByPhone(core) =>
      var cell := CellText(r.fields, PhoneField);
      assert core == "" ==> StartsWith(cell[0..], core);
      Contains(cell, core)
  }

  /** The records a filtered list request returns: the matching ones, in table order. */
  function Search(table: Table, q: Query): (found: Table)
    ensures |found| <= |table|
    ensures forall r :: r in found ==> r in table && Matches(q, r)
    ensures forall r :: r in table && Matches(q, r) ==> r in found
    ensures |found| > 0 ==>
      exists k :: 0 <= k < |table| && table[k] == found[0] && Matches(q, table[k])
                  && forall j :: 0 <= j < k ==> !Matches(q, table[j])
  {
    if |table| == 0 then []
    else
      var rest := Search(table[1..], q);
      if Matches(q, table[0]) then
        [table[0]] + rest
      else
        SkipNonMatchingHead(table, q, rest);
        rest
  }

  /** A non-matching first record changes neither what is found nor which match comes first. */
  lemma SkipNonMatchingHead(table: Table, q: Query, rest: Table)
    requires |table| > 0 && !Matches(q, table[0])
    requires forall r :: r in table[1..] && Matches(q, r) ==> r in rest
    requires |rest| > 0 ==>
      exists k :: 0 <= k < |table[1..]| && table[1..][k] == rest[0] && Matches(q, table[1..][k])
                  && forall j :: 0 <= j < k ==> !Matches(q, table[1..][j])
    ensures forall r :: r in table && Matches(q, r) ==> r in rest
    ensures |rest| > 0 ==>
      exists k :: 0 <= k < |table| && table[k] == rest[0] && Matches(q, table[k])
                  && forall j :: 0 <= j < k ==> !Matches(q, table[j])
  {
    forall r | r in table && Matches(q, r) ensures r in rest {
      var i :| 0 <= i < |table| && table[i] == r;
      assert table[1..][i - 1] == r;
    }
    if |rest| > 0 {
      var k :| 0 <= k < |table[1..]| && table[1..][k] == rest[0] && Matches(q, table[1..][k])
               && forall j :: 0 <= j < k ==> !Matches(q, table[1..][j]);
      assert table[k + 1] == rest[0];
      forall j | 0 <= j < k + 1 ensures !Matches(q, table[j]) {
        if j > 0 { assert table[j] == table[1..][j - 1]; }
      }
    }
  }

  /** An Airtable PATCH: the given cells are overwritten, every other cell is kept. */
  function Patch(fields: Fields, written: Fields): (r: Fields)
    ensures r.Keys == fields.Keys + written.Keys
    ensures forall c :: c in written ==> r[c] == written[c]
    ensures forall c :: c in fields && c !in written ==> r[c] == fields[c]
  {
    fields + written
  }

  /** Applies a PATCH to every record carrying `id`; the other records are untouched. */
  function ApplyUpdate(table: Table, id: string, written: Fields): (t: Table)
    ensures |t| == |table|
    ensures forall i :: 0 <= i < |table| ==>
      t[i] == if table[i].id == id then StoreRecord(id, Patch(table[i].fields, written)) else table[i]
  {
    seq(|table|, i requires 0 <= i < |table| =>
      if table[i].id == id then StoreRecord(id, Patch(table[i].fields, written)) else table[i])
  }

  /** An Airtable POST: a new record with a store-assigned id is appended. */
  function ApplyCreate(table: Table, newId: string, written: Fields): (t: Table)
    ensures |t| == |table| + 1 && t[..|table|] == table
    ensures t[|table|] == StoreRecord(newId, written)
  {
    table + [StoreRecord(newId, written)]
  }

  /** The calls the handler makes to the table, in the order it makes them. */
  datatype StoreCall =
    | SearchCall(query: Query)
    | UpdateCall(id: string, written: Fields)
    | CreateCall(written: Fields)

  /** The table after one call; a create gets the store-assigned id `newId`. */
  function ApplyCall(table: Table, call: StoreCall, newId: string): (t: Table)
    ensures call.SearchCall? ==> t == table
    ensures call.UpdateCall? ==> |t| == |table| && forall i :: 0 <= i < |t| ==> t[i].id == table[i].id
    ensures call.CreateCall? ==> |t| == |table| + 1 && t[..|table|] == table && t[|table|] == StoreRecord(newId, call.written)
  {
    match call
    case SearchCall(_) => table
    case UpdateCall(id, written) => ApplyUpdate(table, id, written)
    case CreateCall(written) => ApplyCreate(table, newId, written)
  }

  /** The table after a sequence of calls, each create getting `newId`. */
  function ApplyCalls(table: Table, calls: seq<StoreCall>, newId: string): (t: Table)
    ensures (forall i :: 0 <= i < |calls| ==> calls[i].SearchCall?) ==> t == table
    decreases |calls|
  {
    if |calls| == 0 then table
    else ApplyCalls(ApplyCall(table, calls[0], newId), calls[1..], newId)
  }

  /** A search followed by one write changes the table by that write alone. */
  lemma SearchThenWrite(table: Table, calls: seq<StoreCall>, newId: string)
    requires |calls| == 2 && calls[0].SearchCall?
    ensures ApplyCalls(table, calls, newId) == ApplyCall(table, calls[1], newId)
  {
    assert calls[1..][1..] == [];
  }

  /** Writing cells a filter does not read leaves the record's match unchanged. */
  lemma PatchKeepsMatch(q: Query, r: StoreRecord, written: Fields)
    requires TelegramField !in written && PhoneField !in written
    ensures Matches(q, StoreRecord(r.id, Patch(r.fields, written))) <==> Matches(q, r)
  {
    var f := Patch(r.fields, written);
    assert CellText(f, TelegramField) == CellText(r.fields, TelegramField);
    assert CellText(f, PhoneField) == CellText(r.fields, PhoneField);
  }
}
