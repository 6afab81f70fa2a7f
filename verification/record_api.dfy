/**
 The check-in handler (`POST /api/record`): it picks a search from the
 request's Telegram handle or phone, asks the table for matching records, and
 then either marks the first match as arrived (UPDATE) or creates a new guest
 record (CREATE). The handler is modelled as a pure function of the request,
 the time string and the table's replies; its result is the list of calls it
 made to the table and the HTTP response it sent.
 */
module RecordApi {
  import opened JsValues
  import opened PhoneNormalizer
  import opened RecordStore

  /** The two body fields the handler reads. */
  datatype CheckInRequest = CheckInRequest(phone: Option<string>, telegram: Option<string>)

  /** The `type` field of a successful response: "UPDATE" or "CREATE". */
  datatype Action = Update | Create

  datatype ResponseBody =
    | CheckedIn(message: string, matchedValue: string, action: Action)   // { success: true, ... }
    | Failed(error: string)                                             // { error }

  datatype Response = Response(status: nat, body: ResponseBody)

  datatype Outcome = Outcome(calls: seq<StoreCall>, response: Response)

  /** What the table's list request gave back. */
  datatype SearchReply =
    | SearchThrew(message: string)        // fetch or JSON parsing threw
    | SearchRejected(message: string)     // the body carried an `error` object
    | SearchListed(records: Table)        // `records` (absent `records` reads as empty)

  /** What an update or create request gave back. */
  datatype MutationReply =
    | MutationThrew(message: string)                 // fetch threw
    | MutationAnswered(embeddedError: Option<string>) // a body, possibly with an `error` object

  const NoIdentifierError: string := "No Phone or Telegram data found"
  const NewGuestName: string := "New Guest"
  const UnknownName: string := "Unknown"
  const Sentinel: string := "-"
  const CreatedMessage: string := "New guest recorded"
  const CheckedInPrefix: string := "Checked in: "

  const StoreErrorPrefix: string := "Airtable Error: "

  /** The text of the error thrown when the search reply carries an `error` object. */
  function StoreErrorText(message: string): (text: string)
    ensures StartsWith(text, StoreErrorPrefix)
    ensures IsSuffix(message, text) && |text| == |StoreErrorPrefix| + |message|
  {
    StartsWithConcat(StoreErrorPrefix, message);
    SuffixOfConcat(StoreErrorPrefix, message);
    StoreErrorPrefix + message
  }

  /** Neither identifier is present: the request is refused before any call. */
  predicate NoIdentifier(req: CheckInRequest) {
    !Truthy(req.telegram) && !Truthy(req.phone)
  }

  /** The search the handler issues: a handle wins over a phone; a phone is reduced to its core digits. */
  function SelectQuery(req: CheckInRequest): (q: Option<Query>)
    ensures q.None? <==> NoIdentifier(req)
    ensures Truthy(req.telegram) ==> q == Some(ByTelegram(req.telegram.value))
    ensures !Truthy(req.telegram) && Truthy(req.phone) ==> q == Some(ByPhone(CorePhone(req.phone.value)))
  {
    if Truthy(req.telegram) then Some(ByTelegram(req.telegram.value))
    else if Truthy(req.phone) then Some(ByPhone(CorePhone(req.phone.value)))
    else None
  }

  /** The identifier as the guest supplied it, kept for a new record and the response. */
  function SearchValue(req: CheckInRequest): (v: string)
    requires !NoIdentifier(req)
    ensures v != ""
    ensures Truthy(req.telegram) ==> v == req.telegram.value
    ensures !Truthy(req.telegram) ==> v == req.phone.value
  {
    if Truthy(req.telegram) then req.telegram.value else req.phone.value
  }

  /** `fields.Name || "Unknown"` */
  function DisplayName(r: StoreRecord): (name: string)
    ensures name != ""
    ensures CellText(r.fields, NameField) != "" ==> name == CellText(r.fields, NameField)
    ensures CellText(r.fields, NameField) == "" ==> name == UnknownName
  {
    var name := CellText(r.fields, NameField);
    if name != "" then name else UnknownName
  }

  /** The cells an UPDATE writes. */
  function UpdateFields(time: string): (f: Fields)
    ensures f.Keys == {ArrivedField, ArrivedAtField}
    ensures f[ArrivedField] == Flag(true) && f[ArrivedAtField] == Text(time)
  {
    map[ArrivedField := Flag(true), ArrivedAtField := Text(time)]
  }

  /** The cells a CREATE writes: the search key in its own column, the sentinel in the other. */
  function CreateFields(req: CheckInRequest, time: string): (f: Fields)
    requires !NoIdentifier(req)
    ensures f.Keys == {NameField, ArrivedField, ArrivedAtField, TelegramField, PhoneField}
    ensures f[NameField] == Text(NewGuestName)
    ensures f[ArrivedField] == Flag(true) && f[ArrivedAtField] == Text(time)
    ensures Truthy(req.telegram) ==> f[TelegramField] == Text(req.telegram.value) && f[PhoneField] == Text(Sentinel)
    ensures !Truthy(req.telegram) ==> f[PhoneField] == Text(req.phone.value) && f[TelegramField] == Text(Sentinel)
  {
    var base := map[NameField := Text(NewGuestName), ArrivedField := Flag(true), ArrivedAtField := Text(time)];
    if Truthy(req.telegram) then
      base[TelegramField := Text(req.telegram.value)][PhoneField := Text(Sentinel)]
    else
      base[PhoneField := Text(req.phone.value)][TelegramField := Text(Sentinel)]
  }

  /** Where the handler stands once the search reply is in. */
  datatype Step =
    | Answered(outcome: Outcome)                               // no mutation will be issued
    | Mutating(search: StoreCall, write: StoreCall, success: Response)

  /**
   The upsert decision: no identifier is a 400 before any call; a failed
   search is a 500 after the search alone; otherwise the search is followed
   by an update of the first record listed, or by a create when none is.
   */
  function Decide(req: CheckInRequest, time: string, reply: SearchReply): (step: Step)
    ensures NoIdentifier(req) ==> step == Answered(Outcome([], Response(400, Failed(NoIdentifierError))))
    ensures step.Mutating? <==> !NoIdentifier(req) && reply.SearchListed?
    ensures !NoIdentifier(req) && reply.SearchThrew? ==> step.outcome.response.body == Failed(reply.message)
    ensures !NoIdentifier(req) && reply.SearchRejected? ==>
      step.outcome.response.body == Failed(StoreErrorText(reply.message))
    ensures step.Answered? && !NoIdentifier(req) ==>
      step.outcome.calls == [SearchCall(SelectQuery(req).value)] && step.outcome.response.status == 500
    ensures step.Mutating? ==> step.search == SearchCall(SelectQuery(req).value) && step.success.status == 200
    ensures step.Mutating? && |reply.records| > 0 ==>
      step.write == UpdateCall(reply.records[0].id, UpdateFields(time))
    ensures step.Mutating? && |reply.records| == 0 ==> step.write == CreateCall(CreateFields(req, time))
  {
    match SelectQuery(req)
    case None => Answered(Outcome([], Response(400, Failed(NoIdentifierError))))
    case Some(q) =>
      match reply
      case SearchThrew(m) => Answered(Outcome([SearchCall(q)], Response(500, Failed(m))))
      case SearchRejected(m) => Answered(Outcome([SearchCall(q)], Response(500, Failed(StoreErrorText(m)))))
      case SearchListed(records) =>
        if |records| > 0 then
          var name := DisplayName(records[0]);
          Mutating(SearchCall(q), UpdateCall(records[0].id, UpdateFields(time)),
                   Response(200, CheckedIn(CheckedInPrefix + name, name, Update)))
        else
          Mutating(SearchCall(q), CreateCall(CreateFields(req, time)),
                   Response(200, CheckedIn(CreatedMessage, SearchValue(req), Create)))
  }

  /**
   The handler as the source has it: the body of the update or create reply
   is never looked at, so only a thrown fetch turns into a 500.
   */
  function HandleCheckInAsWritten(req: CheckInRequest, time: string, search: SearchReply, mutation: MutationReply): (o: Outcome)
    ensures o.response.status in {200, 400, 500}
    ensures o.response.status == 400 <==> NoIdentifier(req)
    ensures o.response.status == 200 <==>
      !NoIdentifier(req) && search.SearchListed? && mutation.MutationAnswered?
    ensures !NoIdentifier(req) && search.SearchThrew? ==> o.response.body == Failed(search.message)
    ensures !NoIdentifier(req) && search.SearchListed? && mutation.MutationThrew? ==>
      o.response.body == Failed(mutation.message)
  {
    match Decide(req, time, search)
    case Answered(o) => o
    case Mutating(s, w, ok) =>
      Outcome([s, w], match mutation
                      case MutationThrew(m) => Response(500, Failed(m))
                      case MutationAnswered(_) => ok)
  }

  /**
   The handler with the mutation reply checked: an error object in the body
   of the update or create reply fails the request like one in the search reply.
   */
  function HandleCheckIn(req: CheckInRequest, time: string, search: SearchReply, mutation: MutationReply): (o: Outcome)
    ensures o.response.status in {200, 400, 500}
    ensures o.response.status == 400 <==> NoIdentifier(req)
    ensures o.calls == [] <==> NoIdentifier(req)
    ensures o.response.status == 200 <==>
      !NoIdentifier(req) && search.SearchListed? && mutation == MutationAnswered(None)
    ensures o.response.body.CheckedIn? <==> o.response.status == 200
    ensures !NoIdentifier(req) && search.SearchThrew? ==> o.response.body == Failed(search.message)
    ensures !NoIdentifier(req) && search.SearchListed? && mutation.MutationThrew? ==>
      o.response.body == Failed(mutation.message)
    ensures !NoIdentifier(req) && search.SearchListed? && mutation.MutationAnswered? && mutation.embeddedError.Some? ==>
      o.response.body == Failed(StoreErrorText(mutation.embeddedError.value))
    ensures |o.calls| <= 2
    ensures !NoIdentifier(req) ==> o.calls[0] == SearchCall(SelectQuery(req).value)
    ensures |o.calls| == 2 <==> !NoIdentifier(req) && search.SearchListed?
  {
    match Decide(req, time, search)
    case Answered(o) => o
    case Mutating(s, w, ok) =>
      Outcome([s, w], match mutation
                      case MutationThrew(m) => Response(500, Failed(m))
                      case MutationAnswered(None) => ok
                      case MutationAnswered(Some(e)) => Response(500, Failed(StoreErrorText(e))))
  }

  /** The only difference between the two: a mutation reply carrying an error. */
  lemma {:induction false} AsWrittenAgreesWithoutEmbeddedError(req: CheckInRequest, time: string, search: SearchReply, mutation: MutationReply)
    requires mutation != MutationAnswered(None) ==> mutation.MutationThrew?
    ensures HandleCheckInAsWritten(req, time, search, mutation) == HandleCheckIn(req, time, search, mutation)
  {
  }

  /** The source's answer does not depend on what the update or create reply body says. */
  lemma AsWrittenIgnoresMutationBody(req: CheckInRequest, time: string, search: SearchReply,
                                     e1: Option<string>, e2: Option<string>)
    ensures HandleCheckInAsWritten(req, time, search, MutationAnswered(e1))
         == HandleCheckInAsWritten(req, time, search, MutationAnswered(e2))
  {
  }

  /** An UPDATE the table refused with an error body is still reported as a check-in by the source. */
  lemma AsWrittenReportsRefusedUpdate()
    ensures var req := CheckInRequest(None, Some("@alice"));
            var found := SearchListed([StoreRecord("rec1", map[TelegramField := Text("@alice")])]);
            var refused := MutationAnswered(Some("UNKNOWN_FIELD_NAME"));
            && HandleCheckInAsWritten(req, "09:00 AM", found, refused).response.status == 200
            && HandleCheckIn(req, "09:00 AM", found, refused).response.status == 500
  {
  }

  /** A handle decides the whole outcome: the phone field is then ignored entirely. */
  lemma {:induction false} TelegramWins(phone1: Option<string>, phone2: Option<string>, telegram: Option<string>,
                                        time: string, search: SearchReply, mutation: MutationReply)
    requires Truthy(telegram)
    ensures HandleCheckIn(CheckInRequest(phone1, telegram), time, search, mutation)
         == HandleCheckIn(CheckInRequest(phone2, telegram), time, search, mutation)
  {
    assert CreateFields(CheckInRequest(phone1, telegram), time) == CreateFields(CheckInRequest(phone2, telegram), time);
  }

  /** Without a handle or a phone the answer is 400 and the table is never called. */
  lemma NoIdentifierRejected(req: CheckInRequest, time: string, search: SearchReply, mutation: MutationReply)
    requires NoIdentifier(req)
    ensures HandleCheckIn(req, time, search, mutation) == Outcome([], Response(400, Failed(NoIdentifierError)))
  {
  }

  /**
   The search selects by exact handle equality, or by containment of the
   phone's core digits in the stored Phone cell.
   */
  lemma SearchMeaning(req: CheckInRequest, time: string, search: SearchReply, mutation: MutationReply, r: StoreRecord)
    requires !NoIdentifier(req)
    ensures var call := HandleCheckIn(req, time, search, mutation).calls[0];
            && call.SearchCall?
            && (Truthy(req.telegram) ==>
                  (Matches(call.query, r) <==> CellText(r.fields, TelegramField) == req.telegram.value))
            && (!Truthy(req.telegram) ==>
                  (Matches(call.query, r) <==> Contains(CellText(r.fields, PhoneField), CorePhone(req.phone.value))))
  {
  }

  /** A failed search ends the request with 500 after the search alone: no update, no create. */
  lemma SearchFailureStopsEarly(req: CheckInRequest, time: string, search: SearchReply, mutation: MutationReply)
    requires !NoIdentifier(req) && !search.SearchListed?
    ensures var o := HandleCheckIn(req, time, search, mutation);
            && o.calls == [SearchCall(SelectQuery(req).value)]
            && o.response.status == 500
            && (search.SearchRejected? ==> o.response.body == Failed(StoreErrorText(search.message)))
  {
  }

  /**
   A non-empty result updates only the first record and writes only
   `Arrived` and `Arrived At`; the answer names the record (or "Unknown").
   */
  lemma MatchUpdatesFirstRecord(req: CheckInRequest, time: string, records: Table, mutation: MutationReply)
    requires !NoIdentifier(req) && |records| > 0
    ensures var o := HandleCheckIn(req, time, SearchListed(records), mutation);
            && |o.calls| == 2
            && o.calls[1].UpdateCall?
            && o.calls[1].id == records[0].id
            && o.calls[1].written.Keys == {ArrivedField, ArrivedAtField}
            && o.calls[1].written[ArrivedField] == Flag(true)
            && o.calls[1].written[ArrivedAtField] == Text(time)
            && (mutation == MutationAnswered(None) ==>
                  && o.response.body.action == Update
                  && o.response.body.matchedValue == DisplayName(records[0])
                  && o.response.body.message == CheckedInPrefix + DisplayName(records[0])
                  && (CellText(records[0].fields, NameField) == "" ==> o.response.body.matchedValue == UnknownName))
  {
  }

  /** The update leaves every other cell of the matched record as it was. */
  lemma UpdateKeepsOtherCells(record: StoreRecord, time: string, column: string)
    requires column in record.fields && column != ArrivedField && column != ArrivedAtField
    ensures Patch(record.fields, UpdateFields(time))[column] == record.fields[column]
  {
  }

  /**
   An empty result creates a guest named "New Guest", arrived at `time`, with
   the raw identifier in its own column and "-" in the other.
   */
  lemma NoMatchCreatesGuest(req: CheckInRequest, time: string, mutation: MutationReply)
    requires !NoIdentifier(req)
    ensures var o := HandleCheckIn(req, time, SearchListed([]), mutation);
            && |o.calls| == 2
            && o.calls[1].CreateCall?
            && var f := o.calls[1].written;
            && f.Keys == {NameField, ArrivedField, ArrivedAtField, TelegramField, PhoneField}
            && f[NameField] == Text(NewGuestName)
            && f[ArrivedField] == Flag(true)
            && f[ArrivedAtField] == Text(time)
            && (Truthy(req.telegram) ==>
                  f[TelegramField] == Text(req.telegram.value) && f[PhoneField] == Text(Sentinel))
            && (!Truthy(req.telegram) ==>
                  f[PhoneField] == Text(req.phone.value) && f[TelegramField] == Text(Sentinel))
            && (mutation == MutationAnswered(None) ==>
                  o.response == Response(200, CheckedIn(CreatedMessage, SearchValue(req), Create)))
  {
  }

  /** The corrected handler never reports success over a mutation the table refused. */
  lemma SuccessMeansMutationAccepted(req: CheckInRequest, time: string, search: SearchReply, mutation: MutationReply)
    requires HandleCheckIn(req, time, search, mutation).response.status == 200
    ensures mutation == MutationAnswered(None)
    ensures |HandleCheckIn(req, time, search, mutation).calls| == 2
  {
  }

  /**
   A whole request against a concrete table whose replies follow the filter's
   meaning. This table always answers: the search is listed and the write is
   accepted; failing replies are covered by the handler's own contract.
   */
  datatype Run = Run(outcome: Outcome, after: Table)

  /** The reply of a table that always answers: the records its filter selects. */
  function SearchAgainst(table: Table, req: CheckInRequest): (reply: SearchReply)
    ensures reply.SearchListed?
    ensures !NoIdentifier(req) ==> reply.records == Search(table, SelectQuery(req).value)
  {
    match SelectQuery(req)
    case None => SearchListed([])
    case Some(q) => SearchListed(Search(table, q))
  }

  /** One check-in against the table: the outcome, and the table after the calls it made. */
  function CheckInAgainst(table: Table, req: CheckInRequest, time: string, newId: string): (run: Run)
    ensures NoIdentifier(req) ==> run.after == table
    ensures !NoIdentifier(req) ==>
      |run.outcome.calls| == 2 && run.after == ApplyCall(table, run.outcome.calls[1], newId)
  {
    var o := HandleCheckIn(req, time, SearchAgainst(table, req), MutationAnswered(None));
    var after := ApplyCalls(table, o.calls, newId);
    if NoIdentifier(req) then Run(o, after)
    else SearchThenWrite(table, o.calls, newId); Run(o, after)
  }

  /** Against a real table the branch taken is UPDATE exactly when some record matches. */
  lemma CheckInAgainstBranch(table: Table, req: CheckInRequest, time: string, newId: string)
    requires !NoIdentifier(req)
    ensures var o := CheckInAgainst(table, req, time, newId).outcome;
            && o.response.status == 200
            && (o.response.body.action == Update <==> exists r :: r in table && Matches(SelectQuery(req).value, r))
  {
    var q := SelectQuery(req).value;
    var found := Search(table, q);
    var o := HandleCheckIn(req, time, SearchListed(found), MutationAnswered(None));
    assert CheckInAgainst(table, req, time, newId).outcome == o;
    if |found| > 0 {
      MatchUpdatesFirstRecord(req, time, found, MutationAnswered(None));
      assert found[0] in found;
    } else {
      NoMatchCreatesGuest(req, time, MutationAnswered(None));
    }
  }

  /** The record a CREATE writes is found by the very search that missed it. */
  lemma CreatedRecordMatches(req: CheckInRequest, time: string, id: string)
    requires !NoIdentifier(req)
    ensures Matches(SelectQuery(req).value, StoreRecord(id, CreateFields(req, time)))
  {
    var f := CreateFields(req, time);
    if !Truthy(req.telegram) {
      var phone := req.phone.value;
      assert CellText(f, PhoneField) == phone;
      SuffixContained(CorePhone(phone), phone);
    }
  }

  /** The table after a check-in: the first match patched, or one new guest appended. */
  lemma CheckInAgainstWrites(table: Table, req: CheckInRequest, time: string, newId: string)
    requires !NoIdentifier(req)
    ensures var found := Search(table, SelectQuery(req).value);
            var after := CheckInAgainst(table, req, time, newId).after;
            && (|found| > 0 ==> after == ApplyUpdate(table, found[0].id, UpdateFields(time)))
            && (|found| == 0 ==> after == ApplyCreate(table, newId, CreateFields(req, time)))
  {
    var q := SelectQuery(req).value;
    var found := Search(table, q);
    var run := CheckInAgainst(table, req, time, newId);
    var step := Decide(req, time, SearchListed(found));
    assert run.outcome == HandleCheckIn(req, time, SearchListed(found), MutationAnswered(None));
    assert run.outcome.calls[1] == step.write;
    if |found| > 0 {
      assert step.write == UpdateCall(found[0].id, UpdateFields(time));
    } else {
      assert step.write == CreateCall(CreateFields(req, time));
    }
  }

  /** A record the search finds, marked arrived at `time`. */
  predicate ArrivedMatch(q: Query, r: StoreRecord, time: string) {
    && Matches(q, r)
    && ArrivedField in r.fields && r.fields[ArrivedField] == Flag(true)
    && ArrivedAtField in r.fields && r.fields[ArrivedAtField] == Text(time)
  }

  /** Patching the first match with the arrival cells leaves a matching record marked arrived at `time`. */
  lemma PatchedMatchArrived(table: Table, q: Query, time: string)
    requires |Search(table, q)| > 0
    ensures exists r :: r in ApplyUpdate(table, Search(table, q)[0].id, UpdateFields(time)) && ArrivedMatch(q, r, time)
  {
    var m := Search(table, q)[0];
    assert m in Search(table, q);
    var k :| 0 <= k < |table| && table[k] == m;
    var after := ApplyUpdate(table, m.id, UpdateFields(time));
    var r := StoreRecord(m.id, Patch(m.fields, UpdateFields(time)));
    assert after[k] == r;
    PatchKeepsMatch(q, m, UpdateFields(time));
    assert ArrivedMatch(q, r, time);
    assert r in after;
  }

  /** Appending the guest a CREATE writes leaves a matching record marked arrived at `time`. */
  lemma CreatedArrived(table: Table, req: CheckInRequest, time: string, newId: string)
    requires !NoIdentifier(req)
    ensures exists r :: r in ApplyCreate(table, newId, CreateFields(req, time)) && ArrivedMatch(SelectQuery(req).value, r, time)
  {
    var after := ApplyCreate(table, newId, CreateFields(req, time));
    var r := StoreRecord(newId, CreateFields(req, time));
    assert after[|table|] == r;
    CreatedRecordMatches(req, time, newId);
    assert ArrivedMatch(SelectQuery(req).value, r, time);
    assert r in after;
  }

  /** After a check-in the table holds a record the same search finds, marked arrived at `time`. */
  lemma {:induction false} CheckInLeavesArrivedRecord(table: Table, req: CheckInRequest, time: string, newId: string)
    requires !NoIdentifier(req)
    ensures exists r :: r in CheckInAgainst(table, req, time, newId).after && ArrivedMatch(SelectQuery(req).value, r, time)
  {
    var q := SelectQuery(req).value;
    CheckInAgainstWrites(table, req, time, newId);
    if |Search(table, q)| > 0 {
      PatchedMatchArrived(table, q, time);
    } else {
      CreatedArrived(table, req, time, newId);
    }
  }

  /**
   Checking in twice with the same identifier: the second request finds a
   record, so it is an UPDATE, and afterwards a matching record carries the
   second request's time.
   */
  lemma {:induction false} RepeatedCheckInUpdates(table: Table, req: CheckInRequest, t1: string, id1: string, t2: string, id2: string)
    requires !NoIdentifier(req)
    ensures var first := CheckInAgainst(table, req, t1, id1);
            var second := CheckInAgainst(first.after, req, t2, id2);
            && second.outcome.response.body.CheckedIn?
            && second.outcome.response.body.action == Update
            && exists r :: r in second.after && ArrivedMatch(SelectQuery(req).value, r, t2)
  {
    var first := CheckInAgainst(table, req, t1, id1);
    CheckInLeavesArrivedRecord(table, req, t1, id1);
    CheckInAgainstBranch(first.after, req, t2, id2);
    CheckInLeavesArrivedRecord(first.after, req, t2, id2);
  }

  /**
   A guest stored under any written form of a number is found, and updated,
   when any written form of that number is scanned.
   */
  lemma {:induction false} StoredVariantFound(table: Table, n: string, scanned: string, time: string, newId: string)
    requires scanned != "" && scanned in Variants(n)
    requires exists r :: r in table && CellText(r.fields, PhoneField) in Variants(n)
    ensures CheckInAgainst(table, CheckInRequest(Some(scanned), None), time, newId).outcome.response.body.action == Update
  {
    var req := CheckInRequest(Some(scanned), None);
    var r :| r in table && CellText(r.fields, PhoneField) in Variants(n);
    VariantsMatchEachOther(n, scanned, CellText(r.fields, PhoneField));
    assert Matches(SelectQuery(req).value, r);
    CheckInAgainstBranch(table, req, time, newId);
  }

  /** A stored number with its trunk zero, "0770123456", is found from the core form "770123456". */
  lemma CoreFormFindsStoredNumber(time: string, newId: string)
    ensures var table := [StoreRecord("rec1", map[PhoneField := Text("0770123456")])];
            CheckInAgainst(table, CheckInRequest(Some("770123456"), None), time, newId)
              .outcome.response.body.action == Update
  {
    var table := [StoreRecord("rec1", map[PhoneField := Text("0770123456")])];
    assert table[0] in table;
    assert "0770123456" == TrunkZero + "770123456";
    StoredVariantFound(table, "770123456", "770123456", time, newId);
  }

  /** "999999" occurs nowhere in a stored "0770123456" (it has no '9'), so a new guest is created. */
  lemma UnrelatedNumberCreates(time: string, newId: string)
    ensures var table := [StoreRecord("rec1", map[PhoneField := Text("0770123456")])];
            CheckInAgainst(table, CheckInRequest(Some("999999"), None), time, newId)
              .outcome.response.body.action == Create
  {
    var table := [StoreRecord("rec1", map[PhoneField := Text("0770123456")])];
    var req := CheckInRequest(Some("999999"), None);
    assert !StartsWith("999999", CountryCode) by { assert "999999"[..3][1] == '9'; }
    FirstCharDiffers("999999", TrunkZero);
    assert SelectQuery(req).value == ByPhone("999999");
    AbsentCharNotContained("0770123456", "999999", 0);
    assert forall r :: r in table ==> !Matches(ByPhone("999999"), r);
    CheckInAgainstBranch(table, req, time, newId);
  }
}
