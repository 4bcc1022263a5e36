/** The consumer's two handlers for `POST /api/items/search`. The current one validates the
    body with `searchItemRequestSchema`, runs the search use case and picks a status code
    from the wording of the use case's error; the older one checks the body by hand, reads
    the collection directly and picks the status code at each step. The repository's and
    the API's answers are parameters, as in the use case. */
module SearchControllers {
  import opened Wrappers
  import opened JsonValues
  import opened Validation
  import opened Items
  import opened ItemComparison
  import opened ConsumedItems
  import opened ConsumedItemRepositories
  import opened SearchRequests
  import opened SearchUseCase
  import Text

  /** The item a successful search returns; the older handler sends no `id`. */
  datatype ItemView = ItemView(
    id: Option<string>,
    fields: ItemFields,
    originalItemId: string,
    lastSyncedAt: Date,
    createdAt: nat,
    updatedAt: nat)

  /** `ApiResponseDto`: an absent member is `None`. */
  datatype ResponseBody = ResponseBody(
    success: bool,
    message: string,
    error: Option<string>,
    details: Option<MismatchDetails>,
    data: Option<ItemView>)

  datatype HttpResponse = HttpResponse(status: nat, body: ResponseBody)

  function Refusal(status: nat, message: string, error: Option<string>): HttpResponse {
    HttpResponse(status, ResponseBody(false, message, error, None, None))
  }

  const SearchFailed := "Error searching item"

  // ---------------------------------------------------------------------------
  // presentation/controllers/item.controller.ts

  /** The status chosen from `result.error`: 404 when it mentions either database's
      "not found" or "does not match", otherwise 500. */
  function StatusFor(error: Option<string>): (status: nat)
    ensures status == 404 || status == 500
  {
    if error.None? then 500
    else if Text.Includes(error.value, "not found in consumer database") then 404
    else if Text.Includes(error.value, "not found in my-tiny-app database") then 404
    else if Text.Includes(error.value, "does not match") then 404
    else if Text.Includes(error.value, "Error calling") then 500
    else 500
  }

  /** `result.error || 'Error searching item'` */
  function FailureMessage(error: Option<string>): string {
    if error.Some? && error.value != "" then error.value else SearchFailed
  }

  function EntityView(item: ConsumedItemEntity): ItemView {
    ItemView(Some(item.id), ConsumedFields(item), item.originalItemId, item.lastSyncedAt, item.createdAt, item.updatedAt)
  }

  /** `searchItemByName`: the response sent, and the calls the use case made. */
  function SearchItemByName(body: Json, replica: Lookup<ConsumedItemEntity>, api: ApiOutcome): (HttpResponse, seq<Call>) {
    match ParseSearchRequest(body)
    case Err(issues) => (Refusal(400, "Validation error", Some(DescribeIssues(issues))), [])
    case Ok(name) =>
      var (outcome, calls) := Execute(name, replica, api);
      match outcome
      case Err(t) => (Refusal(500, SearchFailed, Some(MessageOf(t))), calls)
      case Ok(result) =>
        if !result.success then
          (HttpResponse(StatusFor(result.error),
                        ResponseBody(false, FailureMessage(result.error), None, result.details, None)), calls)
        else
          (HttpResponse(200, ResponseBody(true, "Item found and fields match", None, None,
                                          Some(EntityView(result.item.value)))), calls)
  }

  // ---------------------------------------------------------------------------
  // controllers/item.controller.ts

  const NameRequired := "Name field is required in request body"

  /** `const { name } = req.body`: destructuring `null` throws a `TypeError`; any other
      body gives its `name` property, absent for a non-object. */
  function BodyName(body: Json): Result<Option<Json>, Thrown> {
    if body.JNull? then Err(ErrorObject("Cannot destructure property 'name' of 'req.body' as it is null."))
    else Ok(Property(body, "name"))
  }

  function RowView(row: ReplicaRow): ItemView {
    ItemView(None, row.fields, row.originalItemId, row.lastSyncedAt, row.createdAt, row.updatedAt)
  }

  /** The older `searchItemByName`: the response sent, and the calls made. */
  function LegacySearchItemByName(body: Json, replica: Lookup<ReplicaRow>, api: ApiOutcome): (HttpResponse, seq<Call>) {
    match BodyName(body)
    case Err(t) => (Refusal(500, SearchFailed, Some(MessageOf(t))), [])
    case Ok(v) =>
      if !(v.Some? && v.value.JString? && v.value.s != "") then (Refusal(400, NameRequired, None), [])
      else
        var name := v.value.s;
        match replica
        case Threw(t) => (Refusal(500, SearchFailed, Some(MessageOf(t))), [FindByNameCall(name)])
        case Answered(None) => (Refusal(404, ReplicaMissing, None), [FindByNameCall(name)])
        case Answered(Some(row)) =>
          var calls := [FindByNameCall(name), ApiSearchCall(name)];
          match api
          case ApiThrew(t) => (Refusal(500, "Error calling my-tiny-app API", Some(MessageOf(t))), calls)
          case ApiNotFound => (Refusal(404, PrimaryMissing, None), calls)
          case ApiFound(apiItem) =>
            if !CompareItems(row.fields, apiItem) then
              (HttpResponse(404, ResponseBody(false, FieldsDiffer, None, Some(MismatchDetails(row.fields, apiItem)), None)), calls)
            else
              (HttpResponse(200, ResponseBody(true, "Item found and fields match", None, None, Some(RowView(row)))), calls)
  }

  // ---------------------------------------------------------------------------
  // Properties.

  /** The replica's answer as the repository hands it to the use case. */
  function EntityLookup(l: Lookup<ReplicaRow>): Lookup<ConsumedItemEntity> {
    match l
    case Threw(t) => Threw(t)
    case Answered(None) => Answered(None)
    case Answered(Some(row)) => Answered(Some(ToDomainEntity(row)))
  }

  /** A body the schema refuses gets 400 with the issues, and nothing is looked up. */
  lemma ValidationRefused(body: Json, replica: Lookup<ConsumedItemEntity>, api: ApiOutcome)
    requires ParseSearchRequest(body).Err?
    ensures SearchItemByName(body, replica, api)
         == (Refusal(400, "Validation error", Some(DescribeIssues(SearchRequestIssues(body)))), [])
  {
  }

  /** The status of each use-case failure: 404 for a name either database lacks and for a
      mismatch, 500 for a rejected lookup; an API error gets 500 unless its wording
      mentions one of the three 404 phrases. */
  lemma StatusByOutcome(name: string, replica: Lookup<ConsumedItemEntity>, api: ApiOutcome)
    requires |name| >= 1
    ensures var (resp, _) := SearchItemByName(JObject(map["name" := JString(name)]), replica, api);
      && (replica.Threw? ==> resp.status == 500)
      && (replica == Answered(None) ==> resp == Refusal(404, ReplicaMissing, None))
      && (replica.Answered? && replica.found.Some? ==>
            match api
            case ApiNotFound => resp == Refusal(404, PrimaryMissing, None)
            case ApiThrew(t) =>
              && resp.body.message == ApiErrorPrefix + MessageOf(t)
              && resp.status == StatusFor(Some(ApiErrorPrefix + MessageOf(t)))
            case ApiFound(a) =>
              if CompareItems(ConsumedFields(replica.found.value), a) then
                resp == HttpResponse(200, ResponseBody(true, "Item found and fields match", None, None,
                                                       Some(EntityView(replica.found.value))))
              else
                && resp.status == 404 && resp.body.message == FieldsDiffer
                && resp.body.details == Some(MismatchDetails(ConsumedFields(replica.found.value), a)))
  {
    var body := JObject(map["name" := JString(name)]);
    assert ParseSearchRequest(body) == Ok(name);
    ReplicaMissingIs404();
    PrimaryMissingIs404();
    FieldsDifferIs404();
  }

  lemma ReplicaMissingIs404()
    ensures StatusFor(Some(ReplicaMissing)) == 404
  {
    Text.IncludesAt(ReplicaMissing, "not found in consumer database", 5);
  }

  lemma PrimaryMissingIs404()
    ensures StatusFor(Some(PrimaryMissing)) == 404
  {
    Text.IncludesAt(PrimaryMissing, "not found in my-tiny-app database", 5);
  }

  lemma FieldsDifferIs404()
    ensures StatusFor(Some(FieldsDiffer)) == 404
  {
    Text.IncludesAt(FieldsDiffer, "does not match", 17);
  }

  /** An API error whose wording says "does not match" is answered 404 by the current
      handler, where the older one answers 500 for every API error. The error text is written
      split around "does not match", as the messages in `SearchUseCase` are, so that the proof
      can locate the phrase. */
  lemma ApiErrorWordingDecidesStatus(row: ReplicaRow)
    ensures var name := row.fields.name;
      var t := ErrorObject("Hostname/IP " + "does not match" + " certificate's altnames");
      |name| >= 1 ==>
        && SearchItemByName(JObject(map["name" := JString(name)]), Answered(Some(ToDomainEntity(row))), ApiThrew(t)).0.status == 404
        && LegacySearchItemByName(JObject(map["name" := JString(name)]), Answered(Some(row)), ApiThrew(t)).0.status == 500
  {
    var name := row.fields.name;
    var tail := "does not match" + " certificate's altnames";
    var m := ApiErrorPrefix + ("Hostname/IP " + tail);
    assert m[43..] == tail;
    Text.IncludesAt(m, "does not match", 43);
    var t := ErrorObject("Hostname/IP " + "does not match" + " certificate's altnames");
    assert ApiErrorPrefix + MessageOf(t) == m;
    assert StatusFor(Some(m)) == 404;
    if |name| >= 1 {
      var body := JObject(map["name" := JString(name)]);
      assert ParseSearchRequest(body) == Ok(name);
      assert Property(body, "name") == Some(JString(name));
    }
  }

  /** The older handler's answer at each step: a rejected lookup is 500; no replica row is
      404 without asking the API; an API error is 500 "Error calling my-tiny-app API"; the
      API's null is 404; a mismatch is 404 with both sides' fields; agreement is 200 with
      the replica row, its `originalItemId` and `lastSyncedAt` included. */
  lemma LegacyResponses(name: string, l: Lookup<ReplicaRow>, api: ApiOutcome)
    requires |name| >= 1
    ensures var (resp, calls) := LegacySearchItemByName(JObject(map["name" := JString(name)]), l, api);
      && (l.Threw? ==> resp == Refusal(500, SearchFailed, Some(MessageOf(l.thrown))) && calls == [FindByNameCall(name)])
      && (l == Answered(None) ==> resp == Refusal(404, ReplicaMissing, None) && calls == [FindByNameCall(name)])
      && (l.Answered? && l.found.Some? ==>
            var row := l.found.value;
            && calls == [FindByNameCall(name), ApiSearchCall(name)]
            && match api
               case ApiThrew(t) => resp == Refusal(500, "Error calling my-tiny-app API", Some(MessageOf(t)))
               case ApiNotFound => resp == Refusal(404, PrimaryMissing, None)
               case ApiFound(a) =>
                 if CompareItems(row.fields, a) then
                   && resp.status == 200 && resp.body.success
                   && resp.body.data == Some(ItemView(None, row.fields, row.originalItemId, row.lastSyncedAt,
                                                      row.createdAt, row.updatedAt))
                 else
                   && resp.status == 404 && resp.body.message == FieldsDiffer
                   && resp.body.details == Some(MismatchDetails(row.fields, a)))
  {
    var body := JObject(map["name" := JString(name)]);
    assert Property(body, "name") == Some(JString(name));
  }

  /** Both handlers accept and refuse the same bodies, except `null`, which the older
      one fails on with 500; a refused body causes no lookup in either. */
  lemma SameBodiesRefused(body: Json, l: Lookup<ReplicaRow>, api: ApiOutcome)
    ensures body.JNull? ==>
      LegacySearchItemByName(body, l, api) == (Refusal(500, SearchFailed, Some(MessageOf(BodyName(body).error))), [])
    ensures !body.JNull? ==>
      (ParseSearchRequest(body).Err? <==> LegacySearchItemByName(body, l, api).0.status == 400)
    ensures !body.JNull? && ParseSearchRequest(body).Err? ==>
      LegacySearchItemByName(body, l, api) == (Refusal(400, NameRequired, None), [])
    ensures ParseSearchRequest(body).Err? ==> SearchItemByName(body, EntityLookup(l), api).1 == []
  {
  }

  /** On every body both accept, the two handlers make the same calls and send the same
      status, message, details and item (less its id), except that an API error keeps the
      older handler's 500 only when its wording avoids the three 404 phrases. */
  lemma HandlersAgree(name: string, l: Lookup<ReplicaRow>, api: ApiOutcome)
    requires |name| >= 1
    ensures var body := JObject(map["name" := JString(name)]);
      var (now, calls) := SearchItemByName(body, EntityLookup(l), api);
      var (before, legacyCalls) := LegacySearchItemByName(body, l, api);
      && calls == legacyCalls
      && (!api.ApiThrew? || !(l.Answered? && l.found.Some?) ==> now.status == before.status)
      && (!api.ApiThrew? ==>
            && now.body.message == before.body.message
            && now.body.details == before.body.details
            && now.body.success == before.body.success
            && (now.body.data.Some? <==> before.body.data.Some?)
            && (now.body.data.Some? ==> now.body.data.value.(id := None) == before.body.data.value))
      && (api.ApiThrew? && l.Answered? && l.found.Some? ==>
            (now.status == before.status <==> StatusFor(Some(ApiErrorPrefix + MessageOf(api.thrown))) == 500))
  {
    var body := JObject(map["name" := JString(name)]);
    assert ParseSearchRequest(body) == Ok(name);
    assert Property(body, "name") == Some(JString(name));
    ReplicaMissingIs404();
    PrimaryMissingIs404();
    FieldsDifferIs404();
  }
}
