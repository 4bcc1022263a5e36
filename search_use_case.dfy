/** `SearchItemByNameUseCase.execute`: look the name up in the replica, ask the primary's
    API for the same name, and compare the two. The repository's answer and the API's
    answer are parameters; what the use case makes of them, and which calls it makes,
    is the model. */
module SearchUseCase {
  import opened Wrappers
  import opened Items
  import opened ItemComparison
  import opened ConsumedItems
  import opened ConsumedItemRepositories
  import Text

  /** An awaited repository call: it resolves to a value or null, or it rejects. */
  datatype Lookup<T> = Answered(found: Option<T>) | Threw(thrown: Thrown)

  /** `IExternalApiService.searchItemByName`: the primary's item, null, or a rejection. */
  datatype ApiOutcome = ApiFound(item: ItemFields) | ApiNotFound | ApiThrew(thrown: Thrown)

  /** The calls the use case makes, in order. */
  datatype Call = FindByNameCall(name: string) | ApiSearchCall(name: string)

  /** `details`: the four compared fields of both sides. */
  datatype MismatchDetails = MismatchDetails(consumedItem: ItemFields, apiItem: ItemFields)

  datatype SearchItemResult = SearchItemResult(
    success: bool,
    item: Option<ConsumedItemEntity>,
    error: Option<string>,
    details: Option<MismatchDetails>)

  // The messages are the source's literals. Each is written as a concatenation around the
  // phrase the status lemmas look for: the verifier cannot see inside one long literal,
  // and the pieces let it find "not found" and "does not match" at their positions.
  const ReplicaMissing := "Item " + "not found in consumer database"
  const ApiErrorPrefix := "Error calling my-tiny-app API: "
  const PrimaryMissing := "Item " + "not found in my-tiny-app database"
  const FieldsDiffer := "Item information " + "does not match" + " between consumer database and my-tiny-app database"

  function Failure(error: string, details: Option<MismatchDetails>): SearchItemResult {
    SearchItemResult(false, None, Some(error), details)
  }

  /** `execute(name)`: the result, or the repository's rejection re-thrown, with the calls made. */
  function Execute(name: string, replica: Lookup<ConsumedItemEntity>, api: ApiOutcome)
    : (r: (Result<SearchItemResult, Thrown>, seq<Call>))
    ensures r.0.Ok? && r.0.value.success ==> r.0.value.item.Some?
  {
    match replica
    case Threw(t) => (Err(t), [FindByNameCall(name)])
    case Answered(None) => (Ok(Failure(ReplicaMissing, None)), [FindByNameCall(name)])
    case Answered(Some(consumedItem)) =>
      var calls := [FindByNameCall(name), ApiSearchCall(name)];
      match api
      case ApiThrew(t) => (Ok(Failure(ApiErrorPrefix + MessageOf(t), None)), calls)
      case ApiNotFound => (Ok(Failure(PrimaryMissing, None)), calls)
      case ApiFound(apiItem) =>
        var consumed := ConsumedFields(consumedItem);
        if !CompareItems(consumed, apiItem) then
          (Ok(Failure(FieldsDiffer, Some(MismatchDetails(consumed, apiItem)))), calls)
        else
          (Ok(SearchItemResult(true, Some(consumedItem), None, None)), calls)
  }

  // ---------------------------------------------------------------------------
  // Properties.

  /** The search succeeds exactly when both sides hold the item and they agree on it; the
      item it returns is the replica's. */
  lemma SuccessIffAgreement(name: string, replica: Lookup<ConsumedItemEntity>, api: ApiOutcome)
    ensures var (r, _) := Execute(name, replica, api);
      (r.Ok? && r.value.success) <==>
        && replica.Answered? && replica.found.Some? && api.ApiFound?
        && CompareItems(ConsumedFields(replica.found.value), api.item)
    ensures var (r, _) := Execute(name, replica, api);
      r.Ok? && r.value.success ==>
        r.value.item == replica.found && r.value.error.None? && r.value.details.None?
  {
  }

  /** A failure always carries one of the four messages; details come only with a mismatch,
      and then hold both sides' fields, which the comparison finds unequal. */
  lemma FailureSpec(name: string, replica: Lookup<ConsumedItemEntity>, api: ApiOutcome)
    ensures var (r, _) := Execute(name, replica, api);
      r.Ok? && !r.value.success ==>
        && r.value.item.None? && r.value.error.Some?
        && (replica == Answered(None) <==> r.value.error == Some(ReplicaMissing))
        && (Text.StartsWith(r.value.error.value, ApiErrorPrefix) <==>
              api.ApiThrew? && replica.Answered? && replica.found.Some?)
        && (api.ApiThrew? && replica.Answered? && replica.found.Some? ==>
              r.value.error == Some(ApiErrorPrefix + MessageOf(api.thrown)))
        && (r.value.details.Some? <==> r.value.error == Some(FieldsDiffer))
        && (r.value.details.Some? ==>
              && api.ApiFound?
              && r.value.details.value == MismatchDetails(ConsumedFields(replica.found.value), api.item)
              && !CompareItems(r.value.details.value.consumedItem, r.value.details.value.apiItem))
    ensures var (r, _) := Execute(name, replica, api);
      r.Err? <==> replica.Threw?
  {
    assert ReplicaMissing[18] != PrimaryMissing[18];
    assert |ReplicaMissing| != |FieldsDiffer| && |PrimaryMissing| != |FieldsDiffer|;
    assert ReplicaMissing[0] == 'I' && PrimaryMissing[0] == 'I';
    assert FieldsDiffer[0] == 'I';
    if replica.Answered? && replica.found.Some? && api.ApiThrew? {
      var e := ApiErrorPrefix + MessageOf(api.thrown);
      assert e[..|ApiErrorPrefix|] == ApiErrorPrefix;
      assert e[0] == 'E';
    }
  }

  /** The replica is asked first, once; the API is asked only when the replica holds the
      name, once, with the same name. */
  lemma CallsSpec(name: string, replica: Lookup<ConsumedItemEntity>, api: ApiOutcome)
    ensures var (_, calls) := Execute(name, replica, api);
      && calls[0] == FindByNameCall(name)
      && (calls == [FindByNameCall(name)] <==> !(replica.Answered? && replica.found.Some?))
      && (calls == [FindByNameCall(name), ApiSearchCall(name)] <==> replica.Answered? && replica.found.Some?)
  {
  }

  /** The answer does not depend on the API when the replica has no such item. */
  lemma ReplicaMissIgnoresApi(name: string, api1: ApiOutcome, api2: ApiOutcome)
    ensures Execute(name, Answered(None), api1) == Execute(name, Answered(None), api2)
    ensures Execute(name, Answered(None), api1).0 == Ok(Failure(ReplicaMissing, None))
  {
  }

  /** Over the repository, a successful search returns the newest row named as the trimmed
      query, and it fails with "not found in consumer database" exactly when no row has
      that name. */
  lemma SearchOverReplica(s: ReplicaState, name: string, api: ApiOutcome)
    requires WellFormed(s)
    ensures var (r, _) := Execute(name, Answered(FindByName(s, name)), api);
      && (r == Ok(Failure(ReplicaMissing, None)) <==> forall q :: q in s.rows ==> q.fields.name != Text.Trim(name))
      && (r.Ok? && r.value.success ==>
            && r.value.item.value.name == Text.Trim(name)
            && (exists q :: q in s.rows && r.value.item.value == ToDomainEntity(q))
            && forall q :: q in s.rows && q.fields.name == Text.Trim(name) ==> q.createdAt <= r.value.item.value.createdAt)
  {
    FindByNameSpec(s, name);
    FailureSpec(name, Answered(FindByName(s, name)), api);
  }
}
