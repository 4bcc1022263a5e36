/** `searchItemRequestSchema`, declared the same way by both services: a body whose
    `name` is a string of at least one character. It does not trim. */
module SearchRequests {
  import opened Wrappers
  import opened JsonValues
  import opened Validation

  function SearchRequestIssues(j: Json): (r: seq<Issue>)
    ensures r == [] <==> j.JObject? && "name" in j.fields && j.fields["name"].JString? && j.fields["name"].s != ""
  {
    if !j.JObject? then [InvalidType([], "object", Some(j))]
    else
      var v := Property(j, "name");
      if v.Some? && v.value.JString? then
        if |v.value.s| < 1 then [Issue(["name"], "Name is required")] else []
      else [InvalidType(["name"], "string", v)]
  }

  /** `searchItemRequestSchema.safeParse(body)`: the name as sent, or the issues. */
  function ParseSearchRequest(j: Json): (r: Result<string, seq<Issue>>)
    ensures r.Ok? <==> j.JObject? && "name" in j.fields && j.fields["name"].JString? && |j.fields["name"].s| >= 1
    ensures r.Ok? ==> j.fields["name"] == JString(r.value)
    ensures r.Err? ==> r.error != [] && r.error == SearchRequestIssues(j)
  {
    var issues := SearchRequestIssues(j);
    if issues != [] then Err(issues) else Ok(j.fields["name"].s)
  }

  /** "" is refused with "Name is required"; a missing or non-string name is refused; a name
      of spaces passes unchanged, and other keys are ignored. */
  lemma SearchRequestCases(other: map<string, Json>)
    ensures ParseSearchRequest(JObject(other["name" := JString("")])) == Err([Issue(["name"], "Name is required")])
    ensures "name" !in other ==> ParseSearchRequest(JObject(other)) == Err([Issue(["name"], "Required")])
    ensures ParseSearchRequest(JObject(other["name" := JString("   ")])) == Ok("   ")
    ensures ParseSearchRequest(JObject(other["name" := JNumber(1.0)])).Err?
    ensures ParseSearchRequest(JObject(other["name" := JNull])).Err?
  {
    assert Property(JObject(other["name" := JString("")]), "name") == Some(JString(""));
    assert "name" !in other ==> Property(JObject(other), "name").None?;
  }
}
