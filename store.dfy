/** The in-memory store of routes/api.js: the `issues` object (line 4) and the
    four handlers that read and change it in place. Each method is proved to
    agree with the matching transition of module Handlers. */
module Store {
  import opened JsValues
  import opened Issues
  import opened IssueFilter
  import opened Handlers
  import opened HandlerLemmas

  /** `list.findIndex(issue => issue._id === id)` (routes/api.js:138); the `find`
      at routes/api.js:105 yields the element at this index. */
  method FindIndex(list: seq<Issue>, id: string) returns (index: int)
    ensures index == FirstIndex(list, id)
    ensures -1 <= index < |list|
    ensures 0 <= index ==> list[index].id == id
  {
    var k := 0;
    while k < |list|
      invariant 0 <= k <= |list|
      invariant forall j :: 0 <= j < k ==> list[j].id != id
    {
      if list[k].id == id {
        return k;
      }
      k := k + 1;
    }
    return -1;
  }

  class IssueStore {
    /** Project name to that project's issues, in order of creation. */
    var issues: Registry

    /** `_id`s are unique across the store, as long as every POST is given an
        unused id; then a successful DELETE removes the only issue with its id. */
    ghost predicate Valid()
      reads this
    {
      StoreIdsUnique(issues)
    }

    /** `let issues = {}`: the store starts empty. */
    constructor ()
      ensures issues == map[] && Valid()
    {
      issues := map[];
    }

    /** GET: reads the registry and changes nothing. */
    method Get(project: string, filter: map<string, string>) returns (r: Response)
      ensures r == Query(issues, project, filter)
      ensures project !in issues ==> r == Error(NoIssuesForProject, None)
      ensures project in issues ==> r.IssueList? && Subsequence(r.issues, issues[project])
    {
      if project !in issues {
        return Error(NoIssuesForProject, None);
      }
      var filteredIssues := issues[project];
      filteredIssues := FilterIssues(filteredIssues, filter);
      r := IssueList(filteredIssues);
    }

    /** POST: validates, then lazily creates the project's list and appends. */
    method Post(project: string, body: CreateBody, id: string, now: Time) returns (r: Response)
      modifies this
      ensures issues == Create(old(issues), project, body, id, now).registry
      ensures r == Create(old(issues), project, body, id, now).response
      ensures old(Valid()) && IdUnused(old(issues), id) ==> Valid()
    {
      if !Truthy(body.issueTitle) || !Truthy(body.issueText) || !Truthy(body.createdBy) {
        return Error(RequiredFieldsMissing, None);
      }
      var newIssue := Issue(id, body.issueTitle.value, body.issueText.value, body.createdBy.value,
                            OrEmpty(body.assignedTo), OrEmpty(body.statusText), now, now, true);
      if project !in issues {
        issues := issues[project := []];
      }
      issues := issues[project := issues[project] + [newIssue]];
      r := Record(newIssue);
      if StoreIdsUnique(old(issues)) && IdUnused(old(issues), id) {
        CreateKeepsIdsUnique(old(issues), project, body, id, now);
      }
    }

    /** PUT: validates in order, finds the first issue with the id and assigns the
        supplied fields one by one, then `updated_on`. */
    method Put(project: string, body: UpdateBody, now: Time) returns (r: Response)
      modifies this
      ensures issues == Update(old(issues), project, body, now).registry
      ensures r == Update(old(issues), project, body, now).response
      ensures old(Valid()) ==> Valid()
    {
      if !Truthy(body.id) {
        return Error(MissingId, None);
      }
      var id := body.id.value;
      if NoUpdateFields(body) {
        return Error(NoUpdateFieldsSent, Some(id));
      }
      if project !in issues {
        return Error(CouldNotUpdate, Some(id));
      }
      var list := issues[project];
      var index := FindIndex(list, id);
      if index == -1 {
        return Error(CouldNotUpdate, Some(id));
      }
      var issue := list[index];
      if Truthy(body.issueTitle) { issue := issue.(issueTitle := body.issueTitle.value); }
      if Truthy(body.issueText) { issue := issue.(issueText := body.issueText.value); }
      if Truthy(body.createdBy) { issue := issue.(createdBy := body.createdBy.value); }
      if Truthy(body.assignedTo) { issue := issue.(assignedTo := body.assignedTo.value); }
      if Truthy(body.statusText) { issue := issue.(statusText := body.statusText.value); }
      if body.open.Some? { issue := issue.(open := body.open.value); }
      issue := issue.(updatedOn := now);
      issues := issues[project := list[index := issue]];
      r := Done(SuccessfullyUpdated, id);
      if StoreIdsUnique(old(issues)) {
        UpdateKeepsIdsUnique(old(issues), project, body, now);
      }
    }

    /** DELETE: validates, finds the first issue with the id and splices it out;
        the project keeps its entry. */
    method Delete(project: string, id: Option<string>) returns (r: Response)
      modifies this
      ensures issues == Remove(old(issues), project, id).registry
      ensures r == Remove(old(issues), project, id).response
      ensures old(Valid()) ==> Valid()
      ensures old(Valid()) && r.Done? ==>
        !HasIssue(issues, project, id.value)
        && Remove(issues, project, id) == Outcome(issues, Error(CouldNotDelete, Some(id.value)))
    {
      if !Truthy(id) {
        return Error(MissingId, None);
      }
      if project !in issues {
        return Error(CouldNotDelete, Some(id.value));
      }
      var list := issues[project];
      var index := FindIndex(list, id.value);
      if index == -1 {
        return Error(CouldNotDelete, Some(id.value));
      }
      issues := issues[project := list[..index] + list[index + 1..]];
      r := Done(SuccessfullyDeleted, id.value);
      if StoreIdsUnique(old(issues)) {
        RemoveKeepsIdsUnique(old(issues), project, id);
        RemoveTwice(old(issues), project, id.value);
      }
    }
  }
}
