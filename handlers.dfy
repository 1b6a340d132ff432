/** The four request handlers of routes/api.js as transitions of the registry
    value: each takes the registry before the request and gives the registry after
    it together with the JSON response. */
module Handlers {
  import opened JsValues
  import opened Issues
  import opened IssueFilter

  /** The `issues` object: project name to that project's issues, in order. */
  type Registry = map<string, seq<Issue>>

  datatype Outcome = Outcome(registry: Registry, response: Response)

  /** A project's list, or the empty list for a project with no entry. */
  function ListOf(reg: Registry, project: string): seq<Issue>
  {
    if project in reg then reg[project] else []
  }

  /** `list.findIndex(issue => issue._id === id)`: the first position holding the
      id, or -1. */
  function FirstIndex(list: seq<Issue>, id: string): (r: int)
    ensures -1 <= r < |list|
    ensures r == -1 <==> forall j :: 0 <= j < |list| ==> list[j].id != id
    ensures 0 <= r ==> list[r].id == id && forall j :: 0 <= j < r ==> list[j].id != id
  {
    if list == [] then -1
    else if list[0].id == id then 0
    else
      var k := FirstIndex(list[1..], id);
      if k == -1 then -1 else k + 1
  }

  /** The project has an entry holding an issue with this id. */
  predicate HasIssue(reg: Registry, project: string, id: string)
  {
    project in reg && exists j :: 0 <= j < |reg[project]| && reg[project][j].id == id
  }

  // ---------------------------------------------------------------- GET

  /** GET /api/issues/:project with the query `filter` (routes/api.js:11-34). */
  function Query(reg: Registry, project: string, filter: map<string, string>): (r: Response)
    ensures project !in reg <==> r == Error(NoIssuesForProject, None)
    ensures project in reg ==>
      && r.IssueList?
      && Subsequence(r.issues, reg[project])
      && (forall x :: x in r.issues ==> x in reg[project])
      && (forall x :: x in reg[project] ==>
            (x !in r.issues <==> exists key :: key in filter && Rejects(x, key, filter[key])))
      && (forall x :: multiset(r.issues)[x] == if Passes(x, filter) then multiset(reg[project])[x] else 0)
  {
    if project !in reg then Error(NoIssuesForProject, None)
    else IssueList(FilterIssues(reg[project], filter))
  }

  // ---------------------------------------------------------------- POST

  /** The check at routes/api.js:48. */
  predicate HasRequiredFields(body: CreateBody)
  {
    Truthy(body.issueTitle) && Truthy(body.issueText) && Truthy(body.createdBy)
  }

  /** A destructuring default `= ""`: it applies only when the field is undefined. */
  function OrEmpty(o: Option<string>): string
  {
    if o.Some? then o.value else ""
  }

  /** POST /api/issues/:project (routes/api.js:37-69); `id` and `now` stand for
      `Date.now().toString()` and `new Date()`. */
  function Create(reg: Registry, project: string, body: CreateBody, id: string, now: Time): (o: Outcome)
    ensures !HasRequiredFields(body) ==> o == Outcome(reg, Error(RequiredFieldsMissing, None))
    ensures HasRequiredFields(body) ==>
      var before := ListOf(reg, project);
      && o.response.Record?
      && var n := o.response.issue;
      && n.id == id && n.open && n.createdOn == now && n.updatedOn == now
      && n.issueTitle == body.issueTitle.value
      && n.issueText == body.issueText.value
      && n.createdBy == body.createdBy.value
      && n.assignedTo == (if body.assignedTo.None? then "" else body.assignedTo.value)
      && n.statusText == (if body.statusText.None? then "" else body.statusText.value)
      && o.registry.Keys == reg.Keys + {project}
      && |o.registry[project]| == |before| + 1
      && o.registry[project][..|before|] == before
      && o.registry[project][|before|] == n
      && (forall p :: p in reg && p != project ==> o.registry[p] == reg[p])
  {
    if !HasRequiredFields(body) then Outcome(reg, Error(RequiredFieldsMissing, None))
    else
      var n := Issue(id, body.issueTitle.value, body.issueText.value, body.createdBy.value,
                     OrEmpty(body.assignedTo), OrEmpty(body.statusText), now, now, true);
      var list := ListOf(reg, project) + [n];
      assert list[..|list| - 1] == ListOf(reg, project);
      Outcome(reg[project := list], Record(n))
  }

  // ---------------------------------------------------------------- PUT

  /** The check at routes/api.js:90-97: every string field falsy and `open`
      undefined. */
  predicate NoUpdateFields(body: UpdateBody)
  {
    && !Truthy(body.issueTitle) && !Truthy(body.issueText) && !Truthy(body.createdBy)
    && !Truthy(body.assignedTo) && !Truthy(body.statusText) && body.open.None?
  }

  /** `if (v) target = v`: a supplied string replaces the stored one only when it
      is non-empty. */
  function Overwrite(supplied: Option<string>, current: string): string
  {
    if Truthy(supplied) then supplied.value else current
  }

  /** The field assignments at routes/api.js:112-119 applied to the found issue. */
  function Merge(issue: Issue, body: UpdateBody, now: Time): (u: Issue)
    ensures u.id == issue.id && u.createdOn == issue.createdOn && u.updatedOn == now
    ensures u.issueTitle == (if Truthy(body.issueTitle) then body.issueTitle.value else issue.issueTitle)
    ensures u.issueText == (if Truthy(body.issueText) then body.issueText.value else issue.issueText)
    ensures u.createdBy == (if Truthy(body.createdBy) then body.createdBy.value else issue.createdBy)
    ensures u.assignedTo == (if Truthy(body.assignedTo) then body.assignedTo.value else issue.assignedTo)
    ensures u.statusText == (if Truthy(body.statusText) then body.statusText.value else issue.statusText)
    ensures u.open == (if body.open.Some? then body.open.value else issue.open)
  {
    issue.(issueTitle := Overwrite(body.issueTitle, issue.issueTitle),
           issueText := Overwrite(body.issueText, issue.issueText),
           createdBy := Overwrite(body.createdBy, issue.createdBy),
           assignedTo := Overwrite(body.assignedTo, issue.assignedTo),
           statusText := Overwrite(body.statusText, issue.statusText),
           open := if body.open.Some? then body.open.value else issue.open,
           updatedOn := now)
  }

  /** `reg2` is `reg` with the issue at index `i` of `project` replaced by `u`, and
      nothing else changed. */
  ghost predicate ReplacedAt(reg: Registry, reg2: Registry, project: string, i: int, u: Issue)
  {
    && project in reg && 0 <= i < |reg[project]|
    && reg2.Keys == reg.Keys
    && (forall p :: p in reg && p != project ==> reg2[p] == reg[p])
    && |reg2[project]| == |reg[project]|
    && (forall j :: 0 <= j < |reg[project]| && j != i ==> reg2[project][j] == reg[project][j])
    && reg2[project][i] == u
  }

  /** PUT /api/issues/:project (routes/api.js:72-122); `now` stands for `new Date()`. */
  function Update(reg: Registry, project: string, body: UpdateBody, now: Time): (o: Outcome)
    ensures o.response.Error? ==> o.registry == reg
    ensures !Truthy(body.id) ==> o.response == Error(MissingId, None)
    ensures Truthy(body.id) && NoUpdateFields(body) ==>
      o.response == Error(NoUpdateFieldsSent, Some(body.id.value))
    ensures Truthy(body.id) && !NoUpdateFields(body) && !HasIssue(reg, project, body.id.value) ==>
      o.response == Error(CouldNotUpdate, Some(body.id.value))
    ensures Truthy(body.id) && !NoUpdateFields(body) && HasIssue(reg, project, body.id.value) ==>
      var i := FirstIndex(reg[project], body.id.value);
      && o.response == Done(SuccessfullyUpdated, body.id.value)
      && ReplacedAt(reg, o.registry, project, i, Merge(reg[project][i], body, now))
  {
    if !Truthy(body.id) then Outcome(reg, Error(MissingId, None))
    else if NoUpdateFields(body) then Outcome(reg, Error(NoUpdateFieldsSent, Some(body.id.value)))
    else if project !in reg then Outcome(reg, Error(CouldNotUpdate, Some(body.id.value)))
    else
      var list := reg[project];
      var i := FirstIndex(list, body.id.value);
      if i == -1 then Outcome(reg, Error(CouldNotUpdate, Some(body.id.value)))
      else Outcome(reg[project := list[i := Merge(list[i], body, now)]], Done(SuccessfullyUpdated, body.id.value))
  }

  // ---------------------------------------------------------------- DELETE

  /** `reg2` is `reg` with the issue at index `i` of `project` spliced out and
      nothing else changed; the project keeps its entry. */
  ghost predicate RemovedAt(reg: Registry, reg2: Registry, project: string, i: int)
  {
    && project in reg && 0 <= i < |reg[project]|
    && reg2.Keys == reg.Keys
    && (forall p :: p in reg && p != project ==> reg2[p] == reg[p])
    && reg2[project] == reg[project][..i] + reg[project][i + 1..]
  }

  /** DELETE /api/issues/:project (routes/api.js:125-148). */
  function Remove(reg: Registry, project: string, id: Option<string>): (o: Outcome)
    ensures o.response.Error? ==> o.registry == reg
    ensures !Truthy(id) ==> o.response == Error(MissingId, None)
    ensures Truthy(id) && !HasIssue(reg, project, id.value) ==>
      o.response == Error(CouldNotDelete, Some(id.value))
    ensures Truthy(id) && HasIssue(reg, project, id.value) ==>
      && o.response == Done(SuccessfullyDeleted, id.value)
      && RemovedAt(reg, o.registry, project, FirstIndex(reg[project], id.value))
      && |o.registry[project]| == |reg[project]| - 1
  {
    if !Truthy(id) then Outcome(reg, Error(MissingId, None))
    else if project !in reg then Outcome(reg, Error(CouldNotDelete, Some(id.value)))
    else
      var list := reg[project];
      var i := FirstIndex(list, id.value);
      if i == -1 then Outcome(reg, Error(CouldNotDelete, Some(id.value)))
      else Outcome(reg[project := list[..i] + list[i + 1..]], Done(SuccessfullyDeleted, id.value))
  }

  // ---------------------------------------------------------------- GET as written

  /** What `issues[project]` yields when `issues` is a plain object: an own entry,
      a member inherited from Object.prototype, or `undefined`. */
  datatype Lookup = Own(list: seq<Issue>) | InheritedMember | Undefined

  function LookupAsWritten(reg: Registry, project: string): (l: Lookup)
    ensures project in reg ==> l == Own(reg[project])
    ensures project !in reg ==> (l == InheritedMember <==> project in ObjectPrototypeMembers)
    ensures project !in reg ==> !l.Own?
  {
    if project in reg then Own(reg[project])
    else if project in ObjectPrototypeMembers then InheritedMember
    else Undefined
  }

  /** The GET handler exactly as written: an inherited member passes the
      `!issues[project]` test (it is truthy) and has no `filter` method, so the
      call at routes/api.js:23 throws a TypeError. */
  function QueryAsWritten(reg: Registry, project: string, filter: map<string, string>): (r: Response)
    ensures r == Thrown <==> project !in reg && project in ObjectPrototypeMembers
    ensures r == Error(NoIssuesForProject, None) <==> project !in reg && project !in ObjectPrototypeMembers
    ensures project in reg ==> r == IssueList(FilterIssuesAsWritten(reg[project], filter))
  {
    match LookupAsWritten(reg, project)
    case Undefined => Error(NoIssuesForProject, None)
    case InheritedMember => Thrown
    case Own(list) => IssueList(FilterIssuesAsWritten(list, filter))
  }
}
