/** The issue record, the request bodies the handlers destructure, and the JSON
    responses they send. */
module Issues {
  import opened JsValues

  /** One issue, with the nine properties the POST handler gives it. */
  datatype Issue = Issue(
    id: string,          // _id
    issueTitle: string,  // issue_title
    issueText: string,   // issue_text
    createdBy: string,   // created_by
    assignedTo: string,  // assigned_to
    statusText: string,  // status_text
    createdOn: Time,     // created_on
    updatedOn: Time,     // updated_on
    open: bool)          // open

  /** The JSON names of an issue's own properties. */
  const FieldNames: set<string> :=
    {"_id", "issue_title", "issue_text", "created_by", "assigned_to",
     "status_text", "created_on", "updated_on", "open"}

  /** `issue[key]` restricted to the issue's own properties: `None` stands for
      `undefined`. */
  function OwnProperty(issue: Issue, key: string): (r: Option<Value>)
    ensures r.Some? <==> key in FieldNames
    ensures key == "open" ==> r == Some(Bool(issue.open))
    ensures key in {"created_on", "updated_on"} ==> r.Some? && r.value.Date?
    ensures key in FieldNames - {"open", "created_on", "updated_on"} ==> r.Some? && r.value.Str?
  {
    if key == "_id" then Some(Str(issue.id))
    else if key == "issue_title" then Some(Str(issue.issueTitle))
    else if key == "issue_text" then Some(Str(issue.issueText))
    else if key == "created_by" then Some(Str(issue.createdBy))
    else if key == "assigned_to" then Some(Str(issue.assignedTo))
    else if key == "status_text" then Some(Str(issue.statusText))
    else if key == "created_on" then Some(Date(issue.createdOn))
    else if key == "updated_on" then Some(Date(issue.updatedOn))
    else if key == "open" then Some(Bool(issue.open))
    else None
  }

  /** `issue[key]` exactly as JavaScript evaluates it on an object literal: an own
      property if there is one, otherwise whatever `Object.prototype` supplies. */
  function PropertyAsWritten(issue: Issue, key: string): (r: Option<Value>)
    ensures key in FieldNames ==> r == OwnProperty(issue, key)
    ensures key !in FieldNames ==> (r.Some? <==> key in ObjectPrototypeMembers)
    ensures key !in FieldNames && r.Some? ==> ValueTruthy(r.value)
  {
    match OwnProperty(issue, key)
    case Some(v) => Some(v)
    case None => if key in ObjectPrototypeMembers then Some(Inherited(key)) else None
  }

  /** The POST body after destructuring; `None` is `undefined`. */
  datatype CreateBody = CreateBody(
    issueTitle: Option<string>,
    issueText: Option<string>,
    createdBy: Option<string>,
    assignedTo: Option<string>,
    statusText: Option<string>)

  /** The PUT body after destructuring; `open` is `None` only when it is
      `undefined`, so `Some(false)` is a real update. */
  datatype UpdateBody = UpdateBody(
    id: Option<string>,
    issueTitle: Option<string>,
    issueText: Option<string>,
    createdBy: Option<string>,
    assignedTo: Option<string>,
    statusText: Option<string>,
    open: Option<bool>)

  /** The JSON body a handler sends. */
  datatype Response =
    | IssueList(issues: seq<Issue>)            // GET: the array of issues
    | Record(issue: Issue)                     // POST: the created issue
    | Done(result: string, id: string)         // { result, _id }
    | Error(error: string, echoed: Option<string>)  // { error } or { error, _id }
    | Thrown                                   // a TypeError escapes the handler

  const NoIssuesForProject := "No issues for this project"
  const RequiredFieldsMissing := "required field(s) missing"
  const MissingId := "missing _id"
  const NoUpdateFieldsSent := "no update field(s) sent"
  const CouldNotUpdate := "could not update"
  const CouldNotDelete := "could not delete"
  const SuccessfullyUpdated := "successfully updated"
  const SuccessfullyDeleted := "successfully deleted"
}
