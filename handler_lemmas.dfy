/** Properties of the handlers that relate several requests, and the invariants
    of the registry that every handler keeps. */
module HandlerLemmas {
  import opened JsValues
  import opened Issues
  import opened IssueFilter
  import opened Handlers

  // ---------------------------------------------------------------- invariants

  /** No two issues of one list share an `_id`. */
  ghost predicate ListIdsUnique(list: seq<Issue>)
  {
    forall i, j :: 0 <= i < j < |list| ==> list[i].id != list[j].id
  }

  /** `_id`s are unique across the whole store. */
  ghost predicate StoreIdsUnique(reg: Registry)
  {
    && (forall p :: p in reg ==> ListIdsUnique(reg[p]))
    && (forall p, q, i, j :: p in reg && q in reg && p != q && 0 <= i < |reg[p]| && 0 <= j < |reg[q]| ==>
          reg[p][i].id != reg[q][j].id)
  }

  /** No issue of the store carries `id`: what a fresh id generator guarantees. */
  ghost predicate IdUnused(reg: Registry, id: string)
  {
    forall p, i :: p in reg && 0 <= i < |reg[p]| ==> reg[p][i].id != id
  }

  /** Every issue was created no later than its last update, and no later than the
      clock reading `clock`. */
  ghost predicate Chronological(reg: Registry, clock: Time)
  {
    forall p, i :: p in reg && 0 <= i < |reg[p]| ==>
      reg[p][i].createdOn <= reg[p][i].updatedOn <= clock
  }

  // ---------------------------------------------------------------- GET after POST

  /** A GET after a successful POST sees the project's earlier issues that pass
      the query, followed by the new issue if it passes. */
  lemma QueryAfterCreate(reg: Registry, project: string, body: CreateBody, id: string, now: Time,
                         filter: map<string, string>)
    requires HasRequiredFields(body)
    ensures var o := Create(reg, project, body, id, now);
            var r := Query(o.registry, project, filter);
            && r.IssueList?
            && r.issues == FilterIssues(ListOf(reg, project), filter)
                           + (if Passes(o.response.issue, filter) then [o.response.issue] else [])
  {
    var o := Create(reg, project, body, id, now);
    var n := o.response.issue;
    var before := ListOf(reg, project);
    assert o.registry[project] == before + [n];
    FilterAppend(before, [n], filter);
    FilterUnfold([n], filter);
    assert [n][1..] == [];
  }

  /** A GET without a query after a successful POST returns the whole list, whose
      last element is the created issue. */
  lemma ListAfterCreate(reg: Registry, project: string, body: CreateBody, id: string, now: Time)
    requires HasRequiredFields(body)
    ensures var o := Create(reg, project, body, id, now);
            var r := Query(o.registry, project, map[]);
            && r.IssueList?
            && r.issues == ListOf(reg, project) + [o.response.issue]
            && |r.issues| >= 1
  {
    var o := Create(reg, project, body, id, now);
    assert o.registry[project] == ListOf(reg, project) + [o.response.issue];
    EmptyFilterKeepsAll(o.registry[project]);
  }

  // ---------------------------------------------------------------- DELETE

  /** DELETE undoes POST: deleting the id just created restores the registry,
      except that the project keeps an (empty) entry if it had none. */
  lemma CreateThenRemove(reg: Registry, project: string, body: CreateBody, id: string, now: Time)
    requires HasRequiredFields(body) && id != ""
    requires forall j :: 0 <= j < |ListOf(reg, project)| ==> ListOf(reg, project)[j].id != id
    ensures Remove(Create(reg, project, body, id, now).registry, project, Some(id))
         == Outcome(reg[project := ListOf(reg, project)], Done(SuccessfullyDeleted, id))
  {
    var before := ListOf(reg, project);
    var reg1: Registry := Create(reg, project, body, id, now).registry;
    var list := reg1[project];
    assert list == before + [list[|before|]];
    assert FirstIndex(list, id) == |before|;
    assert list[..|before|] + list[|before| + 1..] == before;
    assert reg1[project := before] == reg[project := before];
  }

  /** With unique ids, a successful DELETE leaves no issue with that id in the
      project. */
  lemma RemoveLeavesNoMatch(reg: Registry, project: string, id: string)
    requires id != "" && HasIssue(reg, project, id) && ListIdsUnique(reg[project])
    ensures !HasIssue(Remove(reg, project, Some(id)).registry, project, id)
  {
    var list := reg[project];
    var i := FirstIndex(list, id);
    var rest := Remove(reg, project, Some(id)).registry[project];
    assert rest == list[..i] + list[i + 1..];
    forall j | 0 <= j < |rest| ensures rest[j].id != id {
      if j < i {
        assert rest[j] == list[j];
      } else {
        assert rest[j] == list[j + 1];
        assert list[i].id != list[j + 1].id;
      }
    }
  }

  /** Repeating a successful DELETE answers "could not delete" and changes
      nothing. */
  lemma RemoveTwice(reg: Registry, project: string, id: string)
    requires id != "" && HasIssue(reg, project, id) && ListIdsUnique(reg[project])
    ensures var reg1: Registry := Remove(reg, project, Some(id)).registry;
            Remove(reg1, project, Some(id)) == Outcome(reg1, Error(CouldNotDelete, Some(id)))
  {
    RemoveLeavesNoMatch(reg, project, id);
  }

  /** After a successful DELETE, a GET filtered on that `_id` returns no issue
      carrying it. */
  lemma QueryAfterRemove(reg: Registry, project: string, id: string)
    requires id != "" && HasIssue(reg, project, id) && ListIdsUnique(reg[project])
    ensures var r := Query(Remove(reg, project, Some(id)).registry, project, map["_id" := id]);
            r.IssueList? && forall x :: x in r.issues ==> x.id != id
  {
    RemoveLeavesNoMatch(reg, project, id);
    var reg1: Registry := Remove(reg, project, Some(id)).registry;
    forall x | x in Query(reg1, project, map["_id" := id]).issues ensures x.id != id {
      var j :| 0 <= j < |reg1[project]| && reg1[project][j] == x;
    }
  }

  // ---------------------------------------------------------------- PUT

  lemma MergeIdempotent(issue: Issue, body: UpdateBody, now: Time)
    ensures Merge(Merge(issue, body, now), body, now) == Merge(issue, body, now)
  {
  }

  /** Sending the same PUT twice with the same clock reading gives the same
      response and the same registry as sending it once. */
  lemma UpdateIdempotent(reg: Registry, project: string, body: UpdateBody, now: Time)
    ensures var o := Update(reg, project, body, now);
            Update(o.registry, project, body, now) == o
  {
    var o := Update(reg, project, body, now);
    if o.response.Done? {
      var id := body.id.value;
      var list := reg[project];
      var i := FirstIndex(list, id);
      var m := Merge(list[i], body, now);
      var list2 := list[i := m];
      assert o.registry == reg[project := list2];
      assert FirstIndex(list2, id) == i by {
        assert forall j :: 0 <= j < i ==> list2[j] == list[j];
        assert list2[i].id == id;
      }
      MergeIdempotent(list[i], body, now);
      assert list2[i := Merge(m, body, now)] == list2;
      assert HasIssue(o.registry, project, id) by {
        assert o.registry[project][i].id == id;
      }
    }
  }

  /** `open: false` is an update of its own: it is not "no update field(s) sent",
      and it closes the issue. */
  lemma UpdateCanClose(reg: Registry, project: string, id: string, now: Time)
    requires id != "" && HasIssue(reg, project, id)
    ensures var body := UpdateBody(Some(id), None, None, None, None, None, Some(false));
            var o := Update(reg, project, body, now);
            && o.response == Done(SuccessfullyUpdated, id)
            && !o.registry[project][FirstIndex(reg[project], id)].open
  {
  }

  /** A PUT whose string fields are all empty and which leaves `open` undefined is
      refused: empty strings count as not sent. */
  lemma EmptyStringsAreNotUpdates(reg: Registry, project: string, id: string, now: Time)
    requires id != ""
    ensures var body := UpdateBody(Some(id), Some(""), Some(""), Some(""), Some(""), Some(""), None);
            Update(reg, project, body, now) == Outcome(reg, Error(NoUpdateFieldsSent, Some(id)))
  {
  }

  // ---------------------------------------------------------------- id uniqueness

  lemma CreateKeepsIdsUnique(reg: Registry, project: string, body: CreateBody, id: string, now: Time)
    requires StoreIdsUnique(reg) && IdUnused(reg, id)
    ensures StoreIdsUnique(Create(reg, project, body, id, now).registry)
  {
    var reg1: Registry := Create(reg, project, body, id, now).registry;
    if HasRequiredFields(body) {
      var before := ListOf(reg, project);
      var list := reg1[project];
      assert list == before + [list[|before|]];
      assert forall i :: 0 <= i < |list| - 1 ==> list[i] == before[i];
      assert list[|before|].id == id;
      forall p | p in reg1 ensures ListIdsUnique(reg1[p]) {
        if p != project { assert reg1[p] == reg[p]; }
      }
      forall p: string, q: string, i: int, j: int | p in reg1 && q in reg1 && p != q && 0 <= i < |reg1[p]| && 0 <= j < |reg1[q]|
        ensures reg1[p][i].id != reg1[q][j].id
      {
        if p == project {
          assert reg1[q] == reg[q];
          if i < |before| { assert reg1[p][i] == reg[p][i]; }
        } else if q == project {
          assert reg1[p] == reg[p];
          if j < |before| { assert reg1[q][j] == reg[q][j]; }
        } else {
          assert reg1[p] == reg[p] && reg1[q] == reg[q];
        }
      }
    }
  }

  lemma UpdateKeepsIdsUnique(reg: Registry, project: string, body: UpdateBody, now: Time)
    requires StoreIdsUnique(reg)
    ensures StoreIdsUnique(Update(reg, project, body, now).registry)
  {
    var o := Update(reg, project, body, now);
    if o.response.Done? {
      var reg1: Registry := o.registry;
      var list := reg[project];
      assert forall j :: 0 <= j < |list| ==> reg1[project][j].id == list[j].id;
      forall p | p in reg1 ensures ListIdsUnique(reg1[p]) {
        if p != project { assert reg1[p] == reg[p]; }
      }
      forall p: string, q: string, i: int, j: int | p in reg1 && q in reg1 && p != q && 0 <= i < |reg1[p]| && 0 <= j < |reg1[q]|
        ensures reg1[p][i].id != reg1[q][j].id
      {
        if p == project {
          assert reg1[q] == reg[q];
        } else if q == project {
          assert reg1[p] == reg[p];
        } else {
          assert reg1[p] == reg[p] && reg1[q] == reg[q];
        }
      }
    }
  }

  lemma RemoveKeepsIdsUnique(reg: Registry, project: string, id: Option<string>)
    requires StoreIdsUnique(reg)
    ensures StoreIdsUnique(Remove(reg, project, id).registry)
  {
    var o := Remove(reg, project, id);
    if o.response.Done? {
      var reg1: Registry := o.registry;
      var list := reg[project];
      var k := FirstIndex(list, id.value);
      var rest := reg1[project];
      // every remaining issue of the project sits at some old position
      assert forall j :: 0 <= j < |rest| ==> rest[j] == list[if j < k then j else j + 1];
      forall p | p in reg1 ensures ListIdsUnique(reg1[p]) {
        if p != project { assert reg1[p] == reg[p]; }
      }
      forall p: string, q: string, i: int, j: int | p in reg1 && q in reg1 && p != q && 0 <= i < |reg1[p]| && 0 <= j < |reg1[q]|
        ensures reg1[p][i].id != reg1[q][j].id
      {
        if p == project {
          assert reg1[q] == reg[q];
          assert reg1[p][i] == reg[p][if i < k then i else i + 1];
        } else if q == project {
          assert reg1[p] == reg[p];
          assert reg1[q][j] == reg[q][if j < k then j else j + 1];
        } else {
          assert reg1[p] == reg[p] && reg1[q] == reg[q];
        }
      }
    }
  }

  // ---------------------------------------------------------------- timestamps

  lemma CreateKeepsChronological(reg: Registry, project: string, body: CreateBody, id: string,
                                 clock: Time, now: Time)
    requires Chronological(reg, clock) && clock <= now
    ensures Chronological(Create(reg, project, body, id, now).registry, now)
  {
    var reg1: Registry := Create(reg, project, body, id, now).registry;
    if HasRequiredFields(body) {
      var before := ListOf(reg, project);
      forall p: string, i: int | p in reg1 && 0 <= i < |reg1[p]|
        ensures reg1[p][i].createdOn <= reg1[p][i].updatedOn <= now
      {
        if p == project && i < |before| {
          assert reg1[p][i] == reg1[p][..|before|][i];
        }
      }
    }
  }

  /** A successful PUT keeps every issue chronological and moves the updated
      issue's `updated_on` strictly forward when the clock has advanced. */
  lemma UpdateKeepsChronological(reg: Registry, project: string, body: UpdateBody, clock: Time, now: Time)
    requires Chronological(reg, clock) && clock <= now
    ensures var o := Update(reg, project, body, now);
            && Chronological(o.registry, now)
            && (o.response.Done? && clock < now ==>
                  var i := FirstIndex(reg[project], body.id.value);
                  && o.registry[project][i].createdOn == reg[project][i].createdOn
                  && o.registry[project][i].updatedOn > reg[project][i].updatedOn)
  {
    var o := Update(reg, project, body, now);
    if o.response.Done? {
      var i := FirstIndex(reg[project], body.id.value);
      forall p: string, j: int | p in o.registry && 0 <= j < |o.registry[p]|
        ensures o.registry[p][j].createdOn <= o.registry[p][j].updatedOn <= now
      {
        if p != project || j != i {
          assert o.registry[p][j] == reg[p][j];
        }
      }
    }
  }

  lemma RemoveKeepsChronological(reg: Registry, project: string, id: Option<string>, clock: Time)
    requires Chronological(reg, clock)
    ensures Chronological(Remove(reg, project, id).registry, clock)
  {
    var o := Remove(reg, project, id);
    if o.response.Done? {
      var list := reg[project];
      var k := FirstIndex(list, id.value);
      forall p: string, j: int | p in o.registry && 0 <= j < |o.registry[p]|
        ensures o.registry[p][j].createdOn <= o.registry[p][j].updatedOn <= clock
      {
        if p == project {
          assert o.registry[p][j] == list[if j < k then j else j + 1];
        }
      }
    }
  }

  // ---------------------------------------------------------------- GET as written

  /** As written, a GET for a project named after an Object.prototype member that
      has no entry throws, where the own-key lookup reports the missing project. */
  lemma InheritedProjectThrows(reg: Registry, project: string, filter: map<string, string>)
    requires project !in reg && project in ObjectPrototypeMembers
    ensures QueryAsWritten(reg, project, filter) == Thrown
    ensures Query(reg, project, filter) == Error(NoIssuesForProject, None)
  {
  }

  lemma ConstructorProjectExample()
    ensures QueryAsWritten(map[], "constructor", map[]) == Thrown
    ensures Query(map[], "constructor", map[]) == Error(NoIssuesForProject, None)
  {
    InheritedProjectThrows(map[], "constructor", map[]);
  }

  /** The handler as written and the own-key model agree on every GET whose
      project name and query keys avoid the Object.prototype members. */
  lemma QueryAsWrittenAgrees(reg: Registry, project: string, filter: map<string, string>)
    requires project !in ObjectPrototypeMembers
    requires forall key :: key in filter ==> key !in ObjectPrototypeMembers
    ensures QueryAsWritten(reg, project, filter) == Query(reg, project, filter)
  {
    if project in reg {
      AsWrittenAgrees(reg[project], filter);
    }
  }
}
