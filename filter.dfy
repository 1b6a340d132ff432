/** The GET handler's query filter (routes/api.js:19-31): `Array.prototype.filter`
    with a predicate that rejects an issue when one of the query keys names a truthy
    property of the issue that is not strictly equal to the query value. */
module IssueFilter {
  import opened JsValues
  import opened Issues

  /** `r` is `s` with some elements left out and the rest in their original order. */
  ghost predicate Subsequence(r: seq<Issue>, s: seq<Issue>)
    decreases |s|
  {
    r == [] || (s != [] && ((r[0] == s[0] && Subsequence(r[1..], s[1..])) || Subsequence(r, s[1..])))
  }

  /** `list.filter(keep)`: visits the elements front to back and keeps those for
      which `keep` holds. */
  function Select(list: seq<Issue>, keep: Issue -> bool): (r: seq<Issue>)
    ensures |r| <= |list|
    ensures forall x :: x in r <==> x in list && keep(x)
  {
    if list == [] then []
    else if keep(list[0]) then [list[0]] + Select(list[1..], keep)
    else Select(list[1..], keep)
  }

  /** `filter` keeps the surviving elements in their original order. */
  lemma {:induction false} SelectIsSubsequence(list: seq<Issue>, keep: Issue -> bool)
    ensures Subsequence(Select(list, keep), list)
  {
    if list != [] {
      SelectIsSubsequence(list[1..], keep);
      var r := Select(list, keep);
      if keep(list[0]) {
        assert r[0] == list[0] && r[1..] == Select(list[1..], keep);
      }
    }
  }

  /** `filter` keeps every copy of a surviving element and no copy of the others. */
  lemma {:induction false} SelectCounts(list: seq<Issue>, keep: Issue -> bool, x: Issue)
    ensures multiset(Select(list, keep))[x] == if keep(x) then multiset(list)[x] else 0
  {
    if list != [] {
      assert list == [list[0]] + list[1..];
      SelectCounts(list[1..], keep, x);
    }
  }

  lemma {:induction false} SelectAll(list: seq<Issue>, keep: Issue -> bool)
    requires forall x :: x in list ==> keep(x)
    ensures Select(list, keep) == list
  {
    if list != [] {
      SelectAll(list[1..], keep);
    }
  }

  lemma {:induction false} SelectNone(list: seq<Issue>, keep: Issue -> bool)
    requires forall x :: x in list ==> !keep(x)
    ensures Select(list, keep) == []
  {
    if list != [] {
      SelectNone(list[1..], keep);
    }
  }

  lemma {:induction false} SelectAppend(a: seq<Issue>, b: seq<Issue>, keep: Issue -> bool)
    ensures Select(a + b, keep) == Select(a, keep) + Select(b, keep)
  {
    if a == [] {
      assert a + b == b;
    } else {
      var ab := a + b;
      assert ab[0] == a[0] && ab[1..] == a[1..] + b;
      SelectAppend(a[1..], b, keep);
      var rest := Select(ab[1..], keep);
      assert Select(ab, keep) == (if keep(a[0]) then [a[0]] else []) + rest;
      assert Select(a, keep) == (if keep(a[0]) then [a[0]] else []) + Select(a[1..], keep);
    }
  }

  lemma {:induction false} SelectSame(list: seq<Issue>, k1: Issue -> bool, k2: Issue -> bool)
    requires forall x :: x in list ==> k1(x) == k2(x)
    ensures Select(list, k1) == Select(list, k2)
  {
    if list != [] {
      SelectSame(list[1..], k1, k2);
    }
  }

  /** The test at routes/api.js:25 for one query key: `issue[key] && issue[key] !== q`,
      reading only the issue's own properties. */
  predicate Rejects(issue: Issue, key: string, q: string)
  {
    var v := OwnProperty(issue, key);
    v.Some? && ValueTruthy(v.value) && !StrictEqualsString(v.value, q)
  }

  /** The predicate passed to `filter` (routes/api.js:23-30): no query key rejects. */
  predicate Passes(issue: Issue, filter: map<string, string>)
  {
    forall key :: key in filter ==> !Rejects(issue, key, filter[key])
  }

  /** The issues of one project that the GET handler returns for a query. */
  function FilterIssues(list: seq<Issue>, filter: map<string, string>): (r: seq<Issue>)
    ensures Subsequence(r, list)
    ensures forall x :: x in list ==> (x !in r <==> exists key :: key in filter && Rejects(x, key, filter[key]))
    ensures forall x :: x in r ==> x in list
    ensures forall x :: multiset(r)[x] == if Passes(x, filter) then multiset(list)[x] else 0
  {
    var keep := x => Passes(x, filter);
    SelectIsSubsequence(list, keep);
    forall x ensures multiset(Select(list, keep))[x] == if keep(x) then multiset(list)[x] else 0 {
      SelectCounts(list, keep, x);
    }
    Select(list, keep)
  }

  lemma FilterUnfold(list: seq<Issue>, filter: map<string, string>)
    requires list != []
    ensures FilterIssues(list, filter)
         == (if Passes(list[0], filter) then [list[0]] else []) + FilterIssues(list[1..], filter)
  {
  }

  /** Query keys that are not issue properties drop nothing. */
  lemma {:induction false} NonFieldKeysKeepAll(list: seq<Issue>, filter: map<string, string>)
    requires forall key :: key in filter ==> key !in FieldNames
    ensures FilterIssues(list, filter) == list
  {
    SelectAll(list, x => Passes(x, filter));
  }

  /** A GET without query parameters returns the whole list, in order. */
  lemma {:induction false} EmptyFilterKeepsAll(list: seq<Issue>)
    ensures FilterIssues(list, map[]) == list
  {
    NonFieldKeysKeepAll(list, map[]);
  }

  /** Filtering works element by element, so it distributes over concatenation;
      in particular an issue appended to the list is appended to the result when
      it passes. */
  lemma {:induction false} FilterAppend(a: seq<Issue>, b: seq<Issue>, filter: map<string, string>)
    ensures FilterIssues(a + b, filter) == FilterIssues(a, filter) + FilterIssues(b, filter)
  {
    SelectAppend(a, b, x => Passes(x, filter));
  }

  lemma {:induction false} FilterIdempotent(list: seq<Issue>, filter: map<string, string>)
    ensures FilterIssues(FilterIssues(list, filter), filter) == FilterIssues(list, filter)
  {
    var r := FilterIssues(list, filter);
    forall x | x in r ensures Passes(x, filter) {
      assert multiset(r)[x] > 0;
    }
    SelectAll(r, x => Passes(x, filter));
  }

  /** Several query keys combine with AND: filtering by the union of two queries
      with distinct keys is filtering by one and then by the other. */
  lemma {:induction false} FilterConjunction(list: seq<Issue>, f1: map<string, string>, f2: map<string, string>)
    requires f1.Keys !! f2.Keys
    ensures FilterIssues(list, f1 + f2) == FilterIssues(FilterIssues(list, f1), f2)
  {
    if list != [] {
      var x := list[0];
      assert Passes(x, f1 + f2) <==> Passes(x, f1) && Passes(x, f2) by {
        if Passes(x, f1) && Passes(x, f2) {
          forall key | key in f1 + f2 ensures !Rejects(x, key, (f1 + f2)[key]) {
            if key in f2 { assert !Rejects(x, key, f2[key]); } else { assert !Rejects(x, key, f1[key]); }
          }
        }
        if Passes(x, f1 + f2) {
          forall key | key in f1 ensures !Rejects(x, key, f1[key]) {
            assert key !in f2 && (f1 + f2)[key] == f1[key];
          }
          forall key | key in f2 ensures !Rejects(x, key, f2[key]) {
            assert (f1 + f2)[key] == f2[key];
          }
        }
      }
      FilterUnfold(list, f1 + f2);
      FilterUnfold(list, f1);
      FilterConjunction(list[1..], f1, f2);
      if Passes(x, f1) {
        FilterUnfold(FilterIssues(list, f1), f2);
      }
    }
  }

  /** `open` is a boolean, never strictly equal to a query string: an `open` query
      drops every open issue and keeps every closed one, whatever its value. */
  lemma OpenQuery(issue: Issue, q: string)
    ensures Passes(issue, map["open" := q]) <==> !issue.open
  {
    var f := map["open" := q];
    assert "open" in f && f["open"] == q;
    assert Rejects(issue, "open", q) <==> issue.open;
    if !issue.open {
      forall key | key in f ensures !Rejects(issue, key, f[key]) {
        assert key == "open";
      }
    }
  }

  /** A `Date` is truthy and never strictly equal to a string: a query on
      `created_on` or `updated_on` drops everything. */
  lemma {:induction false} DateQueryDropsAll(list: seq<Issue>, filter: map<string, string>, key: string)
    requires key in filter && key in {"created_on", "updated_on"}
    ensures FilterIssues(list, filter) == []
  {
    forall x | x in list ensures !Passes(x, filter) {
      assert OwnProperty(x, key).Some? && OwnProperty(x, key).value.Date?;
      assert Rejects(x, key, filter[key]);
    }
    SelectNone(list, x => Passes(x, filter));
  }

  /** What the functional tests check of a filtered GET: every returned issue has,
      for each queried string property, either the queried value or an empty one. */
  lemma ReturnedIssuesMatch(list: seq<Issue>, filter: map<string, string>, x: Issue, key: string)
    requires x in FilterIssues(list, filter)
    requires key in filter && key in FieldNames - {"open", "created_on", "updated_on"}
    ensures OwnProperty(x, key) == Some(Str(filter[key])) || OwnProperty(x, key) == Some(Str(""))
  {
    assert multiset(FilterIssues(list, filter))[x] > 0;
    assert !Rejects(x, key, filter[key]);
    var v := OwnProperty(x, key);
    assert v.Some? && v.value.Str?;
  }

  // The filter exactly as written: `issue[key]` also finds the members an object
  // literal inherits from Object.prototype.

  predicate RejectsAsWritten(issue: Issue, key: string, q: string)
  {
    var v := PropertyAsWritten(issue, key);
    v.Some? && ValueTruthy(v.value) && !StrictEqualsString(v.value, q)
  }

  predicate PassesAsWritten(issue: Issue, filter: map<string, string>)
  {
    forall key :: key in filter ==> !RejectsAsWritten(issue, key, filter[key])
  }

  function FilterIssuesAsWritten(list: seq<Issue>, filter: map<string, string>): (r: seq<Issue>)
    ensures Subsequence(r, list)
    ensures forall x :: x in list ==> (x !in r <==> exists key :: key in filter && RejectsAsWritten(x, key, filter[key]))
    ensures forall x :: x in r ==> x in list
    ensures forall x :: multiset(r)[x] == if PassesAsWritten(x, filter) then multiset(list)[x] else 0
  {
    var keep := x => PassesAsWritten(x, filter);
    SelectIsSubsequence(list, keep);
    forall x ensures multiset(Select(list, keep))[x] == if keep(x) then multiset(list)[x] else 0 {
      SelectCounts(list, keep, x);
    }
    Select(list, keep)
  }

  lemma PrototypeMembersAreNotFields(key: string)
    requires key in ObjectPrototypeMembers
    ensures key !in FieldNames
  {
  }

  /** As written, a query key such as `toString` finds an inherited (truthy)
      function on every issue and so drops every issue. */
  lemma InheritedKeyDropsAll(list: seq<Issue>, filter: map<string, string>, key: string)
    requires key in filter && key in ObjectPrototypeMembers
    ensures FilterIssuesAsWritten(list, filter) == []
  {
    PrototypeMembersAreNotFields(key);
    forall x | x in list ensures !PassesAsWritten(x, filter) {
      assert RejectsAsWritten(x, key, filter[key]);
    }
    SelectNone(list, x => PassesAsWritten(x, filter));
  }

  /** The same query against the own-property filter drops nothing. */
  lemma InheritedKeyExample(issue: Issue)
    ensures FilterIssuesAsWritten([issue], map["toString" := "x"]) == []
    ensures FilterIssues([issue], map["toString" := "x"]) == [issue]
  {
    InheritedKeyDropsAll([issue], map["toString" := "x"], "toString");
    NonFieldKeysKeepAll([issue], map["toString" := "x"]);
  }

  /** Both filters agree on every query that names no Object.prototype member. */
  lemma AsWrittenAgrees(list: seq<Issue>, filter: map<string, string>)
    requires forall key :: key in filter ==> key !in ObjectPrototypeMembers
    ensures FilterIssuesAsWritten(list, filter) == FilterIssues(list, filter)
  {
    forall x | x in list ensures PassesAsWritten(x, filter) == Passes(x, filter) {
      forall key | key in filter ensures RejectsAsWritten(x, key, filter[key]) == Rejects(x, key, filter[key]) {
        assert PropertyAsWritten(x, key) == OwnProperty(x, key);
      }
    }
    SelectSame(list, x => PassesAsWritten(x, filter), x => Passes(x, filter));
  }
}
