/**
 The App-Form lookup: which Apps reference a given Form. It only reads the
 store, so it is a function of the store's state.
 */
module FormApps {
  import opened Store

  /**
   The query `find({forms: f})` on the App collection: the App documents, in
   collection order, whose `forms` list has `f` as one of its elements.
   */
  function Matching(order: seq<AppId>, apps: map<AppId, seq<FormId>>, f: FormId): (r: seq<App>)
    ensures forall a :: a in r <==> a.id in order && a.id in apps && a.forms == apps[a.id] && f in a.forms
    ensures IsSubsequence(Ids(r), order)
  {
    if order == [] then []
    else
      var rest := Matching(order[1..], apps, f);
      var id := order[0];
      if id in apps && f in apps[id] then
        assert Ids([App(id, apps[id])] + rest) == [id] + Ids(rest);
        [App(id, apps[id])] + rest
      else
        SkipHead(Ids(rest), order);
        rest
  }

  /** Dropping the head of the larger sequence keeps a subsequence relation. */
  lemma {:induction false} SkipHead<T>(a: seq<T>, b: seq<T>)
    requires b != [] && IsSubsequence(a, b[1..])
    ensures IsSubsequence(a, b)
  {
    if a != [] && a[0] == b[0] {
      SubsequenceOfTail(a, b[1..]);
    }
  }

  lemma {:induction false} SubsequenceOfTail<T>(a: seq<T>, b: seq<T>)
    requires a != [] && IsSubsequence(a, b)
    ensures IsSubsequence(a[1..], b)
  {
    assert b != [];
    if a[0] == b[0] {
      if a[1..] != [] {
        SubsequenceOfTail(a[1..], b[1..]);
        SkipHead(a[1..], b);
      }
    } else {
      SubsequenceOfTail(a, b[1..]);
      SkipHead(a[1..], b);
    }
  }

  /** In a well-formed store, the query selects an App exactly when its list contains `f`. */
  lemma MatchingIds(s: State, f: FormId)
    requires WellFormed(s)
    ensures forall id :: id in s.apps ==> (id in Ids(Matching(s.order, s.apps, f)) <==> f in s.apps[id])
  {
    var r := Matching(s.order, s.apps, f);
    forall id | id in s.apps
      ensures id in Ids(r) <==> f in s.apps[id]
    {
      if id in Ids(r) {
        var i :| 0 <= i < |r| && Ids(r)[i] == id;
        assert r[i] in r;
      }
      if f in s.apps[id] {
        assert App(id, s.apps[id]) in r;
        var i :| 0 <= i < |r| && r[i] == App(id, s.apps[id]);
        assert Ids(r)[i] == id;
      }
    }
  }

  /**
   `getFormApps`: check that `formId` is present, then run the membership
   query; a fault reported by the query is handed back as it is.
   */
  function GetFormApps(s: State, options: Options, findFault: Option<Error>): (r: Result<seq<App>>)
    ensures r.Ok? <==> Has(options, "formId") && findFault.None?
    ensures !Has(options, "formId") ==> r == Err(InvalidParams("formId"))
    ensures Has(options, "formId") && findFault.Some? ==> r == Err(findFault.value)
    ensures r.Ok? ==> IsSubsequence(Ids(r.value), s.order)
    ensures r.Ok? && WellFormed(s) ==>
      forall a :: a in r.value <==> a.id in s.apps && a.forms == s.apps[a.id] && options["formId"] in a.forms
  {
    if !Has(options, "formId") then Err(InvalidParams("formId"))
    else if findFault.Some? then Err(findFault.value)
    else Ok(Matching(s.order, s.apps, options["formId"]))
  }

  /** With no App listing `f`, the lookup finds nothing. */
  lemma {:induction false} NoReferenceNoMatch(s: State, f: FormId)
    requires forall id :: id in s.apps ==> f !in s.apps[id]
    ensures GetFormApps(s, map["formId" := f], None) == Ok([])
  {
  }
}
