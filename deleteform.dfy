/**
 Deleting a Form and cleaning up the App references to it: check that `_id`
 is given, remove the Form, then rewrite the `forms` list of every App that
 lists the Form so that it no longer does.

 The document store's failures are a parameter (`Faults`): which of its calls
 report an error. The App updates run one after another in collection order;
 the first failing one stops the cleanup.
 */
module DeleteForm {
  import opened Store
  import FormApps

  // ---------------------------------------------------------------------------
  // The new `forms` list of one App
  // ---------------------------------------------------------------------------

  /** The list `forms` with every occurrence of `f` dropped. */
  function Without(forms: seq<FormId>, f: FormId): (r: seq<FormId>)
    ensures f !in r
    ensures f !in forms ==> r == forms
  {
    if forms == [] then []
    else if forms[0] == f then Without(forms[1..], f)
    else [forms[0]] + Without(forms[1..], f)
  }

  /**
   Dropping `f` keeps every other reference, as often as it occurred and in
   its original order.
   */
  lemma {:induction false} WithoutKeepsOthers(forms: seq<FormId>, f: FormId)
    ensures multiset(Without(forms, f)) == multiset(forms)[f := 0]
    ensures IsSubsequence(Without(forms, f), forms)
  {
    if forms != [] {
      WithoutKeepsOthers(forms[1..], f);
      assert forms == [forms[0]] + forms[1..];
      var rest := Without(forms[1..], f);
      if forms[0] == f {
        if rest != [] {
          assert rest[0] != forms[0];
        }
      } else {
        assert ([forms[0]] + rest)[1..] == rest;
      }
    }
  }

  /** Filtering distributes over concatenation. */
  lemma {:induction false} WithoutAppend(a: seq<FormId>, b: seq<FormId>, f: FormId)
    ensures Without(a + b, f) == Without(a, f) + Without(b, f)
  {
    if a != [] {
      assert (a + b)[0] == a[0] && (a + b)[1..] == a[1..] + b;
      WithoutAppend(a[1..], b, f);
      if a[0] != f {
        assert Without(a + b, f) == [a[0]] + Without(a[1..] + b, f);
        assert Without(a, f) == [a[0]] + Without(a[1..], f);
      } else {
        assert Without(a + b, f) == Without(a[1..] + b, f);
        assert Without(a, f) == Without(a[1..], f);
      }
    } else {
      assert a + b == b;
    }
  }

  /**
   The list building in `removeAppForm`: walk the queried list and push every
   reference that is not `formId`.
   */
  method NewForms(forms: seq<FormId>, formId: FormId) returns (newForms: seq<FormId>)
    ensures newForms == Without(forms, formId)
  {
    newForms := [];
    var i := 0;
    while i < |forms|
      invariant 0 <= i <= |forms|
      invariant newForms == Without(forms[..i], formId)
    {
      if forms[i] != formId {
        newForms := newForms + [forms[i]];
      }
      assert forms[..i + 1] == forms[..i] + [forms[i]];
      WithoutAppend(forms[..i], [forms[i]], formId);
      i := i + 1;
    }
    assert forms[..i] == forms;
  }

  // ---------------------------------------------------------------------------
  // Store faults and the cleanup loop as a function
  // ---------------------------------------------------------------------------

  /**
   The store calls that fail: removing the Form, the App query, and, per App,
   reloading it by identifier or saving it.
   */
  datatype Faults = Faults(
    remove: Option<Error>,
    find: Option<Error>,
    reload: map<AppId, Error>,
    save: map<AppId, Error>)

  const NoFaults := Faults(None, None, map[], map[])

  predicate Faulted(id: AppId, faults: Faults)
  {
    id in faults.reload || id in faults.save
  }

  /** The error the update of App `id` reports: the reload is attempted first. */
  function FaultOf(id: AppId, faults: Faults): Error
    requires Faulted(id, faults)
  {
    if id in faults.reload then faults.reload[id] else faults.save[id]
  }

  /** The position of the first App whose update fails, or |matched| if none does. */
  function FirstFault(matched: seq<App>, faults: Faults): (k: nat)
    ensures k <= |matched|
    ensures forall i :: 0 <= i < k ==> !Faulted(matched[i].id, faults)
    ensures k < |matched| ==> Faulted(matched[k].id, faults)
  {
    if matched == [] then 0
    else if Faulted(matched[0].id, faults) then 0
    else 1 + FirstFault(matched[1..], faults)
  }

  /** Writing the filtered list of each queried App, with no failure. */
  function Scrub(apps: map<AppId, seq<FormId>>, matched: seq<App>, f: FormId): map<AppId, seq<FormId>>
    decreases |matched|
  {
    if matched == [] then apps
    else Scrub(apps[matched[0].id := Without(matched[0].forms, f)], matched[1..], f)
  }

  /**
   `updateAppForms` after its query: the App store and the first error once
   the Apps in `matched` have been processed in order. Each new list is
   computed from the queried copy of the App.
   */
  function Reconcile(apps: map<AppId, seq<FormId>>, matched: seq<App>, f: FormId, faults: Faults)
    : (r: (map<AppId, seq<FormId>>, Option<Error>))
    ensures r.1.None? <==> forall a :: a in matched ==> !Faulted(a.id, faults)
    decreases |matched|
  {
    if matched == [] then (apps, None)
    else
      var a := matched[0];
      if a.id in faults.reload then (apps, Some(faults.reload[a.id]))
      else if a.id in faults.save then (apps, Some(faults.save[a.id]))
      else Reconcile(apps[a.id := Without(a.forms, f)], matched[1..], f, faults)
  }

  /** A reported error is the reload or save error of one of the matched Apps. */
  lemma {:induction false} ReconcileReportsMatchedFault(
    apps: map<AppId, seq<FormId>>, matched: seq<App>, f: FormId, faults: Faults)
    ensures var r := Reconcile(apps, matched, f, faults);
      r.1.Some? ==> exists a :: a in matched && Faulted(a.id, faults) && r.1.value == FaultOf(a.id, faults)
    decreases |matched|
  {
    if matched != [] && !Faulted(matched[0].id, faults) {
      var a := matched[0];
      ReconcileReportsMatchedFault(apps[a.id := Without(a.forms, f)], matched[1..], f, faults);
      var r := Reconcile(apps, matched, f, faults);
      if r.1.Some? {
        var b :| b in matched[1..] && Faulted(b.id, faults) && r.1.value == FaultOf(b.id, faults);
        assert b in matched;
      }
    }
  }

  /** The cleanup stops at the first failing App: the Apps before it are written, no other. */
  lemma {:induction false} ReconcileStopsAtFirstFault(
    apps: map<AppId, seq<FormId>>, matched: seq<App>, f: FormId, faults: Faults)
    ensures var k := FirstFault(matched, faults);
      Reconcile(apps, matched, f, faults) ==
        (Scrub(apps, matched[..k], f), if k == |matched| then None else Some(FaultOf(matched[k].id, faults)))
    decreases |matched|
  {
    if matched == [] {
    } else if Faulted(matched[0].id, faults) {
      assert matched[..0] == [];
    } else {
      var a := matched[0];
      var apps' := apps[a.id := Without(a.forms, f)];
      var k := FirstFault(matched, faults);
      assert k == 1 + FirstFault(matched[1..], faults);
      ReconcileStopsAtFirstFault(apps', matched[1..], f, faults);
      assert matched[..k][0] == a && matched[..k][1..] == matched[1..][..k - 1];
      assert Scrub(apps, matched[..k], f) == Scrub(apps', matched[1..][..k - 1], f);
      assert k < |matched| ==> matched[k] == matched[1..][k - 1];
    }
  }

  /**
   The effect of writing the filtered lists: no App is added or deleted; an
   App among `matched` ends with its old list minus `f`; every other App
   keeps its list.
   */
  lemma {:induction false} ScrubEffect(apps: map<AppId, seq<FormId>>, matched: seq<App>, f: FormId)
    requires forall a :: a in matched ==> a.id in apps && Without(a.forms, f) == Without(apps[a.id], f)
    ensures Scrub(apps, matched, f).Keys == apps.Keys
    ensures forall id :: id in apps ==>
      Scrub(apps, matched, f)[id] == if id in Ids(matched) then Without(apps[id], f) else apps[id]
    decreases |matched|
  {
    if matched != [] {
      var a := matched[0];
      var apps' := apps[a.id := Without(a.forms, f)];
      forall b | b in matched[1..]
        ensures b.id in apps' && Without(b.forms, f) == Without(apps'[b.id], f)
      {
        assert b in matched;
      }
      ScrubEffect(apps', matched[1..], f);
      assert Ids(matched) == [a.id] + Ids(matched[1..]);
    }
  }

  // ---------------------------------------------------------------------------
  // The whole operation as a function of the store state
  // ---------------------------------------------------------------------------

  /**
   The results array that `async.series` hands to the caller's callback on
   success, one entry per step: `validateParams` contributes no value, and
   `deleteFormUsingId` the result of the store's remove call, modelled as the
   number of Forms removed.
   */
  datatype SeriesResults = SeriesResults(validateParams: Option<nat>, removed: nat)

  /** What `deleteForm` hands to its callback, and the store it leaves behind. */
  datatype Outcome = Outcome(state: State, result: Result<SeriesResults>)

  /**
   `deleteForm(options)`: the parameter check, then the removal of the Form
   (its result is the number of Forms removed), then the App cleanup.
   */
  function DeleteSpec(s: State, options: Options, faults: Faults): (o: Outcome)
    ensures o.state.order == s.order && o.state.submissions == s.submissions
    ensures o.state.apps.Keys == s.apps.Keys
    ensures !Has(options, "_id") || faults.remove.Some? ==> o.state == s && o.result.Err?
    ensures !Has(options, "_id") ==> o.result == Err(InvalidParams("_id"))
    ensures Has(options, "_id") && faults.remove.Some? ==> o.result == Err(faults.remove.value)
    ensures Has(options, "_id") && faults.remove.None? ==> o.state.forms == s.forms - {options["_id"]}
    ensures Has(options, "_id") && faults.remove.None? && faults.find.Some? ==>
      o.state == s.(forms := s.forms - {options["_id"]}) && o.result == Err(faults.find.value)
    ensures o.state.apps != s.apps ==> Has(options, "_id") && options["_id"] !in o.state.forms
    ensures o.result.Ok? ==> o.result.value == SeriesResults(None, if options["_id"] in s.forms then 1 else 0)
  {
    if !Has(options, "_id") then Outcome(s, Err(InvalidParams("_id")))
    else
      var f := options["_id"];
      if faults.remove.Some? then Outcome(s, Err(faults.remove.value))
      else
        var removed := if f in s.forms then 1 else 0;
        var s1 := s.(forms := s.forms - {f});
        if faults.find.Some? then Outcome(s1, Err(faults.find.value))
        else
          var matched := FormApps.Matching(s.order, s.apps, f);
          var r := Reconcile(s.apps, matched, f, faults);
          ReconcileStopsAtFirstFault(s.apps, matched, f, faults);
          ScrubEffect(s.apps, matched[..FirstFault(matched, faults)], f);
          Outcome(s1.(apps := r.0), if r.1.Some? then Err(r.1.value) else Ok(SeriesResults(None, removed)))
  }

  // ---------------------------------------------------------------------------
  // The operation on the live store
  // ---------------------------------------------------------------------------

  /**
   `removeAppForm`: build the filtered list from the queried copy of the App,
   reload the App by its identifier and save the list into it. A failing
   reload or save leaves the App as it was.
   */
  method RemoveAppForm(db: Database, app: App, formId: FormId, faults: Faults) returns (err: Option<Error>)
    requires app.id in db.apps
    modifies db
    ensures db.apps.Keys == old(db.apps).Keys
    ensures db.forms == old(db.forms) && db.order == old(db.order) && db.submissions == old(db.submissions)
    ensures err == if app.id in faults.reload then Some(faults.reload[app.id])
                   else if app.id in faults.save then Some(faults.save[app.id])
                   else None
    ensures db.apps == if err.Some? then old(db.apps) else old(db.apps)[app.id := Without(app.forms, formId)]
  {
    var newForms := NewForms(app.forms, formId);
    if app.id in faults.reload {
      return Some(faults.reload[app.id]);
    }
    if app.id in faults.save {
      return Some(faults.save[app.id]);
    }
    db.apps := db.apps[app.id := newForms];
    assert db.apps.Keys == old(db.apps).Keys;
    err := None;
  }

  /**
   `updateAppForms`: query the Apps listing `formId`, then run
   `removeAppForm` on each of them; the first error is returned.
   */
  method UpdateAppForms(db: Database, formId: FormId, faults: Faults) returns (err: Option<Error>)
    requires db.Valid()
    modifies db
    ensures db.Valid()
    ensures db.forms == old(db.forms) && db.order == old(db.order) && db.submissions == old(db.submissions)
    ensures faults.find.Some? ==> err == faults.find && db.apps == old(db.apps)
    ensures faults.find.None? ==>
      (db.apps, err) == Reconcile(old(db.apps), FormApps.Matching(old(db.order), old(db.apps), formId), formId, faults)
  {
    if faults.find.Some? {
      return faults.find;
    }
    var apps := FormApps.Matching(db.order, db.apps, formId);
    ghost var goal := Reconcile(db.apps, apps, formId, faults);
    err := None;
    var i := 0;
    while i < |apps| && err.None?
      invariant 0 <= i <= |apps|
      invariant db.forms == old(db.forms) && db.order == old(db.order) && db.submissions == old(db.submissions)
      invariant db.apps.Keys == old(db.apps).Keys
      invariant err.None? ==> Reconcile(db.apps, apps[i..], formId, faults) == goal
      invariant err.Some? ==> (db.apps, err) == goal
    {
      assert apps[i] in apps;
      ReconcileAt(db.apps, apps, i, formId, faults);
      err := RemoveAppForm(db, apps[i], formId, faults);
      i := i + 1;
    }
    SameAppsWellFormed(old(db.Snapshot()), db.Snapshot());
  }

  /** One step of the cleanup loop, at position `i` of the matched Apps. */
  lemma ReconcileAt(apps: map<AppId, seq<FormId>>, matched: seq<App>, i: nat, f: FormId, faults: Faults)
    requires i < |matched|
    ensures var a := matched[i];
      Reconcile(apps, matched[i..], f, faults) ==
        if a.id in faults.reload then (apps, Some(faults.reload[a.id]))
        else if a.id in faults.save then (apps, Some(faults.save[a.id]))
        else Reconcile(apps[a.id := Without(a.forms, f)], matched[i + 1..], f, faults)
  {
    assert matched[i..][0] == matched[i] && matched[i..][1..] == matched[i + 1..];
  }

  /**
   `deleteForm`: the series "check `_id`, then remove the Form and clean up
   the Apps". The callback gets the series' results on success, otherwise the
   first error; nothing done before the error is undone.
   */
  method Delete(db: Database, options: Options, faults: Faults) returns (r: Result<SeriesResults>)
    requires db.Valid()
    modifies db
    ensures db.Valid()
    ensures Outcome(db.Snapshot(), r) == DeleteSpec(old(db.Snapshot()), options, faults)
  {
    if !Has(options, "_id") {
      return Err(InvalidParams("_id"));
    }
    var formId := options["_id"];
    if faults.remove.Some? {
      return Err(faults.remove.value);
    }
    var data := if formId in db.forms then 1 else 0;
    db.forms := db.forms - {formId};
    var err := UpdateAppForms(db, formId, faults);
    if err.Some? {
      return Err(err.value);
    }
    return Ok(SeriesResults(None, data));
  }

  // ---------------------------------------------------------------------------
  // Properties of the operation
  // ---------------------------------------------------------------------------

  /**
   When the store does not fail before the cleanup, the Apps written are
   exactly the matched Apps before the first failing one: each gets its old
   list minus the Form, every other App is untouched, and the call succeeds
   exactly when no App update failed.
   */
  lemma {:induction false} DeleteUpdatesPrefix(s: State, f: FormId, faults: Faults)
    requires WellFormed(s)
    requires faults.remove.None? && faults.find.None?
    ensures var o := DeleteSpec(s, map["_id" := f], faults);
      var matched := FormApps.Matching(s.order, s.apps, f);
      var k := FirstFault(matched, faults);
      && o.state.forms == s.forms - {f}
      && o.state.apps.Keys == s.apps.Keys
      && (forall id :: id in s.apps ==>
            o.state.apps[id] == if id in Ids(matched[..k]) then Without(s.apps[id], f) else s.apps[id])
      && (o.result.Ok? <==> k == |matched|)
      && (k < |matched| ==> o.result == Err(FaultOf(matched[k].id, faults)))
  {
    var matched := FormApps.Matching(s.order, s.apps, f);
    var k := FirstFault(matched, faults);
    ReconcileStopsAtFirstFault(s.apps, matched, f, faults);
    forall a | a in matched[..k]
      ensures a.id in s.apps && Without(a.forms, f) == Without(s.apps[a.id], f)
    {
      assert a in matched;
    }
    ScrubEffect(s.apps, matched[..k], f);
  }

  /**
   After a successful delete no App lists the Form, every App that listed it
   keeps its other references in their order, every other App keeps its list,
   and no App is deleted.
   */
  lemma {:induction false} DeleteSuccessCleansApps(s: State, f: FormId, faults: Faults)
    requires WellFormed(s)
    requires DeleteSpec(s, map["_id" := f], faults).result.Ok?
    ensures var t := DeleteSpec(s, map["_id" := f], faults).state;
      && WellFormed(t)
      && f !in t.forms
      && t.apps.Keys == s.apps.Keys
      && (forall id :: id in t.apps ==> f !in t.apps[id])
      && (forall id :: id in s.apps ==> t.apps[id] == Without(s.apps[id], f))
  {
    var matched := FormApps.Matching(s.order, s.apps, f);
    DeleteUpdatesPrefix(s, f, faults);
    assert matched[..|matched|] == matched;
    FormApps.MatchingIds(s, f);
  }

  /** Once `deleteForm(f)` has succeeded, `getFormApps(f)` finds no App. */
  lemma {:induction false} DeleteThenLookupEmpty(s: State, f: FormId, faults: Faults)
    requires WellFormed(s)
    requires DeleteSpec(s, map["_id" := f], faults).result.Ok?
    ensures FormApps.GetFormApps(DeleteSpec(s, map["_id" := f], faults).state, map["formId" := f], None) == Ok([])
  {
    DeleteSuccessCleansApps(s, f, faults);
    FormApps.NoReferenceNoMatch(DeleteSpec(s, map["_id" := f], faults).state, f);
  }

  /** Without store failures the delete succeeds, also for a Form that is not stored. */
  lemma {:induction false} DeleteWithoutFaultsSucceeds(s: State, f: FormId)
    requires WellFormed(s)
    ensures DeleteSpec(s, map["_id" := f], NoFaults).result == Ok(SeriesResults(None, if f in s.forms then 1 else 0))
  {
    DeleteUpdatesPrefix(s, f, NoFaults);
  }

  /**
   Deleting again after a successful delete changes nothing, whatever the store
   does on the second call, and succeeds with nothing removed unless the
   removal or the App query fails.
   */
  lemma {:induction false} DeleteIdempotent(s: State, f: FormId, faults: Faults, faults2: Faults)
    requires WellFormed(s)
    requires DeleteSpec(s, map["_id" := f], faults).result.Ok?
    ensures var t := DeleteSpec(s, map["_id" := f], faults).state;
      && DeleteSpec(t, map["_id" := f], faults2).state == t
      && (faults2.remove.None? && faults2.find.None? ==>
            DeleteSpec(t, map["_id" := f], faults2).result == Ok(SeriesResults(None, 0)))
  {
    var t := DeleteSpec(s, map["_id" := f], faults).state;
    DeleteSuccessCleansApps(s, f, faults);
    FormApps.NoReferenceNoMatch(t, f);
    assert FormApps.Matching(t.order, t.apps, f) == [];
    assert t.(forms := t.forms - {f}) == t;
  }

  /** A delete without store failures: the Form removed and every App list filtered. */
  function Cleaned(s: State, f: FormId): State
  {
    s.(forms := s.forms - {f}, apps := map id | id in s.apps :: Without(s.apps[id], f))
  }

  lemma {:induction false} DeleteWithoutFaultsCleans(s: State, f: FormId)
    requires WellFormed(s)
    ensures DeleteSpec(s, map["_id" := f], NoFaults).state == Cleaned(s, f)
  {
    DeleteWithoutFaultsSucceeds(s, f);
    DeleteSuccessCleansApps(s, f, NoFaults);
    assert DeleteSpec(s, map["_id" := f], NoFaults).state.apps == Cleaned(s, f).apps;
  }

  /**
   Whatever fails during a delete, the Form ends up removed or untouched, each
   App list ends up filtered or untouched, and nothing else changes.
   */
  lemma {:induction false} DeleteEffectBounds(s: State, f: FormId, faults: Faults)
    requires WellFormed(s)
    ensures var t := DeleteSpec(s, map["_id" := f], faults).state;
      && t.forms - {f} == s.forms - {f}
      && t.order == s.order && t.submissions == s.submissions && t.apps.Keys == s.apps.Keys
      && (forall id :: id in s.apps ==> t.apps[id] == s.apps[id] || t.apps[id] == Without(s.apps[id], f))
  {
    if faults.remove.None? && faults.find.None? {
      DeleteUpdatesPrefix(s, f, faults);
    }
  }

  /** Filtering every App again absorbs any earlier, partial filtering. */
  lemma {:induction false} CleanedAbsorbs(s: State, t: State, f: FormId)
    requires t.forms - {f} == s.forms - {f}
    requires t.order == s.order && t.submissions == s.submissions && t.apps.Keys == s.apps.Keys
    requires forall id :: id in s.apps ==> t.apps[id] == s.apps[id] || t.apps[id] == Without(s.apps[id], f)
    ensures Cleaned(t, f) == Cleaned(s, f)
  {
    forall id | id in s.apps
      ensures Without(t.apps[id], f) == Without(s.apps[id], f)
    {
      assert t.apps[id] == s.apps[id] || t.apps[id] == Without(s.apps[id], f);
    }
    assert Cleaned(t, f).apps == Cleaned(s, f).apps;
  }

  /**
   The cleanup can be re-run: whatever failed during a first delete, a second
   delete without store failures leaves the store exactly as a single delete
   without failures would have.
   */
  lemma {:induction false} RerunCompletes(s: State, f: FormId, faults: Faults)
    requires WellFormed(s)
    ensures DeleteSpec(DeleteSpec(s, map["_id" := f], faults).state, map["_id" := f], NoFaults).state
         == DeleteSpec(s, map["_id" := f], NoFaults).state
  {
    var t := DeleteSpec(s, map["_id" := f], faults).state;
    DeleteEffectBounds(s, f, faults);
    SameAppsWellFormed(s, t);
    DeleteWithoutFaultsCleans(s, f);
    DeleteWithoutFaultsCleans(t, f);
    CleanedAbsorbs(s, t, f);
  }
}

module DeleteFormScenarios {
  import opened Store
  import opened DeleteForm
  import FormApps

  /** App G1 lists F1 and F2; deleting F1 leaves G1 with F2 only. */
  lemma DeleteOneOfTwoReferences()
    ensures var s := State({"F1", "F2"}, map["G1" := ["F1", "F2"]], ["G1"], map[]);
      DeleteSpec(s, map["_id" := "F1"], NoFaults)
        == Outcome(State({"F2"}, map["G1" := ["F2"]], ["G1"], map[]), Ok(SeriesResults(None, 1)))
  {
    var s := State({"F1", "F2"}, map["G1" := ["F1", "F2"]], ["G1"], map[]);
    var g1 := App("G1", ["F1", "F2"]);
    assert FormApps.Matching(["G1"][1..], s.apps, "F1") == [];
    assert FormApps.Matching(s.order, s.apps, "F1") == [g1];
    assert Without(["F1", "F2"], "F1") == ["F2"] by {
      assert ["F1", "F2"][1..] == ["F2"];
    }
    assert Reconcile(s.apps, [g1], "F1", NoFaults) == (map["G1" := ["F2"]], None) by {
      assert [g1][1..] == [];
      assert "G1" !in NoFaults.reload && "G1" !in NoFaults.save;
      assert s.apps["G1" := ["F2"]] == map["G1" := ["F2"]];
    }
    assert s.forms - {"F1"} == {"F2"};
  }

  /**
   Two Apps list F1 and saving the second one fails: the Form stays removed,
   the first App keeps its new list, the second its old one, and the caller
   gets the store's error.
   */
  lemma SecondSaveFails()
    ensures var s := State({"F1"}, map["G1" := ["F1", "F2"], "G2" := ["F3", "F1"]], ["G1", "G2"], map[]);
      var faults := Faults(None, None, map[], map["G2" := StoreFault(1)]);
      DeleteSpec(s, map["_id" := "F1"], faults)
        == Outcome(State({}, map["G1" := ["F2"], "G2" := ["F3", "F1"]], ["G1", "G2"], map[]), Err(StoreFault(1)))
  {
    var s := State({"F1"}, map["G1" := ["F1", "F2"], "G2" := ["F3", "F1"]], ["G1", "G2"], map[]);
    var faults := Faults(None, None, map[], map["G2" := StoreFault(1)]);
    var g1 := App("G1", ["F1", "F2"]);
    var g2 := App("G2", ["F3", "F1"]);
    assert FormApps.Matching(["G1", "G2"][1..][1..], s.apps, "F1") == [];
    assert FormApps.Matching(["G1", "G2"][1..], s.apps, "F1") == [g2];
    assert FormApps.Matching(s.order, s.apps, "F1") == [g1, g2];
    assert Without(["F1", "F2"], "F1") == ["F2"] by {
      assert ["F1", "F2"][1..] == ["F2"];
    }
    var after1 := map["G1" := ["F2"], "G2" := ["F3", "F1"]];
    assert s.apps["G1" := ["F2"]] == after1;
    assert Reconcile(after1, [g1, g2][1..], "F1", faults) == (after1, Some(StoreFault(1))) by {
      assert [g1, g2][1..] == [g2];
    }
    assert s.forms - {"F1"} == {};
  }
}
