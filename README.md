# Form deletion with App reference cleanup (fh-forms), in Dafny

This project models two operations of the fh-forms document store:

- `deleteForm(connections, options, cb)` checks that `options._id` is given. It then removes that Form. After that it finds every App whose `forms` list contains the Form id. For each such App it builds a new list without the id, reloads the App and saves the new list into it.
- `getFormApps(connections, options, cb)` checks that `options.formId` is given. It then returns every App whose `forms` list has that id as an element.

The store is replaced by an in-memory state (`Store.State`, and the class `Store.Database` for the live store that `deleteForm` updates in place). It holds:

- the set of Form ids;
- a map from App id to that App's ordered list of Form ids;
- the order in which the App collection yields its documents;
- the Form each Submission was filled against.

Store failures are an explicit parameter (`DeleteForm.Faults`, and an `Option<Error>` for the lookup). It says which store calls report an error: the Form removal, the App query, and the reload or save of each App.

Files:

- `store.dfy` (module `Store`): ids, documents, errors, options and the parameter check, the state and the `Database` class.
- `formapps.dfy` (module `FormApps`): the membership query `Matching` and `getFormApps`.
- `deleteform.dfy`: module `DeleteForm` holds the list filter, the per-App loop, the whole operation as a function (`DeleteSpec`), the methods on the live store and the properties; module `DeleteFormScenarios` holds two concrete runs.

Modelling choices:

- The `forms` list of an App is an ordered sequence. The filter keeps the other references in their original order, as the `forEach`/`push` loop does. It drops every occurrence of the id, not only the first.
- On success the callback receives the results of `async.series`: one entry per task, `[undefined, data]`. The first entry is what the parameter check passes on (nothing). The second is the result of the store's remove call, unchanged, not the removed Form document. The model gives these results as `DeleteForm.SeriesResults(None, removed)`, where `removed` is the number of Forms removed (0 or 1). Deleting an absent id therefore succeeds with 0.
- Each new list is computed from the copy the query returned. It is then written into the reloaded App.

## Model

| member | source | states |
|---|---|---|
| `Store.Database.constructor` | lib/impl/deleteForm.js:23 | The live store reached through the connection's models. It starts from a well-formed state and holds exactly that state. |
| `FormApps.Matching` | lib/impl/formapps.js:37 | The query `find({forms: f})`: an App is in the result exactly when it is stored, its listed `forms` is its stored list, and `f` is an element of that list (membership, not equality of the whole list). The result follows the collection order. |
| `FormApps.MatchingIds` | lib/impl/formapps.js:37 | In a well-formed store, the query selects a stored App exactly when its list contains the Form id. |
| `FormApps.GetFormApps` | lib/impl/formapps.js:25-41 | Missing `formId` gives the parameter error, with no query. A query fault is passed back as is, with no result. Otherwise the result is exactly the stored Apps whose list contains `formId`, in collection order. It is a function of the store state, so the lookup changes nothing. |
| `FormApps.NoReferenceNoMatch` | lib/impl/formapps.js:37-39 | If no App lists `f`, the lookup succeeds with no Apps. |
| `DeleteForm.Without` | lib/impl/deleteForm.js:28-32 | The new list does not contain the Form id. A list that does not contain the id is returned unchanged, so filtering twice gives the same list as filtering once. |
| `DeleteForm.WithoutKeepsOthers` | lib/impl/deleteForm.js:28-32 | Every other id keeps its number of occurrences. The new list is a subsequence of the old one, so the other references keep their original order. |
| `DeleteForm.WithoutAppend` | lib/impl/deleteForm.js:30-31 | Filtering a concatenation is the concatenation of the filtered parts, so the element-by-element loop builds the same list as the filter. |
| `DeleteForm.NewForms` | lib/impl/deleteForm.js:28-32 | The `forEach`/`push` loop returns exactly the queried list with every occurrence of the Form id dropped. |
| `DeleteForm.RemoveAppForm` | lib/impl/deleteForm.js:27-38 | A failing reload or save returns that error and leaves the App store as it was. Otherwise the App's stored list becomes the queried list minus the Form id. No App is added or deleted, and nothing else in the store changes. |
| `DeleteForm.FirstFault` | lib/impl/deleteForm.js:33-39 | The position of the first matched App whose reload or save fails: every App before it succeeds, and the App at it fails (or it is the end of the list). |
| `DeleteForm.ReconcileStopsAtFirstFault` | lib/impl/deleteForm.js:33-39 | The App updates write exactly the matched Apps before the first failing one. They report that App's reload error, or else its save error, and report no error when none fails. |
| `DeleteForm.Reconcile` | lib/impl/deleteForm.js:33-39 | The App updates report no error exactly when none of the matched Apps has a failing reload or save. |
| `DeleteForm.ReconcileReportsMatchedFault` | lib/impl/deleteForm.js:33-39 | An error the App updates report is the reload error, or else the save error, of one of the matched Apps. |
| `DeleteForm.ScrubEffect` | lib/impl/deleteForm.js:28-36 | Writing the filtered lists deletes no App and adds none. Each written App gets its stored list minus the Form id. Every other App keeps its list. |
| `DeleteForm.DeleteSpec` | lib/impl/deleteForm.js:6-59 | A missing `_id` returns the parameter error and changes nothing. A fault in the removal returns that fault and changes nothing. Otherwise the Form set loses the id. A fault in the App query returns that fault, and the Form stays removed while every App is left as it was. App lists change only after the Form is removed. No App is deleted. The collection order and the Submissions are untouched. A success returns the series' results: nothing from the check, then the remove result (1 if the Form was stored, 0 if not). |
| `DeleteForm.UpdateAppForms` | lib/impl/deleteForm.js:22-41 | A query fault is returned and no App changes. Otherwise it runs `RemoveAppForm` on each matched App in turn and stops at the first error. The App store and the error it leaves are exactly those of `DeleteForm.Reconcile` on the queried Apps. It changes neither the Form set, nor the order, nor the Submissions, and the store stays well formed. |
| `DeleteForm.Delete` | lib/impl/deleteForm.js:6-59 | The method on the live store: the new store and the result (the series' results on success, otherwise the first error) are exactly `DeleteSpec` of the old store, and the store stays well formed. |
| `DeleteForm.DeleteUpdatesPrefix` | lib/impl/deleteForm.js:22-53 | After the Form is removed and the query succeeds, the Apps written are exactly the matched Apps before the first failing one. Each gets its old list minus the Form id. Every other App keeps its list. The call succeeds exactly when no App update failed, and otherwise returns that App's error. There is no rollback of the Form removal or of earlier saves. |
| `DeleteForm.DeleteSuccessCleansApps` | lib/impl/deleteForm.js:22-41 | After a successful delete, the Form id is gone and no App lists it. Every App's list is its old list minus the id (unchanged when it did not list it). No App is deleted, even one left with an empty list. |
| `DeleteForm.DeleteThenLookupEmpty` | lib/impl/deleteForm.js:48-56 | After `deleteForm(f)` succeeds, `getFormApps(f)` returns no Apps. |
| `DeleteForm.DeleteWithoutFaultsSucceeds` | lib/impl/deleteForm.js:48-56 | With no store failure the delete succeeds. Its results are nothing from the check, then 1 if the Form was stored and 0 if it was not. Deleting an absent id is not an error. |
| `DeleteForm.DeleteIdempotent` | lib/impl/deleteForm.js:44-56 | After a successful delete, deleting the same id again changes nothing, whatever store failures the second call meets. Without a failing removal or App query, the second call succeeds with nothing removed. |
| `DeleteForm.DeleteWithoutFaultsCleans` | lib/impl/deleteForm.js:22-56 | With no store failure, the delete leaves exactly the old store minus the Form id, with every App list filtered. |
| `DeleteForm.DeleteEffectBounds` | lib/impl/deleteForm.js:43-59 | Whatever fails, the delete changes no Form other than the id. Each App's list ends up either untouched or filtered. No App is added or deleted, and the order and the Submissions stay as they were. |
| `DeleteForm.CleanedAbsorbs` | lib/impl/deleteForm.js:28-32 | Filtering every App list of a store that was already partly filtered gives the same store as filtering the original. |
| `DeleteForm.RerunCompletes` | lib/impl/deleteForm.js:43-59 | There is no rollback, but the cleanup can be re-run. Whatever failed during a first delete, a second delete of the same id without store failures leaves the store exactly as one delete without failures would have. |
| `DeleteFormScenarios.DeleteOneOfTwoReferences` | lib/impl/deleteForm.js:27-36 | App G1 lists F1 and F2. Deleting F1 removes F1 and leaves G1 listing F2 only. |
| `DeleteFormScenarios.SecondSaveFails` | lib/impl/deleteForm.js:33-39 | Two Apps list F1 and the second save fails. F1 stays removed, the first App keeps its new list, the second keeps its old one, and the store error is returned. |

## Left out

- Per-App updates run concurrently in the source (`async.map`). The model runs them one after another in collection order, and the first failure stops the loop. In the source, updates already in flight when one fails may still be saved after the error is returned. The model does not capture that.
- The reload before the save: the model assumes the reloaded App exists and equals the queried copy. It does not model writes by other clients between the query and the save, or the crash the source would hit if the App had vanished meanwhile.
- The Mongoose model registry, connections and `.exec` query builders are replaced by the in-memory state. The unused Form model handle in `getFormApps` is dropped.
- `validate.js` is not part of this model. Its check is modelled as "the option key is present". Error message texts and logging are not modelled: the parameter error carries only the missing field's name, and a store fault carries an opaque code.
- When a task fails, `async.series` also hands the callback the results gathered so far. The model returns only the error.
- ObjectId comparison and `toString` become plain equality on string ids.
- Submissions: `deleteForm` does nothing to them (the source leaves this as an open TODO). The model keeps them only to state that they are untouched.
- The acceptance test `test/accept/test_submitFormDataAdminFields.js` exercises the submission merge with administrator-only fields. That behaviour lives in `forms.submitFormData` and related code, which is not part of this model.
