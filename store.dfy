/**
 The document store shared by the Form and App operations, reduced to what
 the reference cleanup needs: the identifiers of the stored Forms, every App's
 ordered list of Form references, and the Form each Submission was filled
 against. Identifiers are opaque strings compared by equality.
 */
module Store {

  type FormId = string
  type AppId = string
  type SubmissionId = string

  /** An App document as a query returns it: its identifier and its `forms` list. */
  datatype App = App(id: AppId, forms: seq<FormId>)

  datatype Option<T> = None | Some(value: T)

  /** Errors handed to the caller's callback. */
  datatype Error =
    | InvalidParams(field: string)  // a required option is absent
    | StoreFault(code: nat)         // a failure reported by the document store

  datatype Result<T> = Ok(value: T) | Err(error: Error)

  /** The already-parsed `options` object of a call. */
  type Options = map<string, string>

  /** The parameter check: the named option is present. */
  predicate Has(options: Options, key: string)
  {
    key in options
  }

  /**
   The collections as values. `order` is the order in which the App
   collection yields its documents to a query.
   */
  datatype State = State(
    forms: set<FormId>,
    apps: map<AppId, seq<FormId>>,
    order: seq<AppId>,
    submissions: map<SubmissionId, FormId>)

  predicate Distinct<T(==)>(s: seq<T>)
  {
    forall i, j :: 0 <= i < j < |s| ==> s[i] != s[j]
  }

  /** Every stored App is listed exactly once in the collection order. */
  ghost predicate WellFormed(s: State)
  {
    (forall id :: id in s.apps <==> id in s.order) && Distinct(s.order)
  }

  /** Well-formedness depends only on which Apps are stored and on the collection order. */
  lemma SameAppsWellFormed(s: State, t: State)
    requires WellFormed(s) && t.apps.Keys == s.apps.Keys && t.order == s.order
    ensures WellFormed(t)
  {
  }

  /** `a` is obtained from `b` by dropping elements, keeping the others in order. */
  predicate IsSubsequence<T(==)>(a: seq<T>, b: seq<T>)
  {
    if a == [] then true
    else if b == [] then false
    else if a[0] == b[0] then IsSubsequence(a[1..], b[1..])
    else IsSubsequence(a, b[1..])
  }

  /** The identifiers of a list of App documents, in the same order. */
  function Ids(apps: seq<App>): (r: seq<AppId>)
    ensures |r| == |apps|
    ensures forall i :: 0 <= i < |apps| ==> r[i] == apps[i].id
  {
    if apps == [] then [] else [apps[0].id] + Ids(apps[1..])
  }

  /** The live store that `deleteForm` updates in place. */
  class Database {
    var forms: set<FormId>
    var apps: map<AppId, seq<FormId>>
    var order: seq<AppId>
    var submissions: map<SubmissionId, FormId>

    function Snapshot(): State
      reads this
    {
      State(forms, apps, order, submissions)
    }

    ghost predicate Valid()
      reads this
    {
      WellFormed(Snapshot())
    }

    constructor (s: State)
      requires WellFormed(s)
      ensures Valid() && Snapshot() == s
    {
      forms, apps, order, submissions := s.forms, s.apps, s.order, s.submissions;
    }
  }
}
