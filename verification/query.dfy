/**
  The router's query object as the logs page reads and writes it, and the
  update rule of the page's select filters (SelectQueryParamFilter).
 */
module RouterQuery {
  import opened Optional

  /** The query parameters of the current route, reduced to their string values. */
  type Query = map<string, string>

  /** `router.query[name] as string`: undefined when the parameter is missing. */
  function Get(q: Query, name: string): Option<string>
  {
    if name in q then Some(q[name]) else None
  }

  /** `(router.query[name] as string) || ''`: a missing and an empty parameter both read as ''. */
  function Text(q: Query, name: string): string
  {
    if name in q then q[name] else ""
  }

  /** JavaScript truthiness of a possibly undefined string: present and non-empty. */
  predicate Truthy(v: Option<string>)
  {
    v.Some? && v.value != ""
  }

  /**
    The select's onChange handler: the chosen value is written to the query
    only when it is a non-empty string; a cleared selection (null) or an empty
    string leaves the query as it was. Nothing but the filter's own parameter
    ever changes.
   */
  function OnSelect(q: Query, name: string, value: Option<string>): (r: Query)
    ensures Truthy(value) ==> name in r && r[name] == value.value
    ensures !Truthy(value) ==> r == q
    ensures r.Keys == q.Keys + (if Truthy(value) then {name} else {})
    ensures forall k :: k in q && k != name ==> r[k] == q[k]
  {
    if Truthy(value) then q[name := value.value] else q
  }

  /**
    The clear button's onClick handler: the filter's parameter is set to ''
    (it stays in the query, empty), every other parameter is kept.
   */
  function OnClear(q: Query, name: string): (r: Query)
    ensures Get(r, name) == Some("")
    ensures r.Keys == q.Keys + {name}
    ensures forall k :: k in q && k != name ==> r[k] == q[k]
  {
    q[name := ""]
  }

  /** The clear button (and no dropdown indicator) is shown exactly when the filter holds a truthy value. */
  predicate ShowsClearButton(q: Query, name: string)
    ensures ShowsClearButton(q, name) <==> Text(q, name) != ""
  {
    Truthy(Get(q, name))
  }

  /**
    Selecting then clearing is the same as clearing; after a clear the filter
    reads as '' and shows no clear button; after a non-empty selection it shows one.
   */
  lemma SelectThenClear(q: Query, name: string, value: Option<string>)
    ensures OnClear(OnSelect(q, name, value), name) == OnClear(q, name)
    ensures Text(OnClear(q, name), name) == "" && !ShowsClearButton(OnClear(q, name), name)
    ensures Truthy(value) ==> ShowsClearButton(OnSelect(q, name, value), name)
    ensures !Truthy(value) ==> (ShowsClearButton(OnSelect(q, name, value), name) <==> ShowsClearButton(q, name))
  {
  }

  /** Choosing the same value twice has the effect of choosing it once. */
  lemma OnSelectIdempotent(q: Query, name: string, value: Option<string>)
    ensures OnSelect(OnSelect(q, name, value), name, value) == OnSelect(q, name, value)
  {
  }
}
