/**
  The fetch step every dashboard table shares: the cluster proxy's answer is turned into either a
  thrown error carrying the body's `message` or the body's `items`; plus `Promise.all` and the
  value `useAsync` exposes.
 */
module Fetch {
  import opened Wrappers

  /** The two fields of a decoded response body that the tables read: a list's `items` or a Status's `message`. */
  datatype Body<T> = Body(message: Option<string>, items: Option<seq<T>>)

  /** What the cluster proxy hands back: the HTTP `ok` flag and the decoded JSON body. */
  datatype Response<T> = Response(ok: bool, body: Body<T>)

  /** The cluster proxy, `(clusterName, path) -> response`, supplied from outside the model. */
  type Proxy<T> = (string, string) -> Response<T>

  /** How a `fetch…Data` helper settles: it throws an `Error`, or returns `data.items` (possibly undefined). */
  datatype Fetched<T> = Threw(message: string) | Returned(items: Option<seq<T>>)

  /**
    The decision in every `fetch…Data` helper. A response that is not ok throws an `Error` whose
    message is the body's `message` (an `Error` built from `undefined` has message ""); an ok
    response yields the body's `items` untouched.
   */
  function Decide<T>(response: Response<T>): (r: Fetched<T>)
    ensures r.Threw? <==> !response.ok
    ensures r.Threw? && response.body.message.Some? ==> r.message == response.body.message.value
    ensures r.Threw? && response.body.message.None? ==> r.message == ""
    ensures r.Returned? ==> r.items == response.body.items
  {
    if !response.ok then Threw(response.body.message.ValueOr("")) else Returned(response.body.items)
  }

  /** One fetch: ask the proxy for `path` on `cluster` and decide on its answer. */
  function FetchItems<T>(proxy: Proxy<T>, cluster: string, path: string): (r: Fetched<T>)
    ensures r.Returned? <==> proxy(cluster, path).ok
    ensures r.Returned? ==> r.items == proxy(cluster, path).body.items
    ensures r.Threw? ==> r.message == proxy(cluster, path).body.message.ValueOr("")
  {
    Decide(proxy(cluster, path))
  }

  /**
    `Promise.all` over already-settled fetches: every value, index-aligned, when all returned;
    otherwise a rejection with the message of a fetch that threw. JavaScript rejects with whichever
    failure settles first in time; this model picks the lowest index, and the contract promises only
    that the message belongs to some failed fetch.
   */
  function PromiseAll<T>(fetched: seq<Fetched<T>>): (r: Result<seq<Option<seq<T>>>, string>)
    ensures r.Ok? <==> forall i :: 0 <= i < |fetched| ==> fetched[i].Returned?
    ensures r.Ok? ==> |r.value| == |fetched|
    ensures r.Ok? ==> forall i :: 0 <= i < |fetched| ==> r.value[i] == fetched[i].items
    ensures r.Err? ==> exists i :: 0 <= i < |fetched| && fetched[i] == Threw(r.error)
  {
    if |fetched| == 0 then Ok([])
    else
      match fetched[0]
      case Threw(message) => Err(message)
      case Returned(items) =>
        match PromiseAll(fetched[1..])
        case Err(message) => Err(message)
        case Ok(rest) => Ok([items] + rest)
  }

  /** The state `useAsync` tracks for one asynchronous fetch. */
  datatype AsyncState<T> = Loading | Settled(outcome: Fetched<T>)

  /**
    `useAsync(...).value`: defined only once the fetch returned items; undefined while loading,
    after a thrown error, and when the body had no `items`.
   */
  function AsyncValue<T>(state: AsyncState<T>): (v: Option<seq<T>>)
    ensures v.Some? <==> state.Settled? && state.outcome.Returned? && state.outcome.items.Some?
    ensures v.Some? ==> v.value == state.outcome.items.value
  {
    match state
    case Loading => None
    case Settled(Threw(_)) => None
    case Settled(Returned(items)) => items
  }

  /** Once a fetch has settled, the table sees the body's items exactly when the response was ok. */
  lemma SettledValue<T>(response: Response<T>)
    ensures AsyncValue(Settled(Decide(response))) == (if response.ok then response.body.items else None)
  {
  }
}
