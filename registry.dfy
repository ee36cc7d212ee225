/** The registry's data and the documented contract of its Watcher: the
    record a service registers, and what successive Next calls return. The
    Registrar and Discovery interfaces have no behaviour of their own; their
    outcomes are inputs of the operations that call them. */
module Registry {
  import opened Common

  /** What a process advertises to the registry. */
  datatype ServiceInstance = ServiceInstance(
    id: string,
    name: string,
    version: string,
    metadata: map<string, string>,
    endpoints: seq<string>)

  /** A watcher's cursor: whether it has returned a list yet, the list it
      returned last, and whether Stop was called. */
  datatype WatcherState = WatcherState(started: bool, last: seq<ServiceInstance>, stopped: bool)

  const NEW_WATCHER := WatcherState(false, [], false)

  /** One Next call against the registry's current instance list: the first
      call returns a non-empty list, a later call returns a list that differs
      from the last one returned, and otherwise the call blocks until its
      context ends, which is reported as context.DeadlineExceeded. A stopped
      watcher reports context.Canceled. */
  function Next(w: WatcherState, current: seq<ServiceInstance>): (r: (Result<seq<ServiceInstance>>, WatcherState))
    ensures r.0.Ok? ==> r.0.value == current && r.1 == WatcherState(true, current, false)
    ensures r.0.Ok? <==> !w.stopped && (if w.started then current != w.last else current != [])
    ensures r.0.Err? ==> r.1 == w
    ensures w.stopped ==> r.0 == Err(ContextCanceled)
  {
    if w.stopped then (Err(ContextCanceled), w)
    else if !w.started && current != [] then (Ok(current), WatcherState(true, current, false))
    else if w.started && current != w.last then (Ok(current), WatcherState(true, current, false))
    else (Err(DeadlineExceeded), w)
  }

  /** Stop abandons the watch for good. */
  function Stop(w: WatcherState): (r: WatcherState)
    ensures r.stopped && r.started == w.started && r.last == w.last
  {
    w.(stopped := true)
  }

  /** The lists a watcher hands out over a series of Next calls, one current
      registry list per call. */
  function Returned(w: WatcherState, currents: seq<seq<ServiceInstance>>): seq<seq<ServiceInstance>>
    decreases |currents|
  {
    if currents == [] then []
    else
      var (r, w') := Next(w, currents[0]);
      (if r.Ok? then [r.value] else []) + Returned(w', currents[1..])
  }

  /** Over any series of calls on a fresh watcher, the first list handed out
      is non-empty and each later one differs from the one before it. */
  lemma {:induction false} ReturnedListsChange(w: WatcherState, currents: seq<seq<ServiceInstance>>)
    requires !w.stopped
    ensures var out := Returned(w, currents);
      && (!w.started && |out| > 0 ==> out[0] != [])
      && (w.started && |out| > 0 ==> out[0] != w.last)
      && forall i :: 0 < i < |out| ==> out[i] != out[i - 1]
    decreases |currents|
  {
    if currents != [] {
      var (r, w') := Next(w, currents[0]);
      ReturnedListsChange(w', currents[1..]);
      var rest := Returned(w', currents[1..]);
      if r.Ok? {
        assert Returned(w, currents) == [r.value] + rest;
        assert w'.last == r.value;
      } else {
        assert Returned(w, currents) == rest;
      }
    }
  }

  /** Once stopped, a watcher hands out nothing more. */
  lemma {:induction false} StoppedReturnsNothing(w: WatcherState, currents: seq<seq<ServiceInstance>>)
    requires w.stopped
    ensures Returned(w, currents) == []
    decreases |currents|
  {
    if currents != [] {
      StoppedReturnsNothing(w, currents[1..]);
    }
  }
}
