/** The builder of the "discovery" resolver scheme: it starts a registry watch
    for the target's service name, waits for it at most its timeout, and hands
    the watcher to a new resolver. The registry and the timer are inputs: the
    watch result, and whether the timer fired first. */
module DiscoveryBuilder {
  import opened Common
  import opened NetUrl
  import opened Registry
  import opened Grpc
  import opened Discovery

  /** The scheme the builder is registered under. */
  const NAME := "discovery"

  /** Ten seconds, in nanoseconds (a time.Duration). */
  const DEFAULT_TIMEOUT := 10_000_000_000

  const OVERTIME := "discovery create watcher overtime"

  /** A functional option of NewBuilder. */
  datatype BuilderOption = WithTimeout(timeout: int) | WithInsecure(insecure: bool)

  datatype Settings = Settings(timeout: int, insecure: bool)

  /** The settings after applying options in order. */
  function Configure(s: Settings, opts: seq<BuilderOption>): Settings
  {
    if opts == [] then s
    else
      var last := opts[|opts| - 1];
      var before := Configure(s, opts[..|opts| - 1]);
      match last
      case WithTimeout(t) => before.(timeout := t)
      case WithInsecure(b) => before.(insecure := b)
  }

  /** opts[k] is the last option that sets the timeout (or, when `timeout`
      is false, the insecure flag). */
  predicate LastOf(opts: seq<BuilderOption>, k: int, timeout: bool)
  {
    0 <= k < |opts| && opts[k].WithTimeout? == timeout &&
    forall m :: k < m < |opts| ==> opts[m].WithTimeout? != timeout
  }

  /** A setting is the one its last option gives, or the default when no
      option sets it. */
  lemma ConfigureLastWins(s: Settings, opts: seq<BuilderOption>)
    ensures var r := Configure(s, opts);
      && ((forall k :: 0 <= k < |opts| ==> !opts[k].WithTimeout?) ==> r.timeout == s.timeout)
      && (forall k :: LastOf(opts, k, true) ==> r.timeout == opts[k].timeout)
      && ((forall k :: 0 <= k < |opts| ==> !opts[k].WithInsecure?) ==> r.insecure == s.insecure)
      && (forall k :: LastOf(opts, k, false) ==> r.insecure == opts[k].insecure)
  {
    ConfigureTimeout(s, opts);
    ConfigureInsecure(s, opts);
  }

  lemma {:induction false} ConfigureTimeout(s: Settings, opts: seq<BuilderOption>)
    ensures (forall k :: 0 <= k < |opts| ==> !opts[k].WithTimeout?) ==> Configure(s, opts).timeout == s.timeout
    ensures forall k :: LastOf(opts, k, true) ==> Configure(s, opts).timeout == opts[k].timeout
  {
    if opts != [] {
      var init := opts[..|opts| - 1];
      ConfigureTimeout(s, init);
      if opts[|opts| - 1].WithTimeout? {
        assert forall k :: LastOf(opts, k, true) ==> k == |opts| - 1;
      } else {
        assert Configure(s, opts).timeout == Configure(s, init).timeout;
        InitOf(opts, true);
      }
    }
  }

  lemma {:induction false} ConfigureInsecure(s: Settings, opts: seq<BuilderOption>)
    ensures (forall k :: 0 <= k < |opts| ==> !opts[k].WithInsecure?) ==> Configure(s, opts).insecure == s.insecure
    ensures forall k :: LastOf(opts, k, false) ==> Configure(s, opts).insecure == opts[k].insecure
  {
    if opts != [] {
      var init := opts[..|opts| - 1];
      ConfigureInsecure(s, init);
      if opts[|opts| - 1].WithInsecure? {
        assert forall k :: LastOf(opts, k, false) ==> k == |opts| - 1;
      } else {
        assert Configure(s, opts).insecure == Configure(s, init).insecure;
        InitOf(opts, false);
      }
    }
  }

  /** When the last option sets the other setting, the options before it
      decide this one. */
  lemma InitOf(opts: seq<BuilderOption>, timeout: bool)
    requires opts != [] && opts[|opts| - 1].WithTimeout? != timeout
    ensures var init := opts[..|opts| - 1];
      && (forall k :: LastOf(opts, k, timeout) ==> LastOf(init, k, timeout) && init[k] == opts[k])
      && ((forall k :: 0 <= k < |opts| ==> opts[k].WithTimeout? != timeout) ==>
            forall k :: 0 <= k < |init| ==> init[k].WithTimeout? != timeout)
  {
    var init := opts[..|opts| - 1];
    assert forall k :: 0 <= k < |init| ==> init[k] == opts[k];
  }

  /** builder. The discoverer is not a field: what its Watch returns is an
      input of Build. */
  class Builder {
    var timeout: int
    var insecure: bool
    /** The service names Build has asked the discoverer to watch, and the
        context it handed over with the last request. */
    ghost var watched: seq<string>
    ghost var watchContext: CancelContext?

    /** NewBuilder. */
    constructor (opts: seq<BuilderOption>)
      ensures Settings(timeout, insecure) == Configure(Settings(DEFAULT_TIMEOUT, false), opts)
      ensures watched == [] && watchContext == null
    {
      timeout := DEFAULT_TIMEOUT;
      insecure := false;
      watched := [];
      watchContext := null;
      new;
      for i := 0 to |opts|
        invariant Settings(timeout, insecure) == Configure(Settings(DEFAULT_TIMEOUT, false), opts[..i])
        invariant watched == [] && watchContext == null
      {
        assert opts[..i + 1][..i] == opts[..i];
        match opts[i] {
          case WithTimeout(t) => timeout := t;
          case WithInsecure(b) => insecure := b;
        }
      }
      assert opts[..|opts|] == opts;
    }

    function Scheme(): string { NAME }

    /** Build as the code has it: the resolver's polled context is never set,
        so it stays nil. */
    method BuildAsWritten(target: Url, cc: ClientConn, watch: Result<WatcherState>, timedOut: bool)
      returns (r: Resolver?, err: Option<Error>)
      modifies this
      ensures timeout == old(timeout) && insecure == old(insecure)
      ensures watched == old(watched) + [TrimPrefix(target.path, "/")]
      ensures watchContext != null && fresh(watchContext)
      ensures timedOut ==> err == Some(Text(OVERTIME))
      ensures !timedOut && watch.Err? ==> err == Some(watch.error)
      ensures err.Some? ==> r == null && watchContext.cancelled
      ensures err.None? <==> !timedOut && watch.Ok?
      ensures err.None? ==> r != null && fresh(r) && r.watcher == watch.value && r.cc == cc &&
                            r.insecure == insecure && r.cancel == watchContext && !r.cancel.cancelled &&
                            r.ctx == null
    {
      var ctx := new CancelContext();
      watched := watched + [TrimPrefix(target.path, "/")];
      watchContext := ctx;
      var e: Option<Error> := if watch.Err? then Some(watch.error) else None;
      if timedOut {
        e := Some(Text(OVERTIME));
      }
      if e.Some? {
        ctx.Cancel();
        return null, e;
      }
      r := new Resolver(watch.value, cc, null, ctx, insecure);
      err := None;
    }

    /** Build with the resolver's polled context set to the context that
        its cancel function ends. */
    method Build(target: Url, cc: ClientConn, watch: Result<WatcherState>, timedOut: bool)
      returns (r: Resolver?, err: Option<Error>)
      modifies this
      ensures timeout == old(timeout) && insecure == old(insecure)
      ensures watched == old(watched) + [TrimPrefix(target.path, "/")]
      ensures watchContext != null && fresh(watchContext)
      ensures timedOut ==> err == Some(Text(OVERTIME))
      ensures !timedOut && watch.Err? ==> err == Some(watch.error)
      ensures err.Some? ==> r == null && watchContext.cancelled
      ensures err.None? <==> !timedOut && watch.Ok?
      ensures err.None? ==> r != null && fresh(r) && r.watcher == watch.value && r.cc == cc &&
                            r.insecure == insecure && r.cancel == watchContext && !r.cancel.cancelled &&
                            r.ctx == r.cancel
    {
      var ctx := new CancelContext();
      watched := watched + [TrimPrefix(target.path, "/")];
      watchContext := ctx;
      var e: Option<Error> := if watch.Err? then Some(watch.error) else None;
      if timedOut {
        e := Some(Text(OVERTIME));
      }
      if e.Some? {
        ctx.Cancel();
        return null, e;
      }
      r := new Resolver(watch.value, cc, ctx, ctx, insecure);
      err := None;
    }
  }

  /** The watch loop started on a resolver that Build returned as written
      panics on its first turn, whatever Next would have returned. */
  method WatchAfterBuildAsWritten(next: Result<seq<ServiceInstance>>) returns (step: Step)
    ensures step == Panicked
  {
    var cc := new ClientConn(None);
    var b := new Builder([]);
    var r, err := b.BuildAsWritten(Url(NAME, "", "/greeter", ""), cc, Ok(NEW_WATCHER), false);
    step := r.WatchStep(next);
  }

  /** With the context set, the watch loop takes its first turn normally,
      and once the resolver is closed it exits. */
  method WatchAfterBuild(next: Result<seq<ServiceInstance>>) returns (first: Step, afterClose: Step)
    ensures first != Panicked && first != Exited <==> next != Err(ContextCanceled)
    ensures afterClose == Exited
  {
    var cc := new ClientConn(None);
    var b := new Builder([]);
    var r, err := b.Build(Url(NAME, "", "/greeter", ""), cc, Ok(NEW_WATCHER), false);
    first := r.WatchStep(next);
    r.Close();
    afterClose := r.WatchStep(next);
  }
}
