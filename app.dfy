/** The application orchestrator, as a sequential state machine. New fixes the
    options; Run records the instance it registers, launches the servers,
    registers, and then waits for the first of a stop signal, a failing
    server task, or a Stop called from elsewhere; Stop deregisters and
    cancels the servers' context. The
    registrar's answers, which event comes first, and what the remaining
    server tasks return are inputs; the tasks themselves, the lock and the
    signal channel are not modelled. */
module App {
  import opened Common
  import opened NetUrl
  import opened Registry
  import opened Grpc
  import opened AppOptions
  import opened Discovery

  /** The scheme of the endpoint advertised for the RPC server. */
  const RPC_SCHEME := "grpc"

  /** What the application does, in order, as seen from outside. */
  datatype Event =
    | StoredInstance(instance: ServiceInstance)  // a.instance is set
    | Launched(server: Server)                   // its stop and start tasks are started
    | Registered(instance: ServiceInstance)      // Registrar.Register is called
    | Deregistered(instance: ServiceInstance)    // Registrar.Deregister is called

  /** What ends the wait of Run: a stop signal, a server task that returns
      an error, or a Stop called from elsewhere that deregistered without
      error and cancelled the servers' context. After such a Stop the
      signal task returns ctx.Err(); `at` is how many of the remaining
      tasks' results come before it. */
  datatype Trigger = Signal | TaskFailed(err: Error) | Stopped(at: nat)

  /** The endpoints an application advertises: its configured endpoints,
      formatted, in order, then the RPC server's address, escaped as a
      host, under the "grpc" scheme when there is an RPC server. */
  function InstanceEndpoints(o: Options): (r: seq<string>)
    ensures |r| == |o.endpoints| + (if o.rpcServer.Some? then 1 else 0)
    ensures forall i :: 0 <= i < |o.endpoints| ==> r[i] == ToString(o.endpoints[i])
    ensures o.rpcServer.Some? ==> r[|r| - 1] == ToString(Url(RPC_SCHEME, o.rpcServer.value.address, "", ""))
    ensures o.rpcServer.Some? && o.rpcServer.value.address != "" ==>
              r[|r| - 1] == RPC_SCHEME + "://" + EscapeHost(o.rpcServer.value.address)
  {
    var configured := seq(|o.endpoints|, i requires 0 <= i < |o.endpoints| => ToString(o.endpoints[i]));
    match o.rpcServer
    case None => configured
    case Some(s) =>
      ToStringNoPath(RPC_SCHEME, s.address, "");
      configured + [ToString(Url(RPC_SCHEME, s.address, "", ""))]
  }

  /** The instance an application registers. */
  function InstanceFor(o: Options): ServiceInstance
  {
    ServiceInstance(o.id, o.name, "", map[], InstanceEndpoints(o))
  }

  /** The servers Run starts: the REST server, then the RPC server, each only
      when it is there. */
  function Servers(o: Options): seq<Server>
  {
    (if o.restServer.Some? then [o.restServer.value] else []) +
    (if o.rpcServer.Some? then [o.rpcServer.value] else [])
  }

  function Launches(servers: seq<Server>): seq<Event>
  {
    seq(|servers|, i requires 0 <= i < |servers| => Launched(servers[i]))
  }

  class App {
    const opts: Options
    /** The instance Run stored, for Stop to deregister. */
    var instance: Option<ServiceInstance>
    /** The cancel function of the servers' context, once Run has made it. */
    var cancel: CancelContext?
    var trace: seq<Event>

    /** New: the defaults, with the identifier uuid.NewUUID produced if it
        produced one, then each option in order. */
    constructor (options: seq<AppOption>, generatedId: Option<string>)
      ensures opts == ApplyAll(Defaults(generatedId), options)
      ensures instance == None && cancel == null && trace == []
    {
      var o := Defaults(generatedId);
      for i := 0 to |options|
        invariant o == ApplyAll(Defaults(generatedId), options[..i])
      {
        assert options[..i + 1][..i] == options[..i];
        match options[i] {
          case WithRegistrar(g) => o := o.(registrar := g);
          case WithEndpoints(es) => o := o.(endpoints := es);
          case WithRPCServer(s) => o := o.(rpcServer := s);
          case WithId(id) => o := o.(id := id);
          case WithName(n) => o := o.(name := n);
          case WithSigs(ss) => o := o.(sigs := ss);
        }
      }
      assert options[..|options|] == options;
      opts := o;
      instance := None;
      cancel := null;
      trace := [];
    }

    /** buildInstance; it never fails. */
    method BuildInstance() returns (r: ServiceInstance)
      ensures r == InstanceFor(opts)
    {
      var endpoints: seq<string> := [];
      for i := 0 to |opts.endpoints|
        invariant |endpoints| == i
        invariant forall k :: 0 <= k < i ==> endpoints[k] == ToString(opts.endpoints[k])
      {
        endpoints := endpoints + [ToString(opts.endpoints[i])];
      }
      if opts.rpcServer.Some? {
        endpoints := endpoints + [ToString(Url(RPC_SCHEME, opts.rpcServer.value.address, "", ""))];
      }
      r := ServiceInstance(opts.id, opts.name, "", map[], endpoints);
    }

    /** Stop: deregister the stored instance when there is a registrar and an
        instance, giving up on the first error; then cancel the servers'
        context if Run has made one. `deregisterErr` is what Deregister
        returns. */
    method Stop(deregisterErr: Option<Error>) returns (err: Option<Error>)
      modifies this, cancel
      ensures instance == old(instance) && cancel == old(cancel)
      ensures var deregisters := opts.registrar.Some? && instance.Some?;
        && trace == old(trace) + (if deregisters then [Deregistered(instance.value)] else [])
        && (deregisters && deregisterErr.Some? ==>
              err == deregisterErr && (cancel != null ==> cancel.cancelled == old(cancel.cancelled)))
        && (!(deregisters && deregisterErr.Some?) ==>
              err == None && (cancel != null ==> cancel.cancelled))
    {
      var stored := instance;
      if opts.registrar.Some? && stored.Some? {
        trace := trace + [Deregistered(stored.value)];
        if deregisterErr.Some? {
          return deregisterErr;
        }
      }
      if cancel != null {
        cancel.Cancel();
      }
      return None;
    }

    /** Run. `registerErr` and `deregisterErr` are what the registrar's
        Register and Deregister return; `trigger` is what ends the wait;
        `later` are the results of the remaining tasks, in the order they
        return. The error reported is the first error any task returned. */
    method Run(trigger: Trigger, registerErr: Option<Error>, deregisterErr: Option<Error>, later: seq<Option<Error>>)
      returns (err: Option<Error>)
      requires trigger.TaskFailed? ==> Servers(opts) != []
      requires trigger.Stopped? ==> trigger.at <= |later|
      modifies this
      ensures var inst := InstanceFor(opts);
        var registers := opts.registrar.Some?;
        var started := old(trace) + [StoredInstance(inst)] + Launches(Servers(opts)) +
                       (if registers then [Registered(inst)] else []);
        && instance == Some(inst)
        && cancel != null && fresh(cancel)
        && (registers && registerErr.Some? ==> err == registerErr && trace == started && !cancel.cancelled)
        && (!(registers && registerErr.Some?) && trigger.TaskFailed? ==>
              err == Some(trigger.err) && trace == started && !cancel.cancelled)
        && (!(registers && registerErr.Some?) && trigger.Signal? ==>
              trace == started + (if registers then [Deregistered(inst)] else []) &&
              (registers && deregisterErr.Some? ==> err == deregisterErr && !cancel.cancelled) &&
              (!(registers && deregisterErr.Some?) ==> err == FirstError(later) && cancel.cancelled))
        && (!(registers && registerErr.Some?) && trigger.Stopped? ==>
              trace == started + (if registers then [Deregistered(inst)] else []) &&
              cancel.cancelled && err.Some? &&
              err == FirstError(later[..trigger.at] + [Some(ContextCanceled)] + later[trigger.at..]))
    {
      var inst := BuildInstance();
      instance := Some(inst);
      trace := trace + [StoredInstance(inst)];

      var servers := Servers(opts);
      var ctx := new CancelContext();
      cancel := ctx;
      ghost var base := trace;
      for i := 0 to |servers|
        invariant trace == base + Launches(servers[..i])
        invariant instance == Some(inst) && cancel == ctx && !ctx.cancelled
      {
        assert Launches(servers[..i + 1]) == Launches(servers[..i]) + [Launched(servers[i])];
        trace := trace + [Launched(servers[i])];
      }
      assert servers[..|servers|] == servers;

      if opts.registrar.Some? {
        trace := trace + [Registered(inst)];
        if registerErr.Some? {
          return registerErr;
        }
      }

      match trigger {
        case Signal =>
          var first := Stop(deregisterErr);
          err := FirstError([first] + later);
        case TaskFailed(e) =>
          err := FirstError([Some(e)] + later);
        case Stopped(at) =>
          var _ := Stop(None);
          err := FirstError(later[..at] + [Some(ContextCanceled)] + later[at..]);
          CanceledUnlessEarlier(later, at, ContextCanceled);
      }
    }
  }

  /** The first error of results with `e` returned after the first `at`
      of them: an error among those `at` if there is one, otherwise `e`. */
  lemma {:induction false} CanceledUnlessEarlier(results: seq<Option<Error>>, at: nat, e: Error)
    requires at <= |results|
    ensures FirstError(results[..at] + [Some(e)] + results[at..]) ==
              if FirstError(results[..at]).Some? then FirstError(results[..at]) else Some(e)
  {
    if at == 0 {
      assert results[..0] + [Some(e)] + results[0..] == [Some(e)] + results;
    } else {
      assert (results[..at] + [Some(e)] + results[at..])[1..] ==
             results[1..][..at - 1] + [Some(e)] + results[1..][at - 1..];
      assert results[..at][1..] == results[1..][..at - 1];
      CanceledUnlessEarlier(results[1..], at - 1, e);
    }
  }

  lemma RpcSchemeValid()
    ensures ValidScheme(RPC_SCHEME) && Lower(RPC_SCHEME) == RPC_SCHEME
  {}

  /** An application with an RPC server and no configured endpoints
      registers an instance that the discovery resolver finds at the RPC
      server's address on an insecure channel, and not at all on a secure
      one, since its endpoint carries no isSecure flag. */
  lemma RegisteredEndpointResolves(o: Options)
    requires o.endpoints == [] && o.rpcServer.Some?
    requires PlainHost(o.rpcServer.value.address) && o.rpcServer.value.address != ""
    ensures EndpointOf(InstanceFor(o), true) == Some(o.rpcServer.value.address)
    ensures EndpointOf(InstanceFor(o), false) == None
  {
    var u := Url(RPC_SCHEME, o.rpcServer.value.address, "", "");
    assert InstanceFor(o).endpoints == [ToString(u)];
    RpcSchemeValid();
    assert !IsSecure(u);
    FoundAgain(u, false);
    NotFoundAgain(u, true);
  }
}
