/** The "selector" load balancer: its picker builder turns the ready
    sub-connections into selector nodes, and its picker forwards each pick to
    the selector. The selector's own policy is not part of this model: which
    node it selects, or the error it reports, is an input of Pick. */
module Balancer {
  import opened Common
  import opened Registry
  import opened Grpc
  import opened Discovery

  const BALANCER_NAME := "selector"
  const NODE_SCHEME := "grpc"

  /** A sub-connection, by identity. */
  type SubConn = nat

  /** What the balancer knows of a ready sub-connection. */
  datatype SubConnInfo = SubConnInfo(address: Address)

  /** The instance attached to an address, when the attribute is there and
      holds an instance; the type assertion yields nil otherwise. */
  function InstanceOf(a: Address): (r: Option<ServiceInstance>)
    ensures r.Some? <==> RAW_SERVICE_INSTANCE in a.attributes && a.attributes[RAW_SERVICE_INSTANCE].Instance?
  {
    if RAW_SERVICE_INSTANCE in a.attributes && a.attributes[RAW_SERVICE_INSTANCE].Instance? then
      Some(a.attributes[RAW_SERVICE_INSTANCE].instance)
    else None
  }

  /** The attribute the discovery resolver attaches gives the instance back,
      whatever the instance's own metadata holds. */
  lemma InstanceOfDiscoveredAddress(instance: ServiceInstance, endpoint: string)
    ensures InstanceOf(AddressFor(instance, endpoint)) == Some(instance)
    ensures AddressFor(instance, endpoint).addr == endpoint
  {}

  /** An address without attributes, as the direct resolver publishes, has
      no instance. */
  lemma InstanceOfBareAddress(addr: string, serverName: string)
    ensures InstanceOf(Address(addr, serverName, map[])) == None
  {}

  /** grpcNode: a selector node for scheme "grpc" and the sub-connection it
      stands for. */
  datatype Node = Node(scheme: string, address: string, instance: Option<ServiceInstance>, subConn: SubConn)

  function NodeFor(c: SubConn, info: SubConnInfo): Node
  {
    Node(NODE_SCHEME, info.address.addr, InstanceOf(info.address), c)
  }

  function SubConns(nodes: seq<Node>): set<SubConn>
  {
    set i | 0 <= i < |nodes| :: nodes[i].subConn
  }

  lemma SubConnsAppend(nodes: seq<Node>, n: Node)
    ensures SubConns(nodes + [n]) == SubConns(nodes) + {n.subConn}
  {
    var all := nodes + [n];
    assert all[|nodes|] == n;
    forall c | c in SubConns(all) ensures c in SubConns(nodes) + {n.subConn} {
      var i :| 0 <= i < |all| && all[i].subConn == c;
      if i < |nodes| { assert nodes[i] == all[i]; }
    }
    forall c | c in SubConns(nodes) ensures c in SubConns(all) {
      var i :| 0 <= i < |nodes| && nodes[i].subConn == c;
      assert all[i] == nodes[i];
    }
  }

  /** The nodes made so far for the sub-connections of `ready` outside `todo`. */
  predicate Collected(ready: map<SubConn, SubConnInfo>, nodes: seq<Node>, todo: set<SubConn>)
  {
    && todo <= ready.Keys
    && |nodes| + |todo| == |ready|
    && (forall i :: 0 <= i < |nodes| ==> nodes[i].subConn in ready && nodes[i] == NodeFor(nodes[i].subConn, ready[nodes[i].subConn]))
    && SubConns(nodes) == ready.Keys - todo
    && (forall i, j :: 0 <= i < j < |nodes| ==> nodes[i].subConn != nodes[j].subConn)
  }

  lemma CollectStep(ready: map<SubConn, SubConnInfo>, nodes: seq<Node>, todo: set<SubConn>, c: SubConn)
    requires Collected(ready, nodes, todo) && c in todo
    ensures Collected(ready, nodes + [NodeFor(c, ready[c])], todo - {c})
  {
    var n := NodeFor(c, ready[c]);
    assert forall i :: 0 <= i < |nodes| ==> nodes[i].subConn in SubConns(nodes);
    SubConnsAppend(nodes, n);
    assert |todo - {c}| == |todo| - 1;
    var all := nodes + [n];
    forall i, j | 0 <= i < j < |all| ensures all[i].subConn != all[j].subConn {
      assert all[i] == nodes[i];
    }
  }

  /** The loop of Build over the ready sub-connections, in map order: one
      node per sub-connection. */
  method CollectNodes(ready: map<SubConn, SubConnInfo>) returns (nodes: seq<Node>)
    ensures |nodes| == |ready|
    ensures forall i :: 0 <= i < |nodes| ==> nodes[i].subConn in ready && nodes[i] == NodeFor(nodes[i].subConn, ready[nodes[i].subConn])
    ensures SubConns(nodes) == ready.Keys
    ensures forall i, j :: 0 <= i < j < |nodes| ==> nodes[i].subConn != nodes[j].subConn
  {
    nodes := [];
    var todo := ready.Keys;
    while todo != {}
      invariant Collected(ready, nodes, todo)
      decreases todo
    {
      var c :| c in todo;
      CollectStep(ready, nodes, todo, c);
      nodes := nodes + [NodeFor(c, ready[c])];
      todo := todo - {c};
    }
  }

  /** The selector's view of a finished call. */
  datatype DoneInfo = DoneInfo(err: Option<Error>, bytesSent: bool, bytesReceived: bool, replyMD: map<string, seq<string>>)

  /** The selector a picker forwards to: the nodes it was last given, every
      node list Apply has handed it, and the completion reports it has
      received, each with its call's context. */
  class Selector {
    var nodes: seq<Node>
    ghost var applied: seq<seq<Node>>
    var reports: seq<(nat, DoneInfo)>

    constructor ()
      ensures nodes == [] && applied == [] && reports == []
    {
      nodes := [];
      applied := [];
      reports := [];
    }

    method Apply(nodes: seq<Node>)
      modifies this
      ensures this.nodes == nodes && applied == old(applied) + [nodes] && reports == old(reports)
    {
      this.nodes := nodes;
      applied := applied + [nodes];
    }

    /** The done callback Select returns. */
    method Done(ctx: nat, info: DoneInfo)
      modifies this
      ensures reports == old(reports) + [(ctx, info)] && nodes == old(nodes) && applied == old(applied)
    {
      reports := reports + [(ctx, info)];
    }
  }

  /** What a successful pick hands to gRPC: the sub-connection, and the call
      context that its Done callback reports with. */
  datatype PickResult = PickResult(subConn: SubConn, ctx: nat)

  /** balancerPicker. */
  class SelectorPicker {
    const selector: Selector

    constructor (selector: Selector)
      ensures this.selector == selector
    {
      this.selector := selector;
    }

    /** Pick: `selected` is what the selector's Select returned for the call
        context `ctx`. That it is one of the nodes the selector was given is
        the Selector's own contract; the grpcNode type assertion checks only
        the node's type and does not enforce it. A selector error is returned
        unchanged; otherwise the chosen node's sub-connection is used. */
    method Pick(ctx: nat, selected: Result<Node>) returns (r: Result<PickResult>)
      requires selected.Ok? ==> selected.value in selector.nodes
      ensures selected.Err? ==> r == Err(selected.error)
      ensures selected.Ok? ==> r == Ok(PickResult(selected.value.subConn, ctx))
      ensures selected.Ok? ==> r.value.subConn in SubConns(selector.nodes)
    {
      if selected.Ok? {
        var i :| 0 <= i < |selector.nodes| && selector.nodes[i] == selected.value;
      }
      match selected {
        case Err(e) => return Err(e);
        case Ok(n) => return Ok(PickResult(n.subConn, ctx));
      }
    }

    /** The Done function of a pick result: report the call's outcome to the
        selector, with the trailer as reply metadata. */
    method PickDone(p: PickResult, err: Option<Error>, bytesSent: bool, bytesReceived: bool, trailer: map<string, seq<string>>)
      modifies selector
      ensures selector.reports == old(selector.reports) + [(p.ctx, DoneInfo(err, bytesSent, bytesReceived, trailer))]
      ensures selector.nodes == old(selector.nodes) && selector.applied == old(selector.applied)
    {
      selector.Done(p.ctx, DoneInfo(err, bytesSent, bytesReceived, trailer));
    }
  }

  /** A picker as Build returns it. */
  datatype Picker = ErrPicker(err: Error) | Selecting(picker: SelectorPicker)

  /** The picker of base.NewErrPicker: every pick fails with its error. */
  function ErrPick(err: Error): (r: Result<PickResult>)
    ensures r.Err? && r.error == err
  {
    Err(err)
  }

  /** A pick on a picker Build returned: the error picker fails every pick
      with its error, the selector picker forwards to its selector. */
  method PickOn(p: Picker, ctx: nat, selected: Result<Node>) returns (r: Result<PickResult>)
    requires p.Selecting? && selected.Ok? ==> selected.value in p.picker.selector.nodes
    ensures p.ErrPicker? ==> r == Err(p.err)
    ensures p.Selecting? && selected.Err? ==> r == Err(selected.error)
    ensures p.Selecting? && selected.Ok? ==> r == Ok(PickResult(selected.value.subConn, ctx))
  {
    match p {
      case ErrPicker(e) => r := ErrPick(e);
      case Selecting(picker) => r := picker.Pick(ctx, selected);
    }
  }

  /** balancerBuilder.Build. */
  method BuildPicker(ready: map<SubConn, SubConnInfo>) returns (p: Picker)
    ensures |ready| == 0 <==> p == ErrPicker(NoSubConnAvailable)
    ensures |ready| > 0 <==> p.Selecting?
    ensures p.Selecting? ==> fresh(p.picker) && fresh(p.picker.selector) && p.picker.selector.reports == []
    ensures p.Selecting? ==> p.picker.selector.applied == [p.picker.selector.nodes]
    ensures p.Selecting? ==> |p.picker.selector.nodes| == |ready|
    ensures p.Selecting? ==> forall i :: 0 <= i < |p.picker.selector.nodes| ==>
              var n := p.picker.selector.nodes[i]; n.subConn in ready && n == NodeFor(n.subConn, ready[n.subConn])
    ensures p.Selecting? ==> SubConns(p.picker.selector.nodes) == ready.Keys
  {
    if |ready| == 0 {
      return ErrPicker(NoSubConnAvailable);
    }
    var nodes := CollectNodes(ready);
    var selector := new Selector();
    var picker := new SelectorPicker(selector);
    picker.selector.Apply(nodes);
    return Selecting(picker);
  }

  /** Build followed by one pick, with the selector choosing among the
      nodes Build gave it (`selected`, when it names a node, is the node of
      one ready sub-connection). Without a ready sub-connection every pick
      fails with ErrNoSubConnAvailable; otherwise a selector error is passed
      on, and a chosen node's pick uses that ready sub-connection. */
  method BuildAndPick(ready: map<SubConn, SubConnInfo>, ctx: nat, selected: Result<Node>) returns (r: Result<PickResult>)
    requires |ready| > 0 && selected.Ok? ==>
               selected.value.subConn in ready && selected.value == NodeFor(selected.value.subConn, ready[selected.value.subConn])
    ensures |ready| == 0 ==> r == Err(NoSubConnAvailable)
    ensures |ready| > 0 && selected.Err? ==> r == Err(selected.error)
    ensures |ready| > 0 && selected.Ok? ==>
              r.Ok? && r.value.ctx == ctx && r.value.subConn in ready &&
              ready[r.value.subConn].address.addr == selected.value.address
  {
    var p := BuildPicker(ready);
    if p.Selecting? && selected.Ok? {
      var nodes := p.picker.selector.nodes;
      var c := selected.value.subConn;
      assert c in SubConns(nodes);
      var i :| 0 <= i < |nodes| && nodes[i].subConn == c;
      assert nodes[i] == selected.value;
    }
    r := PickOn(p, ctx, selected);
  }

  // ---------------------------------------------------------------------------
  // Trailer

  /** Trailer.Get: the first value stored under the lower-cased key, or "". */
  function TrailerGet(t: map<string, seq<string>>, k: string): (v: string)
    ensures v != "" ==> Lower(k) in t && |t[Lower(k)]| > 0 && v == t[Lower(k)][0]
    ensures (Lower(k) !in t || t[Lower(k)] == []) ==> v == ""
  {
    var key := Lower(k);
    if key in t && |t[key]| > 0 then t[key][0] else ""
  }

  /** Keys that differ only in ASCII case find the same value. */
  lemma TrailerGetCaseInsensitive(t: map<string, seq<string>>, k1: string, k2: string)
    requires Lower(k1) == Lower(k2)
    ensures TrailerGet(t, k1) == TrailerGet(t, k2)
  {}

  /** A value stored under a lower-case key is found by any casing of it. */
  lemma TrailerGetStored(t: map<string, seq<string>>, k: string, v: string, rest: seq<string>)
    ensures TrailerGet(t[Lower(k) := [v] + rest], k) == v
    ensures TrailerGet(t[Lower(k) := [v] + rest], Lower(k)) == v
  {
    LowerIdempotent(k);
  }
}
