/** The pieces of the gRPC resolver API and of Go's context package that the
    resolvers and the balancer exchange: an address with its typed
    attributes, the client connection that receives address lists, and a
    cancellable context. */
module Grpc {
  import opened Common
  import opened Registry

  /** An attribute value: a metadata string or a whole service instance. */
  datatype AttrValue = Str(s: string) | Instance(instance: ServiceInstance)

  /** The key under which the discovery resolver attaches the instance. */
  const RAW_SERVICE_INSTANCE := "rawServiceInstance"

  /** resolver.Address; a nil *attributes.Attributes is the empty map. */
  datatype Address = Address(addr: string, serverName: string, attributes: map<string, AttrValue>)

  /** The client connection a resolver publishes to. It records every state
      it is given; whether it accepts one is decided by the connection. */
  class ClientConn {
    var states: seq<seq<Address>>
    const rejection: Option<Error>

    constructor (rejection: Option<Error>)
      ensures states == [] && this.rejection == rejection
    {
      states := [];
      this.rejection := rejection;
    }

    /** The addresses last published, if any. */
    function Current(): seq<Address>
      reads this
    {
      if states == [] then [] else states[|states| - 1]
    }

    method UpdateState(addresses: seq<Address>) returns (err: Option<Error>)
      modifies this
      ensures states == old(states) + [addresses]
      ensures Current() == addresses
      ensures err == rejection
    {
      states := states + [addresses];
      err := rejection;
    }
  }

  /** A context made by context.WithCancel; Cancel is its cancel function. */
  class CancelContext {
    var cancelled: bool

    constructor ()
      ensures !cancelled
    {
      cancelled := false;
    }

    method Cancel()
      modifies this
      ensures cancelled
    {
      cancelled := true;
    }
  }
}
