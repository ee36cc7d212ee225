/** The options of an application: its identity, the endpoints it
    advertises, the signals that stop it, its registrar and its servers, and
    the functional options that set them. */
module AppOptions {
  import opened Common
  import opened NetUrl

  /** An operating-system signal. */
  datatype Signal = SIGTERM | SIGQUIT | SIGINT | OtherSignal(number: int)

  /** A registrar, by identity; what its calls return is an input of the
      operations that make them. */
  datatype Registrar = Registrar(id: nat)

  /** A server the application runs, with the address it listens on. */
  datatype Server = Server(address: string)

  /** Ten seconds, in nanoseconds (a time.Duration). */
  const TEN_SECONDS := 10_000_000_000

  /** options. The REST server is read by Run but no option sets it, so it
      stays absent. */
  datatype Options = Options(
    id: string,
    name: string,
    endpoints: seq<Url>,
    sigs: seq<Signal>,
    registrar: Option<Registrar>,
    registrarTimeout: int,
    stopTimeout: int,
    rpcServer: Option<Server>,
    restServer: Option<Server>)

  /** The options New starts from, given the identifier uuid.NewUUID
      produced, if it produced one. */
  function Defaults(generatedId: Option<string>): (o: Options)
    ensures o.sigs == [SIGTERM, SIGQUIT, SIGINT]
    ensures o.registrarTimeout == TEN_SECONDS && o.stopTimeout == TEN_SECONDS
    ensures o.id == (if generatedId.Some? then generatedId.value else "")
    ensures o.name == "" && o.endpoints == [] && o.registrar == None
    ensures o.rpcServer == None && o.restServer == None
  {
    Options(if generatedId.Some? then generatedId.value else "", "", [],
            [SIGTERM, SIGQUIT, SIGINT], None, TEN_SECONDS, TEN_SECONDS, None, None)
  }

  /** A functional option. The registrar and the server may be nil (None),
      which clears the field as Go's assignment does. */
  datatype AppOption =
    | WithRegistrar(registrar: Option<Registrar>)
    | WithEndpoints(endpoints: seq<Url>)
    | WithRPCServer(server: Option<Server>)
    | WithId(id: string)
    | WithName(name: string)
    | WithSigs(sigs: seq<Signal>)

  /** The field an option writes. */
  datatype Field = RegistrarField | EndpointsField | RPCServerField | IdField | NameField | SigsField

  function FieldOf(opt: AppOption): Field
  {
    match opt
    case WithRegistrar(_) => RegistrarField
    case WithEndpoints(_) => EndpointsField
    case WithRPCServer(_) => RPCServerField
    case WithId(_) => IdField
    case WithName(_) => NameField
    case WithSigs(_) => SigsField
  }

  /** What one option does to the options: it writes its own field, with its
      value replacing the old one, and leaves every other field alone. */
  function Apply(o: Options, opt: AppOption): (r: Options)
    ensures r.registrar == if opt.WithRegistrar? then opt.registrar else o.registrar
    ensures r.endpoints == if opt.WithEndpoints? then opt.endpoints else o.endpoints
    ensures r.rpcServer == if opt.WithRPCServer? then opt.server else o.rpcServer
    ensures r.id == if opt.WithId? then opt.id else o.id
    ensures r.name == if opt.WithName? then opt.name else o.name
    ensures r.sigs == if opt.WithSigs? then opt.sigs else o.sigs
    ensures r.registrarTimeout == o.registrarTimeout && r.stopTimeout == o.stopTimeout
    ensures r.restServer == o.restServer
  {
    match opt
    case WithRegistrar(g) => o.(registrar := g)
    case WithEndpoints(es) => o.(endpoints := es)
    case WithRPCServer(s) => o.(rpcServer := s)
    case WithId(id) => o.(id := id)
    case WithName(n) => o.(name := n)
    case WithSigs(ss) => o.(sigs := ss)
  }

  /** The options after applying a list of options in order. */
  function ApplyAll(o: Options, opts: seq<AppOption>): Options
  {
    if opts == [] then o else Apply(ApplyAll(o, opts[..|opts| - 1]), opts[|opts| - 1])
  }

  /** opts[k] is the last option that writes field f. */
  predicate LastSetting(opts: seq<AppOption>, k: int, f: Field)
  {
    0 <= k < |opts| && FieldOf(opts[k]) == f &&
    forall m :: k < m < |opts| ==> FieldOf(opts[m]) != f
  }

  /** No option of the list writes field f. */
  predicate Untouched(opts: seq<AppOption>, f: Field)
  {
    forall m :: 0 <= m < |opts| ==> FieldOf(opts[m]) != f
  }

  /** A view of one field of the options, through which Apply writes
      `value(opt)` for the options of field f and nothing otherwise. */
  ghost predicate FieldView<T(!new)>(f: Field, get: Options -> T, value: AppOption -> T)
  {
    forall o, opt :: get(Apply(o, opt)) == if FieldOf(opt) == f then value(opt) else get(o)
  }

  /** Through any field view, a field no option writes keeps its starting
      value. */
  lemma {:induction false} UntouchedKeeps<T(!new)>(o: Options, opts: seq<AppOption>, f: Field, get: Options -> T, value: AppOption -> T)
    requires FieldView(f, get, value) && Untouched(opts, f)
    ensures get(ApplyAll(o, opts)) == get(o)
  {
    if opts != [] {
      var init := opts[..|opts| - 1];
      assert forall m :: 0 <= m < |init| ==> init[m] == opts[m];
      UntouchedKeeps(o, init, f, get, value);
      assert get(ApplyAll(o, opts)) == get(Apply(ApplyAll(o, init), opts[|opts| - 1]));
    }
  }

  /** Through any field view, the last option that writes the field wins. */
  lemma {:induction false} LastWins<T(!new)>(o: Options, opts: seq<AppOption>, f: Field, get: Options -> T, value: AppOption -> T, k: int)
    requires FieldView(f, get, value) && LastSetting(opts, k, f)
    ensures get(ApplyAll(o, opts)) == value(opts[k])
  {
    var init, last := opts[..|opts| - 1], opts[|opts| - 1];
    assert get(ApplyAll(o, opts)) == get(Apply(ApplyAll(o, init), last));
    if k < |opts| - 1 {
      assert forall m :: k < m < |init| ==> init[m] == opts[m];
      assert LastSetting(init, k, f);
      LastWins(o, init, f, get, value, k);
    }
  }

  /** Through any field view: the value the options leave in the field. */
  lemma FieldOutcome<T(!new)>(o: Options, opts: seq<AppOption>, f: Field, get: Options -> T, value: AppOption -> T)
    requires FieldView(f, get, value)
    ensures Untouched(opts, f) ==> get(ApplyAll(o, opts)) == get(o)
    ensures forall k :: LastSetting(opts, k, f) ==> get(ApplyAll(o, opts)) == value(opts[k])
  {
    if Untouched(opts, f) {
      UntouchedKeeps(o, opts, f, get, value);
    }
    forall k | LastSetting(opts, k, f) ensures get(ApplyAll(o, opts)) == value(opts[k]) {
      LastWins(o, opts, f, get, value, k);
    }
  }

  /** No option changes the timeouts or the REST server. */
  lemma {:induction false} ApplyAllKeepsFixed(o: Options, opts: seq<AppOption>)
    ensures var r := ApplyAll(o, opts);
      r.registrarTimeout == o.registrarTimeout && r.stopTimeout == o.stopTimeout && r.restServer == o.restServer
  {
    if opts != [] {
      ApplyAllKeepsFixed(o, opts[..|opts| - 1]);
    }
  }

  /** The identifier and the name are those of the last option that writes
      them, or their starting values when none does. */
  lemma IdentityLastWins(o: Options, opts: seq<AppOption>)
    ensures var r := ApplyAll(o, opts);
      && (Untouched(opts, IdField) ==> r.id == o.id)
      && (forall k :: LastSetting(opts, k, IdField) ==> r.id == opts[k].id)
      && (Untouched(opts, NameField) ==> r.name == o.name)
      && (forall k :: LastSetting(opts, k, NameField) ==> r.name == opts[k].name)
  {
    FieldOutcome(o, opts, IdField, (x: Options) => x.id, (opt: AppOption) => if opt.WithId? then opt.id else "");
    FieldOutcome(o, opts, NameField, (x: Options) => x.name, (opt: AppOption) => if opt.WithName? then opt.name else "");
  }

  /** The endpoint list and the signal list are replaced whole by the last
      option that writes them, or keep their starting values. */
  lemma ListsLastWins(o: Options, opts: seq<AppOption>)
    ensures var r := ApplyAll(o, opts);
      && (Untouched(opts, EndpointsField) ==> r.endpoints == o.endpoints)
      && (forall k :: LastSetting(opts, k, EndpointsField) ==> r.endpoints == opts[k].endpoints)
      && (Untouched(opts, SigsField) ==> r.sigs == o.sigs)
      && (forall k :: LastSetting(opts, k, SigsField) ==> r.sigs == opts[k].sigs)
  {
    FieldOutcome(o, opts, EndpointsField, (x: Options) => x.endpoints,
                 (opt: AppOption) => if opt.WithEndpoints? then opt.endpoints else []);
    FieldOutcome(o, opts, SigsField, (x: Options) => x.sigs, (opt: AppOption) => if opt.WithSigs? then opt.sigs else []);
  }

  /** The registrar and the RPC server are those of the last option that
      sets them, or their starting values; a last option passing nil leaves
      none. */
  lemma PluggedLastWins(o: Options, opts: seq<AppOption>)
    ensures var r := ApplyAll(o, opts);
      && (Untouched(opts, RegistrarField) ==> r.registrar == o.registrar)
      && (forall k :: LastSetting(opts, k, RegistrarField) ==> r.registrar == opts[k].registrar)
      && (Untouched(opts, RPCServerField) ==> r.rpcServer == o.rpcServer)
      && (forall k :: LastSetting(opts, k, RPCServerField) ==> r.rpcServer == opts[k].server)
  {
    FieldOutcome(o, opts, RegistrarField, (x: Options) => x.registrar,
                 (opt: AppOption) => if opt.WithRegistrar? then opt.registrar else None);
    FieldOutcome(o, opts, RPCServerField, (x: Options) => x.rpcServer,
                 (opt: AppOption) => if opt.WithRPCServer? then opt.server else None);
  }
}
