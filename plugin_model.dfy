/** The values the plugin registry works with, and the specification of
    each of its operations as a function from the registry's state before the
    call to its state after, the callbacks made in between, and the exception
    that escaped, if any. Plugin code (constructors, configuration actions,
    diagnostics, exports, handlers) is opaque: it is supplied as a `Runtime`. */
module PluginModel {
  import opened Common
  import opened Seqs
  import opened AssemblyExtension

  const IPlugin: string := "IPlugin"
  const IPluginApiProvider: string := "IPluginApiProvider"
  const IPluginComplementary: string := "IPluginComplementary"

  /** The `DiagnosticPlugins` struct: a plugin's report on its environment. */
  datatype DiagnosticPlugins = DiagnosticPlugins(
    plugin: string, success: bool, warningMessages: seq<string>, errorMessages: seq<string>)

  /** The struct's constructor: the message lists start empty. */
  function NewDiagnostic(plugin: string, success: bool): (d: DiagnosticPlugins)
    ensures d.plugin == plugin && d.success == success
    ensures d.warningMessages == [] && d.errorMessages == []
  {
    DiagnosticPlugins(plugin, success, [], [])
  }

  /** An exported delegate: its delegate type and an identity. */
  datatype Delegate = Delegate(typeName: string, id: nat)

  /** The `IServiceProvider` handed to plugins; only its identity matters here. */
  datatype ServiceProvider = ServiceProvider(id: nat)

  /** A registered diagnostic handler: the console handler of
      `AddConsoleDiagnostic`, or any other delegate, identified by `id`. */
  datatype Handler = Console(stopping: bool) | CustomHandler(id: nat)

  /** What `ProcessInfo` hands to its action for one plugin. */
  datatype PluginInfo = PluginInfo(pluginId: string, pluginType: string, info: map<string, string>)

  /** The behaviour of the code the registry calls into. Configuration
      actions and custom handlers are identified by a number. */
  datatype Runtime = Runtime(
    construct: Factory,                                                         // constructors
    configure: (nat, Instance) -> Result<Props>,                                // configuration actions
    diagnose: (Instance, Option<ServiceProvider>) -> Result<DiagnosticPlugins>, // GetEnvoriomentDiagnostic
    exportApi: Instance -> Result<seq<Delegate>>,                               // IPluginApiProvider.ExportApi
    describe: Instance -> Result<PluginInfo>,                                   // PluginID, PluginType, GetInfo
    handle: (nat, DiagnosticPlugins) -> Option<Exception>,                      // custom diagnostic handlers
    onServices: (Instance, ServiceProvider) -> Option<Exception>)               // IPluginComplementary.OnServices

  /** A call from the registry into other code, in the order it happens. */
  datatype Event =
    | Configured(action: nat, plugin: Instance)
    | Acted(plugin: Instance)
    | Exported(plugin: Instance)
    | Described(info: PluginInfo)
    | Diagnosed(plugin: Instance)
    | Handled(handler: Handler, report: DiagnosticPlugins)

  // ---------------------------------------------------------------------
  // Running a callback over a sequence, stopping at the first exception

  /** What a loop over callbacks produced: values collected, calls made, and the exception that ended it. */
  datatype Run<A> = Run(out: seq<A>, events: seq<Event>, error: Option<Exception>)

  /** `foreach (x in xs) step(x)`: the first exception ends the loop and propagates. */
  function RunAll<T, A>(xs: seq<T>, step: T -> Run<A>): Run<A>
  {
    if xs == [] then Run([], [], None)
    else
      var p := RunAll(xs[..|xs| - 1], step);
      if p.error.Some? then p
      else
        var s := step(xs[|xs| - 1]);
        Run(p.out + s.out, p.events + s.events, s.error)
  }

  /** A loop that ran to the end met no exception in any step. */
  lemma {:induction false} RunAllOkSteps<T, A>(xs: seq<T>, step: T -> Run<A>)
    requires RunAll(xs, step).error.None?
    ensures forall k :: 0 <= k < |xs| ==> step(xs[k]).error.None?
  {
    if xs != [] {
      RunAllOkSteps(xs[..|xs| - 1], step);
      assert forall k :: 0 <= k < |xs| - 1 ==> xs[..|xs| - 1][k] == xs[k];
    }
  }

  /** The exception that ends a loop is the exception of one of its steps. */
  lemma {:induction false} RunAllFailedStep<T, A>(xs: seq<T>, step: T -> Run<A>) returns (k: nat)
    requires RunAll(xs, step).error.Some?
    ensures k < |xs| && step(xs[k]).error == RunAll(xs, step).error
  {
    var p := RunAll(xs[..|xs| - 1], step);
    if p.error.Some? {
      k := RunAllFailedStep(xs[..|xs| - 1], step);
      assert xs[..|xs| - 1][k] == xs[k];
    } else {
      k := |xs| - 1;
    }
  }

  /** Once an exception escapes, the remaining elements are never visited. */
  lemma {:induction false} RunAllStops<T, A>(a: seq<T>, b: seq<T>, step: T -> Run<A>)
    requires RunAll(a, step).error.Some?
    ensures RunAll(a + b, step) == RunAll(a, step)
    decreases |b|
  {
    if b == [] {
      assert a + b == a;
    } else {
      assert (a + b)[..|a + b| - 1] == a + b[..|b| - 1];
      RunAllStops(a, b[..|b| - 1], step);
    }
  }

  /** The loop over `xs[..i+1]` is the loop over `xs[..i]` followed by one more step. */
  lemma RunAllNext<T, A>(xs: seq<T>, i: nat, step: T -> Run<A>)
    requires i < |xs| && RunAll(xs[..i], step).error.None?
    ensures var p := RunAll(xs[..i], step); var s := step(xs[i]);
      RunAll(xs[..i + 1], step) == Run(p.out + s.out, p.events + s.events, s.error)
  {
    assert xs[..i + 1][..i] == xs[..i];
  }

  /** A loop that stopped at `xs[i]` is the loop over all of `xs`. */
  lemma RunAllStoppedAt<T, A>(xs: seq<T>, i: nat, step: T -> Run<A>)
    requires i < |xs| && RunAll(xs[..i + 1], step).error.Some?
    ensures RunAll(xs, step) == RunAll(xs[..i + 1], step)
  {
    RunAllStops(xs[..i + 1], xs[i + 1..], step);
    assert xs[..i + 1] + xs[i + 1..] == xs;
  }

  /** The calls made by the steps, concatenated. */
  function AllEvents<T, A>(xs: seq<T>, step: T -> Run<A>): seq<Event>
  {
    if xs == [] then [] else AllEvents(xs[..|xs| - 1], step) + step(xs[|xs| - 1]).events
  }

  /** The values collected by the steps, concatenated. */
  function AllOut<T, A>(xs: seq<T>, step: T -> Run<A>): seq<A>
  {
    if xs == [] then [] else AllOut(xs[..|xs| - 1], step) + step(xs[|xs| - 1]).out
  }

  /** A loop that ran to the end made every step's calls and collected every step's values, in order. */
  lemma {:induction false} RunAllComplete<T, A>(xs: seq<T>, step: T -> Run<A>)
    requires RunAll(xs, step).error.None?
    ensures RunAll(xs, step).events == AllEvents(xs, step)
    ensures RunAll(xs, step).out == AllOut(xs, step)
  {
    if xs != [] {
      RunAllComplete(xs[..|xs| - 1], step);
    }
  }

  // ---------------------------------------------------------------------
  // The steps of each loop

  /** `Configure(obj)`: the action bound to the instance's runtime FullName, if any, runs on it;
      `DynamicInvoke` wraps what the action throws. */
  function ConfigureOne(bindings: map<string, nat>, configure: (nat, Instance) -> Result<Props>, x: Instance): (r: Run<Instance>)
    ensures x.desc.fullName !in bindings ==> r == Run([x], [], None)
    ensures x.desc.fullName in bindings ==> r.events == [Configured(bindings[x.desc.fullName], x)]
    ensures x.desc.fullName in bindings ==>
      (r.error.None? <==> configure(bindings[x.desc.fullName], x).Ok?)
    ensures x.desc.fullName in bindings && r.error.None? ==>
      r.out == [Instance(x.desc, configure(bindings[x.desc.fullName], x).value)]
    ensures r.error.Some? ==>
      (x.desc.fullName in bindings && r.out == [] &&
       r.error == Some(TargetInvocationException(configure(bindings[x.desc.fullName], x).error)))
  {
    if x.desc.fullName in bindings then
      var a := bindings[x.desc.fullName];
      match configure(a, x)
      case Err(e) => Run([], [Configured(a, x)], Some(TargetInvocationException(e)))
      case Ok(props) => Run([Instance(x.desc, props)], [Configured(a, x)], None)
    else Run([x], [], None)
  }

  function ConfigureStep(bindings: map<string, nat>, configure: (nat, Instance) -> Result<Props>): Instance -> Run<Instance>
  {
    x => ConfigureOne(bindings, configure, x)
  }

  /** One iteration of `Plug`: the action runs; a `PluginException` is swallowed, anything else escapes. */
  function PlugOne(action: Instance -> Option<Exception>, x: Instance): (r: Run<()>)
    ensures r.events == [Acted(x)] && r.out == []
    ensures r.error.Some? <==> action(x).Some? && !action(x).value.PluginException?
    ensures r.error.Some? ==> r.error == action(x)
  {
    match action(x)
    case Some(PluginException(_)) => Run([], [Acted(x)], None)
    case other => Run([], [Acted(x)], other)
  }

  function PlugStep(action: Instance -> Option<Exception>): Instance -> Run<()>
  {
    x => PlugOne(action, x)
  }

  /** One iteration of `PlugApi`: the plugin's exports are appended, under `Plug`'s rule for exceptions. */
  function ExportOne(exportApi: Instance -> Result<seq<Delegate>>, x: Instance): (r: Run<Delegate>)
    ensures r.events == [Exported(x)]
    ensures exportApi(x).Ok? ==> r == Run(exportApi(x).value, [Exported(x)], None)
    ensures exportApi(x).Err? ==> r.out == []
    ensures r.error.Some? <==> exportApi(x).Err? && !exportApi(x).error.PluginException?
    ensures r.error.Some? ==> r.error == Some(exportApi(x).error)
  {
    match exportApi(x)
    case Ok(ds) => Run(ds, [Exported(x)], None)
    case Err(PluginException(_)) => Run([], [Exported(x)], None)
    case Err(e) => Run([], [Exported(x)], Some(e))
  }

  function ExportStep(exportApi: Instance -> Result<seq<Delegate>>): Instance -> Run<Delegate>
  {
    x => ExportOne(exportApi, x)
  }

  /** One iteration of `ProcessInfo`: the plugin is described, then the action runs; nothing is caught. */
  function InfoOne(describe: Instance -> Result<PluginInfo>, action: PluginInfo -> Option<Exception>, x: Instance): (r: Run<()>)
    ensures describe(x).Err? ==> r == Run([], [], Some(describe(x).error))
    ensures describe(x).Ok? ==> r == Run([], [Described(describe(x).value)], action(describe(x).value))
  {
    match describe(x)
    case Err(e) => Run([], [], Some(e))
    case Ok(info) => Run([], [Described(info)], action(info))
  }

  function InfoStep(describe: Instance -> Result<PluginInfo>, action: PluginInfo -> Option<Exception>): Instance -> Run<()>
  {
    x => InfoOne(describe, action, x)
  }

  /** The message of the console handler's `PluginException`. */
  function FailureMessage(plugin: string): string
  {
    "The plugin " + plugin + " diagnostic envorioment is not success"
  }

  /** The console handler of `AddConsoleDiagnostic(stopping)`. */
  function ConsoleHandler(stopping: bool, d: DiagnosticPlugins): (r: Option<Exception>)
    ensures r.Some? <==> stopping && !d.success
    ensures r.Some? ==> r.value == PluginException(FailureMessage(d.plugin))
  {
    if !d.success && stopping then Some(PluginException(FailureMessage(d.plugin))) else None
  }

  /** One handler receiving one report. */
  function HandleOne(rt: Runtime, d: DiagnosticPlugins, h: Handler): (r: Run<()>)
    ensures r.events == [Handled(h, d)] && r.out == []
    ensures h.Console? ==> r.error == ConsoleHandler(h.stopping, d)
    ensures h.CustomHandler? ==> r.error == rt.handle(h.id, d)
  {
    match h
    case Console(stopping) => Run([], [Handled(h, d)], ConsoleHandler(stopping, d))
    case CustomHandler(id) => Run([], [Handled(h, d)], rt.handle(id, d))
  }

  function HandleStep(rt: Runtime, d: DiagnosticPlugins): Handler -> Run<()>
  {
    h => HandleOne(rt, d, h)
  }

  /** One iteration of `RunDiagnostics`: the plugin's report goes to every
      handler in order; a `NotImplementedException` from the plugin or from a
      handler ends this plugin's turn quietly, anything else escapes. */
  function DiagnoseOne(rt: Runtime, handlers: seq<Handler>, provider: Option<ServiceProvider>, x: Instance): (r: Run<()>)
  {
    match rt.diagnose(x, provider)
    case Err(NotImplementedException) => Run([], [Diagnosed(x)], None)
    case Err(e) => Run([], [Diagnosed(x)], Some(e))
    case Ok(d) =>
      var h := RunAll(handlers, HandleStep(rt, d));
      Run([], [Diagnosed(x)] + h.events, if h.error == Some(NotImplementedException) then None else h.error)
  }

  function DiagnoseStep(rt: Runtime, handlers: seq<Handler>, provider: Option<ServiceProvider>): Instance -> Run<()>
  {
    x => DiagnoseOne(rt, handlers, provider, x)
  }

  // ---------------------------------------------------------------------
  // The registry's state and its operations

  /** The five collections of `PluginLoader`. */
  datatype LoaderState = LoaderState(
    assets: seq<TypeDesc>,          // PluginAssets: pending plugin types
    plugins: seq<Instance>,         // Plugins: live instances
    exports: seq<Delegate>,         // ApiExports
    configure: map<string, nat>,    // PluginsConfigure: FullName -> configuration action
    handlers: seq<Handler>)         // HandlerDiagnostics

  /** The result of an operation: the new state, the calls made, and the exception that escaped. */
  datatype Outcome = Outcome(state: LoaderState, events: seq<Event>, error: Option<Exception>)

  /** A live plugin type: it has an interface named `IPlugin` and a public parameterless constructor, and is concrete. */
  predicate Eligible(t: TypeDesc)
  {
    HasInterface(t, IPlugin) && HasConstructor(t, []) && !t.isAbstract
  }

  /** Every live instance came from an eligible type. */
  predicate ValidState(s: LoaderState)
  {
    forall k :: 0 <= k < |s.plugins| ==> Eligible(s.plugins[k].desc)
  }

  /** `CheckAvaliable`: when types are pending, instantiate them all
      (`Instance<IPlugin>()`), configure each in order, then append them to the
      live list and clear the pending list. An exception from a constructor or
      an action leaves both lists as they were. */
  function Flush(s: LoaderState, rt: Runtime): Outcome
  {
    if |s.assets| == 0 then Outcome(s, [], None)
    else
      match InstanceOf(s.assets, IPlugin, [], rt.construct)
      case Err(e) => Outcome(s, [], Some(e))
      case Ok(xs) =>
        var c := RunAll(xs, ConfigureStep(s.configure, rt.configure));
        if c.error.Some? then Outcome(s, c.events, c.error)
        else Outcome(s.(plugins := s.plugins + c.out, assets := []), c.events, None)
  }

  /** The live plugins whose type has an interface with the given simple name, in live-list order. */
  function WithCapability(plugins: seq<Instance>, contract: string): seq<Instance>
  {
    Filter(Capable(contract), plugins)
  }

  function Capable(contract: string): Instance -> bool
  {
    (x: Instance) => HasInterface(x.desc, contract)
  }

  /** The plugins `PluginsWith` yields: exactly the live plugins with the contract, in live-list order. */
  lemma WithCapabilityMembers(plugins: seq<Instance>, contract: string)
    ensures var r := WithCapability(plugins, contract);
      (forall k | 0 <= k < |r| :: r[k] in plugins && HasInterface(r[k].desc, contract)) &&
      (forall k | 0 <= k < |plugins| :: HasInterface(plugins[k].desc, contract) ==> plugins[k] in r) &&
      IsSubsequence(r, plugins)
    ensures forall x :: multiset(WithCapability(plugins, contract))[x]
                     == if HasInterface(x.desc, contract) then multiset(plugins)[x] else 0
  {
    FilterCounts(Capable(contract), plugins);
    FilterMembersAt(Capable(contract), plugins);
    FilterIsSubsequence(Capable(contract), plugins);
  }

  /** `Plug<T>(action)`: flush, then run the action on each live plugin with an interface named `T`. */
  function Plug(s: LoaderState, contract: string, action: Instance -> Option<Exception>, rt: Runtime): Outcome
  {
    var f := Flush(s, rt);
    if f.error.Some? then f
    else
      var r := RunAll(WithCapability(f.state.plugins, contract), PlugStep(action));
      Outcome(f.state, f.events + r.events, r.error)
  }

  /** `PlugApi()`: `Plug<IPluginApiProvider>` whose action appends the plugin's exports.
      Exports appended before an escaping exception stay. */
  function PlugApi(s: LoaderState, rt: Runtime): Outcome
  {
    var f := Flush(s, rt);
    if f.error.Some? then f
    else
      var r := RunAll(WithCapability(f.state.plugins, IPluginApiProvider), ExportStep(rt.exportApi));
      Outcome(f.state.(exports := f.state.exports + r.out), f.events + r.events, r.error)
  }

  /** `ProcessInfo(action)`: flush, then describe every live plugin to the action. */
  function ProcessInfo(s: LoaderState, action: PluginInfo -> Option<Exception>, rt: Runtime): Outcome
  {
    var f := Flush(s, rt);
    if f.error.Some? then f
    else
      var r := RunAll(f.state.plugins, InfoStep(rt.describe, action));
      Outcome(f.state, f.events + r.events, r.error)
  }

  /** `RunDiagnostics(provider)`: flush, then every live plugin's report to every handler. */
  function RunDiagnostics(s: LoaderState, provider: Option<ServiceProvider>, rt: Runtime): Outcome
  {
    var f := Flush(s, rt);
    if f.error.Some? then f
    else
      var r := RunAll(f.state.plugins, DiagnoseStep(rt, s.handlers, provider));
      Outcome(f.state, f.events + r.events, r.error)
  }

  /** `Plug` is a flush followed, when the flush succeeds, by the loop on the flushed state. */
  lemma PlugAfterFlush(s: LoaderState, contract: string, action: Instance -> Option<Exception>, rt: Runtime)
    ensures var f := Flush(s, rt); f.error.Some? ==> Plug(s, contract, action, rt) == f
    ensures var f := Flush(s, rt); var r := RunAll(WithCapability(f.state.plugins, contract), PlugStep(action));
      f.error.None? ==> Plug(s, contract, action, rt) == Outcome(f.state, f.events + r.events, r.error)
  {
  }

  /** `PlugApi` is a flush followed, when the flush succeeds, by the export loop. */
  lemma PlugApiAfterFlush(s: LoaderState, rt: Runtime)
    ensures var f := Flush(s, rt); f.error.Some? ==> PlugApi(s, rt) == f
    ensures var f := Flush(s, rt); var r := RunAll(WithCapability(f.state.plugins, IPluginApiProvider), ExportStep(rt.exportApi));
      f.error.None? ==> PlugApi(s, rt) == Outcome(f.state.(exports := f.state.exports + r.out), f.events + r.events, r.error)
  {
  }

  /** `ProcessInfo` is a flush followed, when the flush succeeds, by the describing loop. */
  lemma ProcessInfoAfterFlush(s: LoaderState, action: PluginInfo -> Option<Exception>, rt: Runtime)
    ensures var f := Flush(s, rt); f.error.Some? ==> ProcessInfo(s, action, rt) == f
    ensures var f := Flush(s, rt); var r := RunAll(f.state.plugins, InfoStep(rt.describe, action));
      f.error.None? ==> ProcessInfo(s, action, rt) == Outcome(f.state, f.events + r.events, r.error)
  {
  }

  /** `RunDiagnostics` is a flush followed, when the flush succeeds, by the diagnostic loop. */
  lemma RunDiagnosticsAfterFlush(s: LoaderState, provider: Option<ServiceProvider>, rt: Runtime)
    ensures var f := Flush(s, rt); f.error.Some? ==> RunDiagnostics(s, provider, rt) == f
    ensures var f := Flush(s, rt); var r := RunAll(f.state.plugins, DiagnoseStep(rt, s.handlers, provider));
      f.error.None? ==> RunDiagnostics(s, provider, rt) == Outcome(f.state, f.events + r.events, r.error)
  {
  }

  /** `Use<TDelegate>()`: `OfType<TDelegate>().First()`. */
  function FirstOfType(exports: seq<Delegate>, typeName: string): (r: Result<Delegate>)
    ensures r.Ok? <==> exists k :: 0 <= k < |exports| && exports[k].typeName == typeName
    ensures r.Err? ==> r.error == InvalidOperationException
    ensures r.Ok? ==>
      (exists k :: 0 <= k < |exports| && exports[k] == r.value && r.value.typeName == typeName &&
         (forall j :: 0 <= j < k ==> exports[j].typeName != typeName))
  {
    if exports == [] then Err(InvalidOperationException)
    else if exports[0].typeName == typeName then Ok(exports[0])
    else
      var r := FirstOfType(exports[1..], typeName);
      assert forall k :: 1 <= k < |exports| ==> exports[1..][k - 1] == exports[k];
      if r.Ok? then
        var k :| 0 <= k < |exports[1..]| && exports[1..][k] == r.value && r.value.typeName == typeName &&
          (forall j :: 0 <= j < k ==> exports[1..][j].typeName != typeName);
        assert exports[k + 1] == r.value;
        r
      else r
  }

  // ---------------------------------------------------------------------
  // Properties

  /** The first exception ends the loop: the steps before it ran, the ones after it never do. */
  lemma RunAllFirstFailure<T, A>(xs: seq<T>, i: nat, step: T -> Run<A>)
    requires i < |xs| && RunAll(xs[..i], step).error.None? && step(xs[i]).error.Some?
    ensures RunAll(xs, step).error == step(xs[i]).error
    ensures RunAll(xs, step).events == RunAll(xs[..i], step).events + step(xs[i]).events
  {
    RunAllNext(xs, i, step);
    RunAllStoppedAt(xs, i, step);
  }

  /** The types `CheckAvaliable` instantiates: an interface named `IPlugin` and a parameterless constructor. */
  predicate Candidate(t: TypeDesc)
  {
    HasInterface(t, IPlugin) && HasConstructor(t, [])
  }

  /** Whether a configuration action is bound to the instance's type. */
  function Bound(bindings: map<string, nat>): Instance -> bool
  {
    (x: Instance) => x.desc.fullName in bindings
  }

  /** `y` is `x` after `Configure`: same type; left alone when no action is
      bound to the type, otherwise what the bound action returned. */
  predicate ConfiguredAs(bindings: map<string, nat>, configure: (nat, Instance) -> Result<Props>, x: Instance, y: Instance)
  {
    y.desc == x.desc &&
    (x.desc.fullName !in bindings ==> y == x) &&
    (x.desc.fullName in bindings ==>
       configure(bindings[x.desc.fullName], x).Ok? && y.props == configure(bindings[x.desc.fullName], x).value)
  }

  /** Configuring a batch keeps every instance's position and configures each as its binding says. */
  lemma {:induction false} ConfigureAllOut(bindings: map<string, nat>, configure: (nat, Instance) -> Result<Props>, xs: seq<Instance>)
    requires RunAll(xs, ConfigureStep(bindings, configure)).error.None?
    ensures var c := RunAll(xs, ConfigureStep(bindings, configure));
      |c.out| == |xs| && forall k :: 0 <= k < |xs| ==> ConfiguredAs(bindings, configure, xs[k], c.out[k])
  {
    if xs != [] {
      var n := |xs| - 1;
      var step := ConfigureStep(bindings, configure);
      var p := xs[..n];
      ConfigureAllOut(bindings, configure, p);
      var one := ConfigureOne(bindings, configure, xs[n]);
      assert step(xs[n]) == one;
      var cp := RunAll(p, step);
      var out := RunAll(xs, step).out;
      assert out == cp.out + one.out;
      forall k | 0 <= k < |xs| ensures ConfiguredAs(bindings, configure, xs[k], out[k]) {
        if k < n {
          assert p[k] == xs[k] && out[k] == cp.out[k];
        } else {
          assert out[k] == one.out[0];
        }
      }
    }
  }

  /** The configuration actions of a batch run once each, in batch order, for exactly the instances with a bound action. */
  lemma {:induction false} ConfigureAllCalls(bindings: map<string, nat>, configure: (nat, Instance) -> Result<Props>, xs: seq<Instance>)
    requires RunAll(xs, ConfigureStep(bindings, configure)).error.None?
    ensures var c := RunAll(xs, ConfigureStep(bindings, configure)); var f := Filter(Bound(bindings), xs);
      |c.events| == |f| &&
      forall j :: 0 <= j < |f| ==>
        f[j].desc.fullName in bindings && c.events[j] == Configured(bindings[f[j].desc.fullName], f[j])
  {
    if xs != [] {
      var n := |xs| - 1;
      var step := ConfigureStep(bindings, configure);
      ConfigureAllCalls(bindings, configure, xs[..n]);
      var one := ConfigureOne(bindings, configure, xs[n]);
      assert step(xs[n]) == one;
      assert Bound(bindings)(xs[n]) == (xs[n].desc.fullName in bindings);
    }
  }

  /** A successful flush of a non-empty pending list appends the configured batch. */
  lemma FlushedBatch(s: LoaderState, rt: Runtime)
    requires |s.assets| > 0 && Flush(s, rt).error.None?
    ensures var xs := InstanceOf(s.assets, IPlugin, [], rt.construct);
      xs.Ok? && Descs(xs.value) == Filter(Candidate, s.assets) &&
      (forall k :: 0 <= k < |xs.value| ==> Candidate(xs.value[k].desc) && !xs.value[k].desc.isAbstract) &&
      var c := RunAll(xs.value, ConfigureStep(s.configure, rt.configure));
      c.error.None? && Flush(s, rt).state == s.(plugins := s.plugins + c.out, assets := [])
  {
    var xs := InstanceOf(s.assets, IPlugin, [], rt.construct).value;
    InstantiableIsFilter(s.assets, IPlugin, []);
    InvokeAllConcrete(Instantiable(s.assets, IPlugin, []), [], rt.construct);
    assert ArgTypes([]) == [];
    FilterSame(t => HasInterface(t, IPlugin) && HasConstructor(t, ArgTypes([])), Candidate, s.assets);
    FilterMembersAt(Candidate, s.assets);
  }

  /** A flush touches only the pending and live lists, and a failed flush touches nothing. */
  lemma FlushFrame(s: LoaderState, rt: Runtime)
    ensures var f := Flush(s, rt);
      f.state.exports == s.exports && f.state.configure == s.configure && f.state.handlers == s.handlers
    ensures var f := Flush(s, rt); f.error.Some? ==> f.state == s
    ensures var f := Flush(s, rt); f.error.None? ==> f.state.assets == []
  {
    if |s.assets| > 0 {
      var created := InstanceOf(s.assets, IPlugin, [], rt.construct);
      if created.Ok? {
        var c := RunAll(created.value, ConfigureStep(s.configure, rt.configure));
        assert c.error.None? ==> Flush(s, rt) == Outcome(s.(plugins := s.plugins + c.out, assets := []), c.events, None);
      }
    }
  }

  /** `CheckAvaliable` only ever appends to the live list: after a successful
      flush the old instances are untouched, and the new ones are exactly the
      pending candidates, in order, each from an eligible type. */
  lemma FlushEffect(s: LoaderState, rt: Runtime)
    requires Flush(s, rt).error.None?
    ensures var f := Flush(s, rt);
      |s.plugins| <= |f.state.plugins| <= |s.plugins| + |s.assets| &&
      f.state.plugins[..|s.plugins|] == s.plugins &&
      Descs(f.state.plugins[|s.plugins|..]) == Filter(Candidate, s.assets) &&
      (forall k :: |s.plugins| <= k < |f.state.plugins| ==> Eligible(f.state.plugins[k].desc))
  {
    var f := Flush(s, rt);
    if |s.assets| > 0 {
      FlushedBatch(s, rt);
      var xs := InstanceOf(s.assets, IPlugin, [], rt.construct).value;
      var c := RunAll(xs, ConfigureStep(s.configure, rt.configure));
      ConfigureAllOut(s.configure, rt.configure, xs);
      var added := f.state.plugins[|s.plugins|..];
      assert added == c.out;
      assert Descs(added) == Descs(xs);
      forall k | |s.plugins| <= k < |f.state.plugins| ensures Eligible(f.state.plugins[k].desc) {
        assert f.state.plugins[k] == c.out[k - |s.plugins|];
      }
    } else {
      assert f.state.plugins[|s.plugins|..] == [];
    }
  }

  /** A second flush right after a successful one does nothing. */
  lemma FlushSettles(s: LoaderState, rt: Runtime)
    requires Flush(s, rt).error.None?
    ensures Flush(Flush(s, rt).state, rt) == Outcome(Flush(s, rt).state, [], None)
  {
    FlushFrame(s, rt);
  }

  /** The flush preserves the registry's invariant. */
  lemma FlushValid(s: LoaderState, rt: Runtime)
    requires ValidState(s)
    ensures ValidState(Flush(s, rt).state)
  {
    FlushFrame(s, rt);
    var f := Flush(s, rt);
    if f.error.None? {
      FlushEffect(s, rt);
      forall k | 0 <= k < |f.state.plugins| ensures Eligible(f.state.plugins[k].desc) {
        if k < |s.plugins| {
          assert f.state.plugins[k] == f.state.plugins[..|s.plugins|][k];
        }
      }
    }
  }

  /** Two predicates that agree everywhere filter alike. */
  lemma {:induction false} FilterSame<T>(p: T -> bool, q: T -> bool, xs: seq<T>)
    requires forall x :: p(x) == q(x)
    ensures Filter(p, xs) == Filter(q, xs)
  {
    if xs != [] {
      FilterSame(p, q, xs[..|xs| - 1]);
    }
  }

  /** Every exception a flush lets escape comes out of reflection: an abstract
      type (`MemberAccessException`) or a constructor or configuration action that
      threw (wrapped in `TargetInvocationException`). */
  lemma FlushErrors(s: LoaderState, rt: Runtime)
    ensures var f := Flush(s, rt);
      f.error.Some? ==> f.error.value == MemberAccessException || f.error.value.TargetInvocationException?
  {
    var f := Flush(s, rt);
    if |s.assets| > 0 && f.error.Some? {
      var cands := Instantiable(s.assets, IPlugin, []);
      match InstanceOf(s.assets, IPlugin, [], rt.construct)
      case Err(e) =>
        var k :| 0 <= k < |cands| && Invoke(cands[k], [], rt.construct) == Err(e);
      case Ok(xs) =>
        var step := ConfigureStep(s.configure, rt.configure);
        var k := RunAllFailedStep(xs, step);
        assert step(xs[k]) == ConfigureOne(s.configure, rt.configure, xs[k]);
    }
  }

  /** `Plug` leaves the registry's collections as the flush left them, and its calls begin with the flush's. */
  lemma PlugKeepsState(s: LoaderState, contract: string, action: Instance -> Option<Exception>, rt: Runtime)
    ensures var f := Flush(s, rt); var o := Plug(s, contract, action, rt);
      o.state == f.state && |f.events| <= |o.events| && o.events[..|f.events|] == f.events
  {
    PlugAfterFlush(s, contract, action, rt);
    var f := Flush(s, rt);
    var r := RunAll(WithCapability(f.state.plugins, contract), PlugStep(action));
    assert (f.events + r.events)[..|f.events|] == f.events;
  }

  /** One `Acted` call per plugin, in order. */
  function Acts(w: seq<Instance>): (r: seq<Event>)
  {
    seq(|w|, j requires 0 <= j < |w| => Acted(w[j]))
  }

  /** After the flush, `Plug` runs the action once on each live plugin carrying
      the contract, in live-list order. */
  lemma PlugCalls(s: LoaderState, contract: string, action: Instance -> Option<Exception>, rt: Runtime)
    requires Flush(s, rt).error.None? && Plug(s, contract, action, rt).error.None?
    ensures Plug(s, contract, action, rt).events
         == Flush(s, rt).events + Acts(WithCapability(Flush(s, rt).state.plugins, contract))
  {
    PlugAfterFlush(s, contract, action, rt);
    var f := Flush(s, rt);
    var w := WithCapability(f.state.plugins, contract);
    PlugLoopEffect(w, action);
    assert RunAll(w, PlugStep(action)).events == Acts(w);
  }

  /** A `PluginException` thrown by `Plug`'s action never escapes it. */
  lemma PlugSwallowsPluginException(s: LoaderState, contract: string, action: Instance -> Option<Exception>, rt: Runtime)
    requires Flush(s, rt).error.None? && Plug(s, contract, action, rt).error.Some?
    ensures !Plug(s, contract, action, rt).error.value.PluginException?
  {
    PlugAfterFlush(s, contract, action, rt);
    var f := Flush(s, rt);
    PlugLoopEffect(WithCapability(f.state.plugins, contract), action);
  }

  /** The loop of `Plug` on its own: one action call per plugin when it completes, and never an escaping `PluginException`. */
  lemma PlugLoopEffect(w: seq<Instance>, action: Instance -> Option<Exception>)
    ensures var r := RunAll(w, PlugStep(action));
      r.error.None? ==> |r.events| == |w| && forall j :: 0 <= j < |w| ==> r.events[j] == Acted(w[j])
    ensures var r := RunAll(w, PlugStep(action)); r.error.Some? ==> !r.error.value.PluginException?
    ensures var r := RunAll(w, PlugStep(action));
      r.error.Some? ==> exists k :: 0 <= k < |w| && r.error == action(w[k])
    ensures RunAll(w, PlugStep(action)).out == []
  {
    var r := RunAll(w, PlugStep(action));
    PlugLoopKeepsNothing(w, action);
    if r.error.None? {
      RunAllComplete(w, PlugStep(action));
      ActedInOrder(w, action);
    } else {
      var k := RunAllFailedStep(w, PlugStep(action));
      assert PlugStep(action)(w[k]) == PlugOne(action, w[k]);
    }
  }

  /** The loop of `Plug` collects nothing. */
  lemma {:induction false} PlugLoopKeepsNothing(w: seq<Instance>, action: Instance -> Option<Exception>)
    ensures RunAll(w, PlugStep(action)).out == []
  {
    if w != [] {
      PlugLoopKeepsNothing(w[..|w| - 1], action);
      assert PlugStep(action)(w[|w| - 1]) == PlugOne(action, w[|w| - 1]);
    }
  }

  /** The calls made by a completed `Plug` loop: one action call per plugin. */
  lemma {:induction false} ActedInOrder(w: seq<Instance>, action: Instance -> Option<Exception>)
    ensures var e := AllEvents(w, PlugStep(action));
      |e| == |w| && forall j :: 0 <= j < |w| ==> e[j] == Acted(w[j])
  {
    if w != [] {
      ActedInOrder(w[..|w| - 1], action);
      assert PlugStep(action)(w[|w| - 1]) == PlugOne(action, w[|w| - 1]);
    }
  }

  /** `PlugApi` only appends to the export list, and only what API providers
      returned from `ExportApi`; when no exception escapes, every provider's exports
      are appended in order. */
  lemma PlugApiEffect(s: LoaderState, rt: Runtime)
    ensures var f := Flush(s, rt); var o := PlugApi(s, rt);
      o.state.plugins == f.state.plugins && o.state.assets == f.state.assets &&
      o.state.configure == s.configure && o.state.handlers == s.handlers &&
      |s.exports| <= |o.state.exports| && o.state.exports[..|s.exports|] == s.exports
    ensures var f := Flush(s, rt); var o := PlugApi(s, rt);
      var w := WithCapability(f.state.plugins, IPluginApiProvider);
      forall j :: |s.exports| <= j < |o.state.exports| ==> ExportedBy(o.state.exports[j], w, rt.exportApi)
    ensures var f := Flush(s, rt); var o := PlugApi(s, rt);
      var w := WithCapability(f.state.plugins, IPluginApiProvider);
      f.error.None? && o.error.None? ==> o.state.exports == s.exports + AllOut(w, ExportStep(rt.exportApi))
  {
    FlushFrame(s, rt);
    PlugApiAfterFlush(s, rt);
    var f := Flush(s, rt);
    if f.error.None? {
      var w := WithCapability(f.state.plugins, IPluginApiProvider);
      var r := RunAll(w, ExportStep(rt.exportApi));
      ExportsFromProviders(w, rt.exportApi);
      assert PlugApi(s, rt).state.exports == s.exports + r.out;
      if r.error.None? {
        RunAllComplete(w, ExportStep(rt.exportApi));
      }
    }
  }

  /** The delegate is among the exports of one of the providers. */
  predicate ExportedBy(d: Delegate, w: seq<Instance>, exportApi: Instance -> Result<seq<Delegate>>)
  {
    exists k :: 0 <= k < |w| && exportApi(w[k]).Ok? && d in exportApi(w[k]).value
  }

  /** Whatever an export loop collected, complete or not, came out of some provider's `ExportApi`. */
  lemma {:induction false} ExportsFromProviders(w: seq<Instance>, exportApi: Instance -> Result<seq<Delegate>>)
    ensures forall d :: d in RunAll(w, ExportStep(exportApi)).out ==> ExportedBy(d, w, exportApi)
  {
    if w != [] {
      var n := |w| - 1;
      var step := ExportStep(exportApi);
      ExportsFromProviders(w[..n], exportApi);
      var p := RunAll(w[..n], step);
      var one := ExportOne(exportApi, w[n]);
      assert step(w[n]) == one;
      var out := RunAll(w, step).out;
      assert out == p.out + (if p.error.None? then one.out else []);
      forall d | d in out ensures ExportedBy(d, w, exportApi) {
        if d in p.out {
          var k :| 0 <= k < |w[..n]| && exportApi(w[..n][k]).Ok? && d in exportApi(w[..n][k]).value;
          assert w[..n][k] == w[k];
        } else {
          assert d in exportApi(w[n]).value;
        }
      }
    }
  }

  /** `ProcessInfo` describes each live plugin once, in order, when nothing throws. */
  lemma ProcessInfoEffect(s: LoaderState, action: PluginInfo -> Option<Exception>, rt: Runtime)
    ensures var f := Flush(s, rt); var o := ProcessInfo(s, action, rt);
      o.state == f.state && o.events[..|f.events|] == f.events
    ensures var f := Flush(s, rt); var o := ProcessInfo(s, action, rt); var ps := f.state.plugins;
      f.error.None? && o.error.None? ==>
        |o.events| == |f.events| + |ps| &&
        forall j :: 0 <= j < |ps| ==>
          rt.describe(ps[j]).Ok? && action(rt.describe(ps[j]).value).None? &&
          o.events[|f.events| + j] == Described(rt.describe(ps[j]).value)
  {
    var f := Flush(s, rt);
    if f.error.None? {
      var ps := f.state.plugins;
      var step := InfoStep(rt.describe, action);
      if RunAll(ps, step).error.None? {
        RunAllComplete(ps, step);
        RunAllOkSteps(ps, step);
        DescribedInOrder(ps, rt.describe, action);
        forall j | 0 <= j < |ps| ensures rt.describe(ps[j]).Ok? && action(rt.describe(ps[j]).value).None? {
          assert step(ps[j]) == InfoOne(rt.describe, action, ps[j]);
        }
      }
    }
  }

  /** The calls made by a completed `ProcessInfo` loop. */
  lemma {:induction false} DescribedInOrder(ps: seq<Instance>, describe: Instance -> Result<PluginInfo>, action: PluginInfo -> Option<Exception>)
    requires RunAll(ps, InfoStep(describe, action)).error.None?
    ensures var e := AllEvents(ps, InfoStep(describe, action));
      |e| == |ps| && forall j :: 0 <= j < |ps| ==> describe(ps[j]).Ok? && e[j] == Described(describe(ps[j]).value)
  {
    if ps != [] {
      var n := |ps| - 1;
      assert InfoStep(describe, action)(ps[n]) == InfoOne(describe, action, ps[n]);
      DescribedInOrder(ps[..n], describe, action);
    }
  }

  /** A report is handed to every handler, in registration order, unless one of them throws. */
  lemma {:induction false} HandledInOrder(rt: Runtime, d: DiagnosticPlugins, hs: seq<Handler>)
    ensures var e := AllEvents(hs, HandleStep(rt, d));
      |e| == |hs| && forall j :: 0 <= j < |hs| ==> e[j] == Handled(hs[j], d)
  {
    if hs != [] {
      var n := |hs| - 1;
      assert HandleStep(rt, d)(hs[n]) == HandleOne(rt, d, hs[n]);
      HandledInOrder(rt, d, hs[..n]);
    }
  }

  /** A plugin's turn starts with its diagnostic, and a `NotImplementedException`
      never escapes it, whether the plugin or a handler threw it. */
  lemma DiagnoseOneShape(rt: Runtime, hs: seq<Handler>, provider: Option<ServiceProvider>, x: Instance)
    ensures var r := DiagnoseOne(rt, hs, provider, x);
      |r.events| >= 1 && r.events[0] == Diagnosed(x) && r.out == [] &&
      r.error != Some(NotImplementedException)
  {
  }

  /** Which exception ends a plugin's turn: the plugin's own, unless it is a
      `NotImplementedException`; otherwise the handlers' loop's, with a
      `NotImplementedException` again swallowed. */
  lemma DiagnoseOneError(rt: Runtime, hs: seq<Handler>, provider: Option<ServiceProvider>, x: Instance)
    ensures var r := DiagnoseOne(rt, hs, provider, x);
      rt.diagnose(x, provider).Err? ==>
        r.events == [Diagnosed(x)] &&
        r.error == (if rt.diagnose(x, provider).error == NotImplementedException then None
                    else Some(rt.diagnose(x, provider).error))
    ensures var r := DiagnoseOne(rt, hs, provider, x);
      rt.diagnose(x, provider).Ok? ==>
        var h := RunAll(hs, HandleStep(rt, rt.diagnose(x, provider).value));
        r.events == [Diagnosed(x)] + h.events &&
        r.error == (if h.error == Some(NotImplementedException) then None else h.error)
  {
  }

  /** An exception that a handler lets escape is one handler's own, thrown on this plugin's report. */
  lemma DiagnoseHandlerError(rt: Runtime, hs: seq<Handler>, provider: Option<ServiceProvider>, x: Instance) returns (j: nat)
    requires rt.diagnose(x, provider).Ok? && DiagnoseOne(rt, hs, provider, x).error.Some?
    ensures j < |hs| && HandleOne(rt, rt.diagnose(x, provider).value, hs[j]).error == DiagnoseOne(rt, hs, provider, x).error
  {
    var d := rt.diagnose(x, provider).value;
    j := RunAllFailedStep(hs, HandleStep(rt, d));
    assert HandleStep(rt, d)(hs[j]) == HandleOne(rt, d, hs[j]);
  }

  /** When no handler throws, a plugin's turn is: its diagnostic, then every handler on its report. */
  lemma DiagnoseAllHandlers(rt: Runtime, hs: seq<Handler>, provider: Option<ServiceProvider>, x: Instance)
    requires rt.diagnose(x, provider).Ok?
    requires RunAll(hs, HandleStep(rt, rt.diagnose(x, provider).value)).error.None?
    ensures var d := rt.diagnose(x, provider).value; var r := DiagnoseOne(rt, hs, provider, x);
      r.error.None? && |r.events| == 1 + |hs| &&
      forall j :: 0 <= j < |hs| ==> r.events[1 + j] == Handled(hs[j], d)
  {
    var d := rt.diagnose(x, provider).value;
    RunAllComplete(hs, HandleStep(rt, d));
    HandledInOrder(rt, d, hs);
  }

  /** A stopping console handler turns a failed report into a `PluginException`
      naming the plugin; the handlers after it never see the report. */
  lemma StoppingConsoleStops(rt: Runtime, pre: seq<Handler>, post: seq<Handler>, provider: Option<ServiceProvider>, x: Instance)
    requires rt.diagnose(x, provider).Ok? && !rt.diagnose(x, provider).value.success
    requires RunAll(pre, HandleStep(rt, rt.diagnose(x, provider).value)).error.None?
    ensures var d := rt.diagnose(x, provider).value;
      var r := DiagnoseOne(rt, pre + [Console(true)] + post, provider, x);
      r.error == Some(PluginException(FailureMessage(d.plugin))) &&
      r.events == [Diagnosed(x)] + RunAll(pre, HandleStep(rt, d)).events + [Handled(Console(true), d)]
  {
    var d := rt.diagnose(x, provider).value;
    var hs := pre + [Console(true)] + post;
    var step := HandleStep(rt, d);
    assert hs[..|pre|] == pre;
    assert hs[|pre|] == Console(true);
    assert step(Console(true)) == HandleOne(rt, d, Console(true));
    RunAllFirstFailure(hs, |pre|, step);
  }

  /** When one plugin's turn ends in an exception, it escapes `RunDiagnostics`
      and no later plugin is diagnosed. */
  lemma DiagnosticsStopAtFailure(s: LoaderState, provider: Option<ServiceProvider>, rt: Runtime, i: nat)
    requires Flush(s, rt).error.None?
    requires var ps := Flush(s, rt).state.plugins; var step := DiagnoseStep(rt, s.handlers, provider);
      i < |ps| && RunAll(ps[..i], step).error.None? && step(ps[i]).error.Some?
    ensures var f := Flush(s, rt); var ps := f.state.plugins; var step := DiagnoseStep(rt, s.handlers, provider);
      var o := RunDiagnostics(s, provider, rt);
      o.error == step(ps[i]).error &&
      o.events == f.events + RunAll(ps[..i], step).events + step(ps[i]).events
  {
    var f := Flush(s, rt);
    RunAllFirstFailure(f.state.plugins, i, DiagnoseStep(rt, s.handlers, provider));
  }
}
