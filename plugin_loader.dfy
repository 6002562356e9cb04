/** `PluginLoader`: a registry of plugin types and live plugin instances.
    Types are queued with `Load`, instantiated and configured on demand by
    the private flush, and then driven through `Plug`, `PlugApi`,
    `ProcessInfo` and `RunDiagnostics`. Every method is proved against the
    function of the same name in `PluginModel`. */
module PlugCode {
  import opened Common
  import opened AssemblyExtension
  import opened PluginModel

  class PluginLoader {
    var PluginAssets: seq<TypeDesc>
    var Plugins: seq<Instance>
    var ApiExports: seq<Delegate>
    var PluginsConfigure: map<string, nat>
    var HandlerDiagnostics: seq<Handler>
    /** The calls made into plugin code so far, oldest first. */
    ghost var Trace: seq<Event>

    /** The registry's collections as a value. */
    function State(): LoaderState
      reads this
    {
      LoaderState(PluginAssets, Plugins, ApiExports, PluginsConfigure, HandlerDiagnostics)
    }

    /** Every live plugin came from an eligible type. */
    ghost predicate Valid()
      reads this
    {
      ValidState(State())
    }

    constructor()
      ensures Valid()
      ensures State() == LoaderState([], [], [], map[], []) && Trace == []
    {
      PluginAssets := [];
      Plugins := [];
      ApiExports := [];
      PluginsConfigure := map[];
      HandlerDiagnostics := [];
      Trace := [];
    }

    /** `Load(Type)`: queue one type. */
    method Load(t: TypeDesc) returns (self: PluginLoader)
      requires Valid()
      modifies this
      ensures Valid() && self == this
      ensures State() == old(State()).(assets := old(PluginAssets) + [t]) && Trace == old(Trace)
    {
      PluginAssets := PluginAssets + [t];
      self := this;
    }

    /** `Load<TPlugin>()`: the type argument is constrained to `IPlugin`. */
    method LoadPlugin(t: TypeDesc) returns (self: PluginLoader)
      requires Valid() && SatisfiesConstraint(t, IPlugin)
      modifies this
      ensures Valid() && self == this
      ensures State() == old(State()).(assets := old(PluginAssets) + [t]) && Trace == old(Trace)
    {
      self := Load(t);
    }

    /** `Load(IEnumerable<Type>)`: queue several types, in order. */
    method LoadAll(ts: seq<TypeDesc>) returns (self: PluginLoader)
      requires Valid()
      modifies this
      ensures Valid() && self == this
      ensures State() == old(State()).(assets := old(PluginAssets) + ts) && Trace == old(Trace)
    {
      PluginAssets := PluginAssets + ts;
      self := this;
    }

    /** `When<TPlugin>(action)`: bind a configuration action to the type's
        FullName; `Dictionary.Add` refuses a second binding and leaves the first. */
    method When(t: TypeDesc, action: nat) returns (r: Result<PluginLoader>)
      requires Valid()
      modifies this
      ensures Valid() && Trace == old(Trace)
      ensures t.fullName in old(PluginsConfigure) ==>
        r == Err(ArgumentException(DuplicateKey)) && State() == old(State())
      ensures t.fullName !in old(PluginsConfigure) ==>
        r == Ok(this) && State() == old(State()).(configure := old(PluginsConfigure)[t.fullName := action])
    {
      if t.fullName in PluginsConfigure {
        return Err(ArgumentException(DuplicateKey));
      }
      PluginsConfigure := PluginsConfigure[t.fullName := action];
      r := Ok(this);
    }

    /** `Load<TPlugin>(action)`: `When(action)` then `Load(typeof(TPlugin))`;
        when the binding is refused the type is not queued either. */
    method LoadWith(t: TypeDesc, action: nat) returns (r: Result<PluginLoader>)
      requires Valid() && SatisfiesConstraint(t, IPlugin)
      modifies this
      ensures Valid() && Trace == old(Trace)
      ensures t.fullName in old(PluginsConfigure) ==>
        r == Err(ArgumentException(DuplicateKey)) && State() == old(State())
      ensures t.fullName !in old(PluginsConfigure) ==>
        r == Ok(this) &&
        State() == old(State()).(assets := old(PluginAssets) + [t],
                                 configure := old(PluginsConfigure)[t.fullName := action])
    {
      r := When(t, action);
      if r.Ok? {
        var self := Load(t);
      }
    }

    /** `Configure(obj)`: run the action bound to the instance's runtime type, if any. */
    method Configure(x: Instance, rt: Runtime) returns (r: Result<Instance>)
      modifies this`Trace
      ensures var one := ConfigureOne(PluginsConfigure, rt.configure, x);
        Trace == old(Trace) + one.events &&
        (one.error.None? ==> r == Ok(one.out[0])) &&
        (one.error.Some? ==> r == Err(one.error.value))
    {
      var id := x.desc.fullName;
      if id in PluginsConfigure {
        var a := PluginsConfigure[id];
        Trace := Trace + [Configured(a, x)];
        match rt.configure(a, x) {
          case Err(e) => r := Err(TargetInvocationException(e));
          case Ok(props) => r := Ok(Instance(x.desc, props));
        }
      } else {
        r := Ok(x);
      }
    }

    /** `Execute(Configure)` over a freshly created batch: stops at the first exception. */
    method ConfigureBatch(xs: seq<Instance>, rt: Runtime) returns (configured: seq<Instance>, err: Option<Exception>)
      modifies this`Trace
      ensures var c := RunAll(xs, ConfigureStep(PluginsConfigure, rt.configure));
        Trace == old(Trace) + c.events && err == c.error && (err.None? ==> configured == c.out)
    {
      var step := ConfigureStep(PluginsConfigure, rt.configure);
      configured := [];
      ghost var events: seq<Event> := [];
      var i := 0;
      while i < |xs|
        invariant 0 <= i <= |xs|
        invariant RunAll(xs[..i], step) == Run(configured, events, None)
        invariant Trace == old(Trace) + events
      {
        var c := Configure(xs[i], rt);
        RunAllNext(xs, i, step);
        ghost var one := ConfigureOne(PluginsConfigure, rt.configure, xs[i]);
        assert step(xs[i]) == one;
        events := events + one.events;
        if c.Err? {
          RunAllStoppedAt(xs, i, step);
          return configured, Some(c.error);
        }
        configured := configured + [c.value];
        i := i + 1;
      }
      assert xs[..i] == xs;
      err := None;
    }

    /** `CheckAvaliable()`: instantiate and configure the pending types, then move them to the live list. */
    method CheckAvailable(rt: Runtime) returns (err: Option<Exception>)
      requires Valid()
      modifies this
      ensures Valid()
      ensures var o := Flush(old(State()), rt);
        State() == o.state && Trace == old(Trace) + o.events && err == o.error
    {
      FlushValid(State(), rt);
      if |PluginAssets| == 0 {
        return None;
      }
      var created := InstanceOf(PluginAssets, IPlugin, [], rt.construct);
      if created.Err? {
        return Some(created.error);
      }
      var configured;
      configured, err := ConfigureBatch(created.value, rt);
      if err.None? {
        Plugins := Plugins + configured;
        PluginAssets := [];
      }
    }

    /** `PluginsWith<TPlugin>()`: flush, then the live plugins with an interface named `TPlugin`. */
    method PluginsWith(contract: string, rt: Runtime) returns (r: Result<seq<Instance>>)
      requires Valid()
      modifies this
      ensures Valid()
      ensures var o := Flush(old(State()), rt);
        State() == o.state && Trace == old(Trace) + o.events &&
        (o.error.Some? ==> r == Err(o.error.value)) &&
        (o.error.None? ==> r == Ok(WithCapability(Plugins, contract)))
    {
      var err := CheckAvailable(rt);
      if err.Some? {
        return Err(err.value);
      }
      r := Ok(WithCapability(Plugins, contract));
    }

    /** The loop of `Plug`: the action on each plugin, `PluginException` ignored. */
    method ActOn(ps: seq<Instance>, action: Instance -> Option<Exception>) returns (err: Option<Exception>)
      modifies this`Trace
      ensures var r := RunAll(ps, PlugStep(action)); Trace == old(Trace) + r.events && err == r.error
    {
      var step := PlugStep(action);
      ghost var events: seq<Event> := [];
      var i := 0;
      while i < |ps|
        invariant 0 <= i <= |ps|
        invariant RunAll(ps[..i], step) == Run([], events, None)
        invariant Trace == old(Trace) + events
      {
        Trace := Trace + [Acted(ps[i])];
        var e := action(ps[i]);
        RunAllNext(ps, i, step);
        assert step(ps[i]) == PlugOne(action, ps[i]);
        events := events + [Acted(ps[i])];
        if e.Some? && !e.value.PluginException? {
          RunAllStoppedAt(ps, i, step);
          return e;
        }
        i := i + 1;
      }
      assert ps[..i] == ps;
      err := None;
    }

    /** `Plug<TPlugin>(action)`: run the action on each plugin with the contract,
        ignoring `PluginException`. `PlugAfterFlush` equates this contract with
        `PluginModel.Plug`. */
    method Plug(contract: string, action: Instance -> Option<Exception>, rt: Runtime) returns (err: Option<Exception>)
      requires Valid()
      modifies this
      ensures Valid()
      ensures var f := Flush(old(State()), rt);
        f.error.Some? ==> State() == f.state && Trace == old(Trace) + f.events && err == f.error
      ensures var f := Flush(old(State()), rt);
        var r := RunAll(WithCapability(f.state.plugins, contract), PlugStep(action));
        f.error.None? ==> State() == f.state && Trace == old(Trace) + f.events + r.events && err == r.error
    {
      var found := PluginsWith(contract, rt);
      if found.Err? {
        return Some(found.error);
      }
      err := ActOn(found.value, action);
    }

    /** The loop of `PlugApi`: append each provider's exports, `PluginException` ignored. */
    method ExportFrom(ps: seq<Instance>, rt: Runtime) returns (err: Option<Exception>)
      modifies this`Trace, this`ApiExports
      ensures var r := RunAll(ps, ExportStep(rt.exportApi));
        Trace == old(Trace) + r.events && err == r.error && ApiExports == old(ApiExports) + r.out
    {
      var step := ExportStep(rt.exportApi);
      ghost var events: seq<Event> := [];
      ghost var added: seq<Delegate> := [];
      var i := 0;
      while i < |ps|
        invariant 0 <= i <= |ps|
        invariant RunAll(ps[..i], step) == Run(added, events, None)
        invariant Trace == old(Trace) + events
        invariant ApiExports == old(ApiExports) + added
      {
        Trace := Trace + [Exported(ps[i])];
        RunAllNext(ps, i, step);
        assert step(ps[i]) == ExportOne(rt.exportApi, ps[i]);
        events := events + [Exported(ps[i])];
        match rt.exportApi(ps[i]) {
          case Ok(ds) =>
            ApiExports := ApiExports + ds;
            added := added + ds;
          case Err(e) =>
            if !e.PluginException? {
              RunAllStoppedAt(ps, i, step);
              return Some(e);
            }
        }
        i := i + 1;
      }
      assert ps[..i] == ps;
      err := None;
    }

    /** `PlugApi()`: append the exports of every API provider; exports appended
        before an escaping exception stay. `PlugApiAfterFlush` equates this
        contract with `PluginModel.PlugApi`. */
    method PlugApi(rt: Runtime) returns (err: Option<Exception>)
      requires Valid()
      modifies this
      ensures Valid()
      ensures var f := Flush(old(State()), rt);
        f.error.Some? ==> State() == f.state && Trace == old(Trace) + f.events && err == f.error
      ensures var f := Flush(old(State()), rt);
        var r := RunAll(WithCapability(f.state.plugins, IPluginApiProvider), ExportStep(rt.exportApi));
        f.error.None? ==>
          State() == f.state.(exports := f.state.exports + r.out) &&
          Trace == old(Trace) + f.events + r.events && err == r.error
    {
      var found := PluginsWith(IPluginApiProvider, rt);
      if found.Err? {
        return Some(found.error);
      }
      err := ExportFrom(found.value, rt);
    }

    /** `ImportApi(delegate)`: append one delegate to the exports. */
    method ImportApi(d: Delegate)
      requires Valid()
      modifies this
      ensures Valid() && Trace == old(Trace)
      ensures State() == old(State()).(exports := old(ApiExports) + [d])
    {
      ApiExports := ApiExports + [d];
    }

    /** `Use<TDelegate>()`: the first export of the delegate type, or `InvalidOperationException`
        when no export has that type. */
    function Use(typeName: string): (r: Result<Delegate>)
      reads this
      ensures r.Ok? <==> exists k :: 0 <= k < |ApiExports| && ApiExports[k].typeName == typeName
      ensures r.Err? ==> r.error == InvalidOperationException
      ensures r.Ok? ==>
        exists k :: 0 <= k < |ApiExports| && ApiExports[k] == r.value && r.value.typeName == typeName &&
          forall j :: 0 <= j < k ==> ApiExports[j].typeName != typeName
    {
      FirstOfType(ApiExports, typeName)
    }

    /** `Free<TPlugin>()`: has an empty body and changes nothing. */
    method Free(contract: string)
      ensures unchanged(this)
    {
    }

    /** `Free<TPlugin>(predicate)`: has an empty body and changes nothing. */
    method FreeWhere(contract: string, criteria: Instance -> bool)
      ensures unchanged(this)
    {
    }

    /** The loop of `ProcessInfo`: describe each plugin to the action. */
    method DescribeAll(ps: seq<Instance>, action: PluginInfo -> Option<Exception>, rt: Runtime) returns (err: Option<Exception>)
      modifies this`Trace
      ensures var r := RunAll(ps, InfoStep(rt.describe, action)); Trace == old(Trace) + r.events && err == r.error
    {
      var step := InfoStep(rt.describe, action);
      ghost var events: seq<Event> := [];
      var i := 0;
      while i < |ps|
        invariant 0 <= i <= |ps|
        invariant RunAll(ps[..i], step) == Run([], events, None)
        invariant Trace == old(Trace) + events
      {
        RunAllNext(ps, i, step);
        assert step(ps[i]) == InfoOne(rt.describe, action, ps[i]);
        match rt.describe(ps[i]) {
          case Err(e) =>
            RunAllStoppedAt(ps, i, step);
            return Some(e);
          case Ok(info) =>
            Trace := Trace + [Described(info)];
            events := events + [Described(info)];
            var e := action(info);
            if e.Some? {
              RunAllStoppedAt(ps, i, step);
              return e;
            }
        }
        i := i + 1;
      }
      assert ps[..i] == ps;
      err := None;
    }

    /** `ProcessInfo(action)`: flush, then describe each live plugin to the
        action; nothing is caught. `ProcessInfoAfterFlush` equates this contract
        with `PluginModel.ProcessInfo`. */
    method ProcessInfo(action: PluginInfo -> Option<Exception>, rt: Runtime) returns (err: Option<Exception>)
      requires Valid()
      modifies this
      ensures Valid()
      ensures var f := Flush(old(State()), rt);
        f.error.Some? ==> State() == f.state && Trace == old(Trace) + f.events && err == f.error
      ensures var f := Flush(old(State()), rt);
        var r := RunAll(f.state.plugins, InfoStep(rt.describe, action));
        f.error.None? ==> State() == f.state && Trace == old(Trace) + f.events + r.events && err == r.error
    {
      err := CheckAvailable(rt);
      if err.None? {
        err := DescribeAll(Plugins, action, rt);
      }
    }

    /** `AddConsoleDiagnostic(stopping)`: register the console handler. */
    method AddConsoleDiagnostic(stopping: bool) returns (self: PluginLoader)
      requires Valid()
      modifies this
      ensures Valid() && self == this && Trace == old(Trace)
      ensures State() == old(State()).(handlers := old(HandlerDiagnostics) + [Console(stopping)])
    {
      HandlerDiagnostics := HandlerDiagnostics + [Console(stopping)];
      self := this;
    }

    /** `HandlerDiagnostics.ForEach(handler => handler.Invoke(diagnostic))`. */
    method Handle(d: DiagnosticPlugins, rt: Runtime) returns (err: Option<Exception>)
      modifies this`Trace
      ensures var h := RunAll(HandlerDiagnostics, HandleStep(rt, d));
        Trace == old(Trace) + h.events && err == h.error
    {
      var hs := HandlerDiagnostics;
      var step := HandleStep(rt, d);
      ghost var events: seq<Event> := [];
      var i := 0;
      while i < |hs|
        invariant 0 <= i <= |hs|
        invariant RunAll(hs[..i], step) == Run([], events, None)
        invariant Trace == old(Trace) + events
      {
        RunAllNext(hs, i, step);
        assert step(hs[i]) == HandleOne(rt, d, hs[i]);
        Trace := Trace + [Handled(hs[i], d)];
        events := events + [Handled(hs[i], d)];
        var e: Option<Exception>;
        match hs[i] {
          case Console(stopping) => e := ConsoleHandler(stopping, d);
          case CustomHandler(id) => e := rt.handle(id, d);
        }
        if e.Some? {
          RunAllStoppedAt(hs, i, step);
          return e;
        }
        i := i + 1;
      }
      assert hs[..i] == hs;
      err := None;
    }

    /** One plugin's turn in `RunDiagnostics`. */
    method DiagnosePlugin(x: Instance, provider: Option<ServiceProvider>, rt: Runtime) returns (err: Option<Exception>)
      modifies this`Trace
      ensures var r := DiagnoseOne(rt, HandlerDiagnostics, provider, x);
        Trace == old(Trace) + r.events && err == r.error
    {
      Trace := Trace + [Diagnosed(x)];
      match rt.diagnose(x, provider) {
        case Err(e) =>
          err := if e == NotImplementedException then None else Some(e);
        case Ok(d) =>
          var h := Handle(d, rt);
          err := if h == Some(NotImplementedException) then None else h;
      }
    }

    /** The loop of `RunDiagnostics`: each plugin's report to every handler. */
    method DiagnoseAll(ps: seq<Instance>, provider: Option<ServiceProvider>, rt: Runtime) returns (err: Option<Exception>)
      modifies this`Trace
      ensures var r := RunAll(ps, DiagnoseStep(rt, HandlerDiagnostics, provider));
        Trace == old(Trace) + r.events && err == r.error
    {
      var step := DiagnoseStep(rt, HandlerDiagnostics, provider);
      ghost var events: seq<Event> := [];
      var i := 0;
      while i < |ps|
        invariant 0 <= i <= |ps|
        invariant RunAll(ps[..i], step) == Run([], events, None)
        invariant Trace == old(Trace) + events
      {
        RunAllNext(ps, i, step);
        ghost var one := DiagnoseOne(rt, HandlerDiagnostics, provider, ps[i]);
        assert step(ps[i]) == one;
        var e := DiagnosePlugin(ps[i], provider, rt);
        events := events + one.events;
        if e.Some? {
          RunAllStoppedAt(ps, i, step);
          return e;
        }
        i := i + 1;
      }
      assert ps[..i] == ps;
      err := None;
    }

    /** `RunDiagnostics(provider)`: flush, then hand each live plugin's report to
        every handler; `NotImplementedException` only ends that plugin's turn.
        `RunDiagnosticsAfterFlush` equates this contract with `PluginModel.RunDiagnostics`. */
    method RunDiagnostics(provider: Option<ServiceProvider>, rt: Runtime) returns (err: Option<Exception>)
      requires Valid()
      modifies this
      ensures Valid()
      ensures var f := Flush(old(State()), rt);
        f.error.Some? ==> State() == f.state && Trace == old(Trace) + f.events && err == f.error
      ensures var f := Flush(old(State()), rt);
        var r := RunAll(f.state.plugins, DiagnoseStep(rt, old(HandlerDiagnostics), provider));
        f.error.None? ==> State() == f.state && Trace == old(Trace) + f.events + r.events && err == r.error
    {
      err := CheckAvailable(rt);
      if err.None? {
        err := DiagnoseAll(Plugins, provider, rt);
      }
    }
  }
}
