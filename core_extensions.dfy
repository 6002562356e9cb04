/** Extension methods over the plugin registry. */
module CoreExtensions {
  import opened Common
  import opened AssemblyExtension
  import opened PluginModel
  import opened PlugCode

  /** The action `p => p.OnServices(provider)`. */
  function OnServicesAction(rt: Runtime, provider: ServiceProvider): Instance -> Option<Exception>
  {
    p => rt.onServices(p, provider)
  }

  /** `PlugComplementaryPlugins(loader, provider)`: both arguments must be
      non-null, the loader first; then every complementary plugin receives the
      provider through `Plug<IPluginComplementary>`, and the loader is returned. */
  method PlugComplementaryPlugins(loader: PluginLoader?, provider: Option<ServiceProvider>, rt: Runtime)
    returns (r: Result<PluginLoader>)
    requires loader != null ==> loader.Valid()
    modifies loader
    ensures loader == null ==> r == Err(ArgumentNullException("loader"))
    ensures loader != null && provider.None? ==>
      r == Err(ArgumentNullException("provider")) && unchanged(loader)
    ensures loader != null && provider.Some? ==> loader.Valid()
    ensures loader != null && provider.Some? ==>
      var f := Flush(old(loader.State()), rt);
      f.error.Some? ==>
        loader.State() == f.state && loader.Trace == old(loader.Trace) + f.events && r == Err(f.error.value)
    ensures loader != null && provider.Some? ==>
      var f := Flush(old(loader.State()), rt);
      var w := WithCapability(f.state.plugins, IPluginComplementary);
      var run := RunAll(w, PlugStep(OnServicesAction(rt, provider.value)));
      f.error.None? ==>
        loader.State() == f.state && loader.Trace == old(loader.Trace) + f.events + run.events &&
        r == (if run.error.Some? then Err(run.error.value) else Ok(loader))
  {
    if loader == null {
      return Err(ArgumentNullException("loader"));
    }
    if provider.None? {
      return Err(ArgumentNullException("provider"));
    }
    var err := loader.Plug(IPluginComplementary, OnServicesAction(rt, provider.value), rt);
    r := if err.Some? then Err(err.value) else Ok(loader);
  }
}
