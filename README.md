# Turbo plugin loader — a Dafny model

This project models the plugin core of the OliWorkshop Turbo libraries:

- `PluginLoader` (PlugCode). It collects plugin types, instantiates them lazily on first use, and binds
  configuration actions to plugin types. It runs a caller's action over the plugins that implement a
  contract. It gathers the delegates that API-provider plugins export, reports plugin information, and runs
  environment diagnostics through a list of diagnostic handlers, the console handler among them.
- The `PlugComplementaryPlugins` extension (CoreExtensions). It wakes every plugin that implements
  `IPluginComplementary` with the service provider.
- The reflection helpers (`AssemblyExtension`). They select the exported types of an assembly that
  implement a contract, filter types by constructor, visibility and identity, and create instances.
- The collection helpers (`LinqExtension`). These are dictionary builders, the `key=value;…` parser, reduce
  and generate, the `ThrowIf` guards, membership, substring and iteration with an action.

## How the model is built

| Dafny file | Module | Models | Form |
|---|---|---|---|
| `common.dfy` | `Common` | the .NET exceptions the core throws or lets escape, `Option`, `Result` | values |
| `seqs.dfy` | `Seqs` | LINQ `Where` as an order-keeping `Filter`, with its lemmas | functions and lemmas |
| `assembly_extension.dfy` | `AssemblyExtension` | the `AssemblyExtension` static class | functions and lemmas |
| `linq_extension.dfy` | `LinqExtension` | the `LinqExtension` static class | loop methods for the loops; functions for the expression-only helpers |
| `plugin_model.dfy` | `PluginModel` | the loader's state, its callbacks, `DiagnosticPlugins`, and the specification of every loader operation | functions and lemmas |
| `plugin_loader.dfy` | `PlugCode` | `class PluginLoader`, with its lists and dictionary as fields | class, loop methods |
| `core_extensions.dfy` | `CoreExtensions` | `CoreExtensions.PlugComplementaryPlugins` | method |

Reflection, modelled as values:

- A type is a `TypeDesc`. It records:
  - its full name;
  - whether it is an interface, a class, abstract or visible;
  - the interfaces it implements;
  - its constructors' parameter-type lists.
- An assembly is the sequence of its exported types.
- An object is an `Instance`: its type together with the property values it holds.

Calls into code the model cannot see are parameters. They are bundled in `PluginModel.Runtime`. They
include:

- a constructor's body (`Factory`);
- the configuration actions bound with `When`;
- `GetEnvoriomentDiagnostic`, `ExportApi`, `GetInfo` and `OnServices`;
- custom diagnostic handlers.

An exception that such a call throws is an `Exception` value. `ConstructorInfo.Invoke` and
`Delegate.DynamicInvoke` wrap it in `TargetInvocationException`, as .NET does.

The loader works in two layers:

- **Specification layer.** `PluginModel` describes every loader operation as a function from a `LoaderState`
  (assets, plugins, exports, configuration bindings, handlers) to an `Outcome`. The outcome holds the new
  state, the callbacks made in order (`Event`s) and the exception that escaped, if any. All
  "for each … stop at the first exception" loops of the source share one generic fold, `RunAll`.
- **Class layer.** `PlugCode.PluginLoader` keeps the source's fields and changes them in place. Its methods
  are loops proved against the functions of the specification layer. A ghost field `Trace` records the
  callbacks the loader has made.

The method contracts split into two cases. In the first, the lazy instantiation (`CheckAvaliable`) fails.
In the second, it succeeds and the operation's own loop runs. The lemmas `PluginModel.PlugAfterFlush`,
`PlugApiAfterFlush`, `ProcessInfoAfterFlush` and `RunDiagnosticsAfterFlush` show that these two cases
together are exactly the one-function specification.

## Model

| member | source | states |
|---|---|---|
| `PluginModel.NewDiagnostic` | OliWorkshop.Turbo.PlugCode/PluginLoader.cs:401-418 | a new diagnostic keeps the plugin name and success flag, and starts with empty warning and error lists |
| `PluginModel.RunAllOkSteps` | OliWorkshop.Turbo.PlugCode/PluginLoader.cs:227-241 | when a for-each loop over plugins ends without an exception, no step threw |
| `PluginModel.RunAllFailedStep` | OliWorkshop.Turbo.PlugCode/PluginLoader.cs:227-241 | when such a loop ends with an exception, some step threw exactly that exception |
| `PluginModel.RunAllStops` | OliWorkshop.Turbo.PlugCode/PluginLoader.cs:304-320 | once a step has thrown, later elements are never visited: the result is unchanged by appending more elements |
| `PluginModel.RunAllFirstFailure` | OliWorkshop.Turbo.PlugCode/PluginLoader.cs:304-320 | the exception that escapes is the first step's exception, and the callbacks made are those up to and including that step |
| `PluginModel.RunAllComplete` | OliWorkshop.Turbo.PlugCode/PluginLoader.cs:293-297 | a loop that does not throw makes every step's callbacks and collects every step's output, in order |
| `PluginModel.ConfigureOne` | OliWorkshop.Turbo.PlugCode/PluginLoader.cs:388-395 | a plugin with no bound action is left as it is; otherwise its action is called once with it; a thrown exception reaches the caller wrapped in TargetInvocationException; on success the plugin carries the new property values |
| `PluginModel.PlugOne` | OliWorkshop.Turbo.PlugCode/PluginLoader.cs:230-240 | the action is called on the plugin; a PluginException is swallowed and any other exception escapes unchanged: the escaping exception is the action's own |
| `PluginModel.ExportOne` | OliWorkshop.Turbo.PlugCode/PluginLoader.cs:246-249 | ExportApi is called on the provider; its delegates are collected; a provider that throws contributes no delegates; a PluginException is swallowed and any other exception escapes unchanged: the escaping exception is ExportApi's own |
| `PluginModel.InfoOne` | OliWorkshop.Turbo.PlugCode/PluginLoader.cs:293-297 | GetInfo is called first and then the action on its result; an exception from either escapes |
| `PluginModel.ConsoleHandler` | OliWorkshop.Turbo.PlugCode/PluginLoader.cs:327-345 | the console handler throws if and only if it is stopping and the diagnostic did not succeed; it then throws a PluginException naming the plugin |
| `PluginModel.HandleOne` | OliWorkshop.Turbo.PlugCode/PluginLoader.cs:312-313 | every handler is called with the diagnostic; the console handler behaves as above and a custom handler as its callback |
| `PluginModel.WithCapabilityMembers` | OliWorkshop.Turbo.PlugCode/PluginLoader.cs:356-367 | the plugins selected for a contract are exactly the loaded plugins whose type implements it, in load order, and a plugin that occurs several times is kept as many times |
| `PluginModel.FirstOfType` | OliWorkshop.Turbo.PlugCode/PluginLoader.cs:265-268 | `Use` succeeds if and only if some exported delegate has the requested type; it returns the first such delegate and otherwise fails with InvalidOperationException |
| `PluginModel.ConfigureAllOut` | OliWorkshop.Turbo.PlugCode/PluginLoader.cs:388-395 | after a configuration pass without exceptions, each plugin is configured by its bound action, or kept as it is when no action is bound, in order |
| `PluginModel.ConfigureAllCalls` | OliWorkshop.Turbo.PlugCode/PluginLoader.cs:388-395 | a configuration pass calls the bound action once per plugin that has one, in load order, and never for the others |
| `PluginModel.FlushedBatch` | OliWorkshop.Turbo.PlugCode/PluginLoader.cs:370-381 | a successful lazy load instantiates every pending asset that implements IPlugin, with the parameterless constructor, and configures that batch |
| `PluginModel.FlushFrame` | OliWorkshop.Turbo.PlugCode/PluginLoader.cs:370-381 | a lazy load never changes exports, bindings or handlers; when it throws, the state is unchanged; when it succeeds, no assets remain pending |
| `PluginModel.FlushEffect` | OliWorkshop.Turbo.PlugCode/PluginLoader.cs:370-381 | a successful lazy load keeps the old plugins and appends exactly one instance per pending asset that has an interface named IPlugin and a parameterless constructor, in asset order; each new one is of a concrete IPlugin type |
| `PluginModel.FlushSettles` | OliWorkshop.Turbo.PlugCode/PluginLoader.cs:372-381 | a second lazy load right after a successful one does nothing and calls nothing |
| `PluginModel.FlushValid` | OliWorkshop.Turbo.PlugCode/PluginLoader.cs:370-381 | a lazy load keeps the invariant that every loaded plugin is an instance of a concrete IPlugin type |
| `PluginModel.FlushErrors` | OliWorkshop.Turbo.PlugCode/PluginLoader.cs:370-395 | the only exceptions a lazy load lets escape are MemberAccessException (abstract type) and TargetInvocationException (a constructor or configuration action threw) |
| `PluginModel.PlugAfterFlush` | OliWorkshop.Turbo.PlugCode/PluginLoader.cs:227-241 | `Plug` is the lazy load followed by the action over the plugins with the contract; when the lazy load throws, nothing else happens |
| `PluginModel.PlugKeepsState` | OliWorkshop.Turbo.PlugCode/PluginLoader.cs:227-241 | `Plug` leaves the state exactly as the lazy load left it |
| `PluginModel.PlugCalls` | OliWorkshop.Turbo.PlugCode/PluginLoader.cs:227-241 | a `Plug` without exceptions calls the action once on each plugin with the contract, in order |
| `PluginModel.PlugSwallowsPluginException` | OliWorkshop.Turbo.PlugCode/PluginLoader.cs:231-240 | when the action loop of `Plug` throws, the exception is never a PluginException |
| `PluginModel.PlugLoopEffect` | OliWorkshop.Turbo.PlugCode/PluginLoader.cs:230-240 | the action loop collects nothing; it calls the action once per plugin, in order, when it completes; an exception that ends it is not a PluginException and is the exception the action threw on one of the plugins |
| `PluginModel.ActedInOrder` | OliWorkshop.Turbo.PlugCode/PluginLoader.cs:230-240 | the action's calls are exactly one per plugin, in order |
| `PluginModel.PlugApiAfterFlush` | OliWorkshop.Turbo.PlugCode/PluginLoader.cs:246-249 | `PlugApi` is the lazy load followed by the ExportApi loop over the API providers, whose delegates are appended to the exports |
| `PluginModel.PlugApiEffect` | OliWorkshop.Turbo.PlugCode/PluginLoader.cs:246-249 | `PlugApi` changes only the exports, which grow by the delegates collected, kept even when a later provider throws |
| `PluginModel.ExportsFromProviders` | OliWorkshop.Turbo.PlugCode/PluginLoader.cs:246-249 | every delegate collected was exported by one of the providers |
| `PluginModel.ProcessInfoAfterFlush` | OliWorkshop.Turbo.PlugCode/PluginLoader.cs:293-297 | `ProcessInfo` is the lazy load followed by GetInfo and the action over every plugin |
| `PluginModel.ProcessInfoEffect` | OliWorkshop.Turbo.PlugCode/PluginLoader.cs:293-297 | `ProcessInfo` keeps the state the lazy load left; with no exception, every plugin's information is passed to the action |
| `PluginModel.DescribedInOrder` | OliWorkshop.Turbo.PlugCode/PluginLoader.cs:293-297 | the action receives exactly one information record per plugin, in plugin order |
| `PluginModel.RunDiagnosticsAfterFlush` | OliWorkshop.Turbo.PlugCode/PluginLoader.cs:304-320 | `RunDiagnostics` is the lazy load followed by diagnosis of every plugin, each passed through every handler |
| `PluginModel.HandledInOrder` | OliWorkshop.Turbo.PlugCode/PluginLoader.cs:312-313 | a diagnostic is handed to every handler, in the order the handlers were added |
| `PluginModel.DiagnoseOneShape` | OliWorkshop.Turbo.PlugCode/PluginLoader.cs:307-319 | diagnosing a plugin first asks it for its diagnostic; the one exception it never raises is NotImplementedException |
| `PluginModel.DiagnoseOneError` | OliWorkshop.Turbo.PlugCode/PluginLoader.cs:307-319 | an exception from `GetEnvoriomentDiagnostic` other than NotImplementedException escapes unchanged and no handler is called; otherwise the handlers' loop runs on the report and its exception escapes unchanged, except a NotImplementedException, which is swallowed |
| `PluginModel.DiagnoseHandlerError` | OliWorkshop.Turbo.PlugCode/PluginLoader.cs:311-313 | an exception that escapes from the handlers is the exception one of the handlers threw on this plugin's report |
| `PluginModel.DiagnoseAllHandlers` | OliWorkshop.Turbo.PlugCode/PluginLoader.cs:307-319 | when no handler throws, the plugin's diagnostic reaches every handler |
| `PluginModel.StoppingConsoleStops` | OliWorkshop.Turbo.PlugCode/PluginLoader.cs:327-345 | a stopping console handler stops diagnostics at a failed plugin with its PluginException, and later handlers are not called |
| `PluginModel.DiagnosticsStopAtFailure` | OliWorkshop.Turbo.PlugCode/PluginLoader.cs:304-320 | the first plugin whose diagnosis throws ends `RunDiagnostics` with that exception; plugins after it are not diagnosed |
| `PlugCode.PluginLoader.constructor` | OliWorkshop.Turbo.PlugCode/PluginLoader.cs:56-81 | a new loader has no assets, plugins, exports, bindings or handlers |
| `PlugCode.PluginLoader.Load` | OliWorkshop.Turbo.PlugCode/PluginLoader.cs:110-114 | `Load(Type)` appends the type to the pending assets, changes nothing else and returns the same loader |
| `PlugCode.PluginLoader.LoadPlugin` | OliWorkshop.Turbo.PlugCode/PluginLoader.cs:88-92 | `Load<TPlugin>()` appends a type satisfying `where TPlugin : IPlugin` (IPlugin itself included) to the pending assets |
| `PlugCode.PluginLoader.LoadAll` | OliWorkshop.Turbo.PlugCode/PluginLoader.cs:121-125 | `Load(IEnumerable<Type>)` appends all the types, in order |
| `PlugCode.PluginLoader.When` | OliWorkshop.Turbo.PlugCode/PluginLoader.cs:214-218 | binding an action to a type that already has one throws ArgumentException and changes nothing; otherwise the binding is added |
| `PlugCode.PluginLoader.LoadWith` | OliWorkshop.Turbo.PlugCode/PluginLoader.cs:99-103 | `Load<TPlugin>(action)` binds the action (failing as `When` does) and then loads the type |
| `PlugCode.PluginLoader.Configure` | OliWorkshop.Turbo.PlugCode/PluginLoader.cs:388-395 | configuring one plugin is `ConfigureOne` under the loader's bindings, and its callback is recorded |
| `PlugCode.PluginLoader.ConfigureBatch` | OliWorkshop.Turbo.PlugCode/PluginLoader.cs:376-377 | the configuration loop produces the configuration pass over the batch, stopping at the first exception |
| `PlugCode.PluginLoader.CheckAvailable` | OliWorkshop.Turbo.PlugCode/PluginLoader.cs:370-381 | the lazy load changes the loader's state and callbacks exactly as `PluginModel.Flush` describes |
| `PlugCode.PluginLoader.PluginsWith` | OliWorkshop.Turbo.PlugCode/PluginLoader.cs:356-367 | after the lazy load, it returns the plugins with the contract, in load order, or the lazy load's exception |
| `PlugCode.PluginLoader.ActOn` | OliWorkshop.Turbo.PlugCode/PluginLoader.cs:230-240 | the action loop makes exactly the calls of the specification loop and ends with its exception |
| `PlugCode.PluginLoader.Plug` | OliWorkshop.Turbo.PlugCode/PluginLoader.cs:227-241 | `Plug` leaves the state and callbacks as the lazy load followed by the action loop specifies |
| `PlugCode.PluginLoader.ExportFrom` | OliWorkshop.Turbo.PlugCode/PluginLoader.cs:246-249 | the export loop appends each provider's delegates to the exports as the specification loop collects them |
| `PlugCode.PluginLoader.PlugApi` | OliWorkshop.Turbo.PlugCode/PluginLoader.cs:246-249 | `PlugApi` leaves the state and callbacks as the lazy load followed by the export loop specifies |
| `PlugCode.PluginLoader.ImportApi` | OliWorkshop.Turbo.PlugCode/PluginLoader.cs:255-258 | importing a delegate appends it to the exports and changes nothing else |
| `PlugCode.PluginLoader.Use` | OliWorkshop.Turbo.PlugCode/PluginLoader.cs:265-268 | succeeds if and only if some export has the requested type; it returns the first export of that type, and otherwise fails with InvalidOperationException |
| `PlugCode.PluginLoader.Free` | OliWorkshop.Turbo.PlugCode/PluginLoader.cs:274-277 | freeing plugins changes nothing, since the source does nothing |
| `PlugCode.PluginLoader.FreeWhere` | OliWorkshop.Turbo.PlugCode/PluginLoader.cs:284-287 | freeing plugins by a criterion changes nothing, since the source does nothing |
| `PlugCode.PluginLoader.DescribeAll` | OliWorkshop.Turbo.PlugCode/PluginLoader.cs:293-297 | the information loop makes exactly the calls of the specification loop |
| `PlugCode.PluginLoader.ProcessInfo` | OliWorkshop.Turbo.PlugCode/PluginLoader.cs:293-297 | `ProcessInfo` leaves the state and callbacks as the lazy load followed by the information loop specifies |
| `PlugCode.PluginLoader.AddConsoleDiagnostic` | OliWorkshop.Turbo.PlugCode/PluginLoader.cs:327-345 | appends a console handler with the given stopping flag and returns the same loader |
| `PlugCode.PluginLoader.Handle` | OliWorkshop.Turbo.PlugCode/PluginLoader.cs:312-313 | the handler loop hands the diagnostic to each handler in order and stops at the first exception |
| `PlugCode.PluginLoader.DiagnosePlugin` | OliWorkshop.Turbo.PlugCode/PluginLoader.cs:309-318 | diagnosing one plugin makes the calls of `DiagnoseOne` and ends with its exception |
| `PlugCode.PluginLoader.DiagnoseAll` | OliWorkshop.Turbo.PlugCode/PluginLoader.cs:307-319 | the diagnosis loop makes the calls of the specification loop over all plugins |
| `PlugCode.PluginLoader.RunDiagnostics` | OliWorkshop.Turbo.PlugCode/PluginLoader.cs:304-320 | `RunDiagnostics` leaves the state and callbacks as the lazy load followed by the diagnosis loop specifies |
| `CoreExtensions.PlugComplementaryPlugins` | OliWorkshop.Turbo.PlugCode/CoreExtensions.cs:36-52 | a null loader or provider raises ArgumentNullException naming it, and the loader is untouched; otherwise `OnServices` is plugged into every complementary plugin and the loader is returned |
| `AssemblyExtension.Invoke` | OliWorkshop.Turbo.Abstractions/AssemblyExtension.cs:194-204 | invoking an abstract type's constructor raises MemberAccessException; a constructor that throws is wrapped in TargetInvocationException; on success the instance has the invoked type |
| `AssemblyExtension.FromContract` | OliWorkshop.Turbo.Abstractions/AssemblyExtension.cs:23-32 | fails with ArgumentException if and only if the contract is not an interface; otherwise returns exactly the exported classes that implement it, in assembly order |
| `AssemblyExtension.FromContractWhere` | OliWorkshop.Turbo.Abstractions/AssemblyExtension.cs:74-84 | the filtered overload fails under the same condition |
| `AssemblyExtension.FromContractWhereRestricts` | OliWorkshop.Turbo.Abstractions/AssemblyExtension.cs:74-84 | the filtered overload returns exactly the classes implementing the contract that pass the filter, in order |
| `AssemblyExtension.CreateInstancesCalls` | OliWorkshop.Turbo.Abstractions/AssemblyExtension.cs:42-64 | `CreateInstances` acts only on instances of exported classes that implement the contract and have a parameterless constructor; they are a prefix of those classes, in order, and all of them when nothing throws |
| `AssemblyExtension.CreateInstances` | OliWorkshop.Turbo.Abstractions/AssemblyExtension.cs:42-64 | a contract that is not an interface raises ArgumentException before any class is constructed |
| `AssemblyExtension.CreateRun` | OliWorkshop.Turbo.Abstractions/AssemblyExtension.cs:51-63 | at most one instance is acted on per candidate, and one per candidate when nothing throws |
| `AssemblyExtension.CreateRunBuilt` | OliWorkshop.Turbo.Abstractions/AssemblyExtension.cs:56-58 | each instance acted on is what its candidate's parameterless constructor built, in order |
| `AssemblyExtension.CreateRunPrefix` | OliWorkshop.Turbo.Abstractions/AssemblyExtension.cs:51-63 | the types of the instances acted on are a prefix of the candidates |
| `AssemblyExtension.CreateRunStops` | OliWorkshop.Turbo.Abstractions/AssemblyExtension.cs:56-63 | the run stops at the first exception: every action but the last returned normally; an exception came either from the action on the last instance or from the next candidate's constructor, after all earlier actions returned normally |
| `AssemblyExtension.WithContractMembers` | OliWorkshop.Turbo.Abstractions/AssemblyExtension.cs:92-95 | `WithContract` keeps exactly the types implementing the contract, in order, each as many times as it occurs |
| `AssemblyExtension.WithConstruct` | OliWorkshop.Turbo.Abstractions/AssemblyExtension.cs:105-109 | keeps exactly the types with a public constructor of the given parameter types, in order, each as many times as it occurs |
| `AssemblyExtension.SelectConstruct` | OliWorkshop.Turbo.Abstractions/AssemblyExtension.cs:119-124 | every constructor selected has the requested signature and belongs to one of the types |
| `AssemblyExtension.SelectConstructOwners` | OliWorkshop.Turbo.Abstractions/AssemblyExtension.cs:119-124 | the selected constructors belong, one each and in order, to exactly the types `WithConstruct` keeps |
| `AssemblyExtension.WhereIs` | OliWorkshop.Turbo.Abstractions/AssemblyExtension.cs:146-153 | keeps only the target type, once for each time it occurs |
| `AssemblyExtension.CanBeInstanceable` | OliWorkshop.Turbo.Abstractions/AssemblyExtension.cs:160-163 | keeps exactly the concrete, visible types, in order, each as many times as it occurs |
| `AssemblyExtension.InvokeAll` | OliWorkshop.Turbo.Abstractions/AssemblyExtension.cs:202-203 | on success, one instance per type, in order; on failure, the exception of one of the constructors |
| `AssemblyExtension.InvokeAllBuilt` | OliWorkshop.Turbo.Abstractions/AssemblyExtension.cs:202-203 | on success, each instance is what its type's constructor built, in order |
| `AssemblyExtension.InvokeAllFirstError` | OliWorkshop.Turbo.Abstractions/AssemblyExtension.cs:202-203 | on failure, the exception is that of the first constructor that throws: the types before it all build |
| `AssemblyExtension.InvokeAllConcrete` | OliWorkshop.Turbo.Abstractions/AssemblyExtension.cs:194-204 | a successful batch construction contained no abstract type |
| `AssemblyExtension.InvokeAllSucceeds` | OliWorkshop.Turbo.Abstractions/AssemblyExtension.cs:194-204 | batch construction succeeds when every type is concrete and every constructor body succeeds |
| `AssemblyExtension.InstantiableIsFilter` | OliWorkshop.Turbo.Abstractions/AssemblyExtension.cs:194-204 | `Instance<TContract>(args)` constructs exactly the types that implement the contract and have a matching constructor, in order |
| `AssemblyExtension.InstanceOfDropsSilently` | OliWorkshop.Turbo.Abstractions/AssemblyExtension.cs:194-204 | types without a matching constructor are skipped without error; the result holds one instance per remaining type |
| `AssemblyExtension.InstanceObjects` | OliWorkshop.Turbo.Abstractions/AssemblyExtension.cs:171-180 | on success, one instance per type that has a constructor for the arguments' types, in input order, whatever its interfaces |
| `AssemblyExtension.InstanceOfRestricts` | OliWorkshop.Turbo.Abstractions/AssemblyExtension.cs:171-204 | the generic `Instance<TContract>(args)` is the non-generic `Instance(args)` applied to the types with the contract |
| `LinqExtension.JoinSplit` | OliWorkshop.Turbo.Abstractions/LinqExtension.cs:389 | joining the pieces of `String.Split` with the separator gives back the string |
| `LinqExtension.SplitJoin` | OliWorkshop.Turbo.Abstractions/LinqExtension.cs:389 | splitting a join of separator-free pieces gives back the pieces |
| `LinqExtension.SplitPiecesFree` | OliWorkshop.Turbo.Abstractions/LinqExtension.cs:389 | no piece of a split contains the separator |
| `LinqExtension.SplitAtSeparator` | OliWorkshop.Turbo.Abstractions/LinqExtension.cs:389 | splitting at a separator splits the two sides independently |
| `LinqExtension.ParseKeyPairs` | OliWorkshop.Turbo.Abstractions/LinqExtension.cs:384-406 | the parsing loop computes `ParsePairs` of the segments |
| `LinqExtension.ParsePairsOutcome` | OliWorkshop.Turbo.Abstractions/LinqExtension.cs:384-406 | parsing succeeds if and only if every segment holds exactly one pair separator and no key repeats; then each key maps to its value |
| `LinqExtension.ParseOkIsValid` | OliWorkshop.Turbo.Abstractions/LinqExtension.cs:384-406 | a successful parse came from well-formed segments with distinct keys, and maps each key to its value |
| `LinqExtension.ValidParsesOk` | OliWorkshop.Turbo.Abstractions/LinqExtension.cs:384-406 | well-formed segments with distinct keys always parse |
| `LinqExtension.ParsePairsErrorSticks` | OliWorkshop.Turbo.Abstractions/LinqExtension.cs:389-404 | once a segment is rejected, later segments cannot change the outcome |
| `LinqExtension.EmptySegmentFails` | OliWorkshop.Turbo.Abstractions/LinqExtension.cs:384-406 | an empty string, or one ending in the segment separator, raises an exception |
| `LinqExtension.ParseEncodeRoundTrip` | OliWorkshop.Turbo.Abstractions/LinqExtension.cs:384-406 | parsing `k1=v1;k2=v2;…` built from distinct separator-free keys and values gives back the dictionary |
| `LinqExtension.ToDictionary` | OliWorkshop.Turbo.Abstractions/LinqExtension.cs:317-331 | succeeds if and only if all keys differ, and otherwise throws ArgumentException; on success each item is found under its key |
| `LinqExtension.AddToList` | OliWorkshop.Turbo.Abstractions/LinqExtension.cs:71-86 | as written, it always throws: ArgumentException for a present key, KeyNotFoundException for an absent one |
| `LinqExtension.AddToListIntended` | OliWorkshop.Turbo.Abstractions/LinqExtension.cs:71-86 | appends the value to the key's list, creating the list when the key is absent; other keys are untouched |
| `LinqExtension.AddToListNeverAdds` | OliWorkshop.Turbo.Abstractions/LinqExtension.cs:71-86 | on an empty dictionary, the code as written throws, while the intended version creates the list |
| `LinqExtension.ToDictionaryOfLists` | OliWorkshop.Turbo.Abstractions/LinqExtension.cs:345-368 | the grouping loop computes `Group` of the items |
| `LinqExtension.GroupKeys` | OliWorkshop.Turbo.Abstractions/LinqExtension.cs:345-368 | the groups' keys are exactly the keys of the items |
| `LinqExtension.GroupLists` | OliWorkshop.Turbo.Abstractions/LinqExtension.cs:345-368 | each group holds exactly the items with its key, in input order |
| `LinqExtension.GroupTotalLength` | OliWorkshop.Turbo.Abstractions/LinqExtension.cs:345-368 | the groups together hold exactly as many items as the input |
| `LinqExtension.FoldAppend` | OliWorkshop.Turbo.Abstractions/LinqExtension.cs:418-430 | reducing a concatenation is reducing the second part from the first part's result; a reducer exception in the first part ends the whole reduction |
| `LinqExtension.FoldFirstError` | OliWorkshop.Turbo.Abstractions/LinqExtension.cs:418-430 | a reduction that throws threw at one element, every reducer call before it having returned, and the exception is the reducer's own |
| `LinqExtension.Reduce` | OliWorkshop.Turbo.Abstractions/LinqExtension.cs:418-430 | the reduce loop computes the left fold of the reducer from the initial value, and the reducer's first exception escapes |
| `LinqExtension.Generate` | OliWorkshop.Turbo.Abstractions/LinqExtension.cs:496-510 | a negative count raises OverflowException; the result is an array if and only if every seeder call returns, and then it is new, of that length, with the i-th seeder value at index i; otherwise the exception of the first seeder call that throws escapes |
| `LinqExtension.ThrowIf` | OliWorkshop.Turbo.Abstractions/LinqExtension.cs:157-166 | throws the given exception if and only if some element meets the criteria; otherwise returns the sequence unchanged |
| `LinqExtension.ThrowIfAction` | OliWorkshop.Turbo.Abstractions/LinqExtension.cs:177-185 | calls the action if and only if some element meets the criteria; the action's exception escapes; otherwise the sequence is returned |
| `LinqExtension.ThrowIfFirst` | OliWorkshop.Turbo.Abstractions/LinqExtension.cs:196-211 | calls the action on the first element that meets the criteria, if any; the action's exception escapes; otherwise the sequence is returned |
| `LinqExtension.FirstMatch` | OliWorkshop.Turbo.Abstractions/LinqExtension.cs:196-211 | the index found meets the criteria and no earlier element does |
| `LinqExtension.In` | OliWorkshop.Turbo.Abstractions/LinqExtension.cs:143-146 | keeps exactly the elements whose projection meets the criteria, in order, each as many times as it occurs |
| `LinqExtension.IsHere` | OliWorkshop.Turbo.Abstractions/LinqExtension.cs:443-446 | true if and only if the element occurs among the values |
| `LinqExtension.TakeUntil` | OliWorkshop.Turbo.Abstractions/LinqExtension.cs:481-484 | a null or empty string is returned as it is; otherwise the substring from the offset of the given length, or ArgumentOutOfRangeException when that range is outside the string |
| `LinqExtension.Execute` | OliWorkshop.Turbo.Abstractions/LinqExtension.cs:295-302 | the action is called on a prefix of the elements, in order; the sequence is returned if and only if no call throws; otherwise the last call threw the escaping exception |
| `LinqExtension.ForEach` | OliWorkshop.Turbo.Abstractions/LinqExtension.cs:116-126 | a missing key raises KeyNotFoundException; otherwise the action runs over a prefix of the key's list in order; it succeeds if and only if no call throws; an escaping exception is the action's own on the last element called, and every earlier call returned |

## Left out

- Loading from an `Assembly`, a file path or a directory (`PluginLoader.cs:133-207`, `WorkingDirectory`,
  `FolderOfAssemblies`). These read the file system and `Assembly.LoadFrom`. A loaded assembly is modelled as
  the sequence of its exported types, and those can be loaded with `Load`/`LoadAll`.
- `AssemblyExtension.WithAttribute`: custom attributes are not part of the type model.
- `AssemblyExtension.Instance<TContract>(IServiceProvider)`, `InvokeWithProvider` ×3, `InjectService` and
  `GetArrayServices`. These resolve services from a dependency injection container, which is outside the
  model.
- `AssemblyExtension.InstanceObjects`: the non-generic `Instance(params object[])` passes an empty argument
  array to `Invoke`, where the generic overload passes null. Both reach a parameterless constructor, so the
  model does not tell the two apart.
- `LinqExtension.FilterIf`, `WhereIn`, `WhereAsync`, `IsPredicate`, `CastParameter` and `GetPropertyValue`.
  They work on `IQueryable` expression trees, tasks or reflection over delegate signatures, and the loader
  does not use them.
- `LinqExtension.Delete` (`LinqExtension.cs:282-287`). It calls `list.Remove` from inside a lazy `Where` over
  the same list. After the first removal, the list enumerator's version check throws
  InvalidOperationException. Modelling that needs the enumerator's version counter, which the value model of
  collections does not have. The loader does not use `Delete`.
- The `Dictionary<X, List<T>>` overload of `AddToList` (`LinqExtension.cs:97-103`). Its first statement
  calls itself, because `Dictionary<X, List<T>>` does not convert to `IDictionary<X, IList<T>>`. That call
  never returns, so `return dic` is never reached, every call overflows the stack, and there is no result to
  model.
- `CoreExtensions.GetPluginLoader`: a service-container lookup.
- Null receivers and null elements in collections. Only `PlugComplementaryPlugins` models its explicit null
  checks.
- `PluginModel.FirstOfType` (and so `PlugCode.PluginLoader.Use`): base-type and variance matching are not
  modelled. `Use<TDelegate>()` is `ApiExports.OfType<TDelegate>().First()` (`PluginLoader.cs:267`), and
  `OfType` tests each export with `is`. So `Use<Delegate>()` and `Use<MulticastDelegate>()` match any
  export, and an exported `Action<object>` matches `Use<Action<string>>` by contravariance. The model
  matches a delegate only by its exact type name. In those cases it reports InvalidOperationException where
  the source returns a delegate.
- `AssemblyExtension.WithConstruct`, `AssemblyExtension.SelectConstruct`, `AssemblyExtension.InstanceOf`:
  constructor lookup by parameter types uses exact equality of type names. .NET's `GetConstructor(Type[])`
  selects through the default binder, which has two behaviours the model lacks:
  - It also accepts a constructor whose parameter types the argument types are assignable to, such as
    `ctor(object)` for a `string` argument. So `Instance<TContract>(args)` (`AssemblyExtension.cs:194-204`)
    builds types that the model drops as having no matching constructor.
  - It throws AmbiguousMatchException when two constructors match equally well. The model raises no such
    exception.
- `PluginModel.WithCapability`, `AssemblyExtension.FromContract`, `AssemblyExtension.WithContract`,
  `AssemblyExtension.InstanceOf`: an interface is matched by its simple name (`GetInterface(name)`), as in
  the source, but two consequences of name matching are not modelled:
  - `GetInterface` throws AmbiguousMatchException when a type implements two interfaces with the same simple
    name from different namespaces (`PluginLoader.cs:363-365`, `AssemblyExtension.cs:29-31`, `:94`).
  - A type that implements only a namesake interface from another namespace passes the name test, but the
    casts that follow then throw InvalidCastException:
    - `(TPlugin)current` (`PluginLoader.cs:366`). This cast runs outside `Plug`'s `try`, so the exception
      escapes `Plug`.
    - `(TContract)x.Invoke(...)` (`AssemblyExtension.cs:202`).
    - `foreach (T instance ...)` (`AssemblyExtension.cs:60`).
  - The model hands such a type or plugin on as if it implemented the contract.
- `LinqExtension.TakeUntil`, `LinqExtension.Split`, `LinqExtension.ParseKeyPairs`: strings are modelled as
  sequences of Unicode scalar values (Dafny's `string`). .NET's `Length`, `Substring` and `Split` count UTF-16
  code units. On text outside the Basic Multilingual Plane the offsets and the bounds check of `TakeUntil`
  differ. For example, `"😀a".Substring(2, 1)` is `"a"` in .NET, while the model raises
  ArgumentOutOfRangeException. Surrogate halves, which .NET can split apart, do not exist in the model.
- `PluginModel.ExportOne`: `ExportApi` returns a lazy `IEnumerable<Delegate>`. The model evaluates it whole,
  so an exception part-way through an enumeration is an exception of the call. `List.AddRange`
  (`PluginLoader.cs:248`) keeps the delegates yielded before such an exception, while the model appends none
  of that provider's delegates.
- Plugins are values. A configuration action's effect is the new property values it returns, not a
  mutation through a shared reference. Aliasing between plugin objects is therefore not modelled.
- Re-entrant callbacks that call back into the same loader are not modelled. Callbacks are functions of
  their arguments only.
- `LinqExtension.ToDictionary`, `LinqExtension.ToDictionaryOfLists`, `LinqExtension.ThrowIf`,
  `LinqExtension.ThrowIfAction`, `LinqExtension.ThrowIfFirst`, `LinqExtension.In`: the key selectors and
  criteria are total functions. In C# they can throw, and the exception escapes the helper. The model does not
  express that. The reducer of `Reduce` and the seeder of `Generate` do return an exception or a value.
- `PluginModel.Event`: constructor calls are not recorded. `CheckAvaliable` (`PluginLoader.cs:374-377`) runs
  every constructor of the batch (the eager `ToArray`) before the first configuration action. The model states
  that order only through `Flush`'s result: a constructor exception ends the batch before any action runs. The
  `Trace` does not show the constructor calls.
- `LinqExtension.ToDictionaryOfLists` calls the key selector a second time for a new key. The model assumes
  the selector is a function, so the second call returns the same key.
- `PlugCode.PluginLoader.Free`, `PlugCode.PluginLoader.FreeWhere`: the source bodies are empty, so these are
  modelled as changing nothing.
- `PluginLoader.cs` keeps `Plugins` and `ApiExports` as `List<T>` fields. The model keeps them as `seq`
  fields that its methods reassign.

## Findings

| source | as written | input that shows it | evidently intended | confidence | as-written member | corrected member |
|---|---|---|---|---|---|---|
| OliWorkshop.Turbo.Abstractions/LinqExtension.cs:71-86 | `AddToList` adds a new list when the key is already present (`Dictionary.Add` then throws ArgumentException) and indexes the dictionary when the key is absent (throwing KeyNotFoundException), so it never succeeds | an empty dictionary and any key: `AddToList(map[], k, v)` throws KeyNotFoundException | append the value to the key's list, creating a one-element list for a new key | not executed | `LinqExtension.AddToList` (`LinqExtension.AddToListNeverAdds`) | `LinqExtension.AddToListIntended` |
