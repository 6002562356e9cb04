/** The reflection pipelines the loader uses to discover and instantiate
    plugin types: each one is a `Where`/`Select` over a sequence of type
    descriptors. Reflection is replaced by `TypeDesc`, a record of what the
    pipelines ask of a type, and a constructor call by an opaque `Factory`. */
module AssemblyExtension {
  import opened Common
  import opened Seqs

  /** What the pipelines read from a `System.Type`. */
  datatype TypeDesc = TypeDesc(
    fullName: string,
    name: string,
    isClass: bool,
    isInterface: bool,
    isAbstract: bool,
    isVisible: bool,
    interfaceNames: set<string>,   // simple names of every interface the type implements
    ctorSigs: seq<seq<string>>)    // parameter type names of each public instance constructor

  /** An argument handed to a constructor; only its runtime type name takes part in constructor selection. */
  datatype Arg = Arg(typeName: string, payload: string)

  /** The observable state of a constructed object (its property values). */
  type Props = map<string, string>

  /** A live object: its runtime type never changes, its state may. */
  datatype Instance = Instance(desc: TypeDesc, props: Props)

  /** A constructor found by `GetConstructor`. */
  datatype Constructor = Constructor(owner: TypeDesc, parameterTypes: seq<string>)

  /** The code of the constructors: the initial state, or the exception the constructor throws. */
  type Factory = (TypeDesc, seq<Arg>) -> Result<Props>

  const NotInterface: string := "The type argument T should be interface"

  /** `t.GetInterface(name) != null`: interfaces are matched by simple name only. */
  predicate HasInterface(t: TypeDesc, name: string)
  {
    name in t.interfaceNames
  }

  /** A generic constraint `where T : I`: `T` implements `I` or is the interface `I` itself. */
  predicate SatisfiesConstraint(t: TypeDesc, name: string)
  {
    HasInterface(t, name) || (t.isInterface && t.name == name)
  }

  /** `t.GetConstructor(sig) != null`. */
  predicate HasConstructor(t: TypeDesc, sig: seq<string>)
  {
    sig in t.ctorSigs
  }

  /** `parameters.Select(x => x.GetType()).ToArray()`. */
  function ArgTypes(args: seq<Arg>): (r: seq<string>)
    ensures |r| == |args| && forall k :: 0 <= k < |args| ==> r[k] == args[k].typeName
  {
    if args == [] then [] else ArgTypes(args[..|args| - 1]) + [args[|args| - 1].typeName]
  }

  function Descs(xs: seq<Instance>): (r: seq<TypeDesc>)
    ensures |r| == |xs| && forall k :: 0 <= k < |xs| ==> r[k] == xs[k].desc
  {
    if xs == [] then [] else Descs(xs[..|xs| - 1]) + [xs[|xs| - 1].desc]
  }

  /** `ConstructorInfo.Invoke`: an abstract class cannot be instantiated, and
      whatever the constructor throws arrives wrapped. */
  function Invoke(t: TypeDesc, args: seq<Arg>, construct: Factory): (r: Result<Instance>)
    ensures t.isAbstract ==> r == Err(MemberAccessException)
    ensures r.Ok? ==> r.value.desc == t && construct(t, args) == Ok(r.value.props)
    ensures !t.isAbstract && construct(t, args).Err? ==>
      r == Err(TargetInvocationException(construct(t, args).error))
  {
    if t.isAbstract then Err(MemberAccessException)
    else match construct(t, args)
      case Ok(p) => Ok(Instance(t, p))
      case Err(e) => Err(TargetInvocationException(e))
  }

  /** `FromContract<T>(assembly)`: the exported classes that have an interface named like `T`. */
  function FromContract(exported: seq<TypeDesc>, contract: TypeDesc): (r: Result<seq<TypeDesc>>)
    ensures r.Err? <==> !contract.isInterface
    ensures r.Err? ==> r.error == ArgumentException(NotInterface)
    ensures r.Ok? ==> forall t :: t in r.value <==> t in exported && t.isClass && HasInterface(t, contract.name)
    ensures r.Ok? ==> IsSubsequence(r.value, exported)
  {
    if !contract.isInterface then Err(ArgumentException(NotInterface))
    else
      var keep := (x: TypeDesc) => x.isClass && HasInterface(x, contract.name);
      FilterMembers(keep, exported);
      FilterIsSubsequence(keep, exported);
      Ok(Filter(keep, exported))
  }

  /** `FromContract<T>(assembly, filter)`. */
  function FromContractWhere(exported: seq<TypeDesc>, contract: TypeDesc, filter: TypeDesc -> bool): (r: Result<seq<TypeDesc>>)
    ensures r.Err? <==> !contract.isInterface
    ensures r.Err? ==> r.error == ArgumentException(NotInterface)
  {
    if !contract.isInterface then Err(ArgumentException(NotInterface))
    else Ok(Filter((x: TypeDesc) => x.isClass && HasInterface(x, contract.name) && filter(x), exported))
  }

  /** The filtered overload is the plain one restricted to the types that pass `filter`. */
  lemma FromContractWhereRestricts(exported: seq<TypeDesc>, contract: TypeDesc, filter: TypeDesc -> bool)
    ensures FromContractWhere(exported, contract, filter).Ok? ==>
      FromContractWhere(exported, contract, filter).value == Filter(filter, FromContract(exported, contract).value)
  {
    if contract.isInterface {
      var keep := (x: TypeDesc) => x.isClass && HasInterface(x, contract.name);
      FilterFilter(keep, filter, (x: TypeDesc) => x.isClass && HasInterface(x, contract.name) && filter(x), exported);
    }
  }

  /** `WithContract<T>`: the types that have an interface named like `T`. */
  function WithContract(types: seq<TypeDesc>, contractName: string): seq<TypeDesc>
  {
    Filter(Implements(contractName), types)
  }

  function Implements(contractName: string): TypeDesc -> bool
  {
    (x: TypeDesc) => HasInterface(x, contractName)
  }

  /** `WithContract` keeps exactly the types with the interface, in input order. */
  lemma WithContractMembers(types: seq<TypeDesc>, contractName: string)
    ensures forall t :: t in WithContract(types, contractName) <==> t in types && HasInterface(t, contractName)
    ensures IsSubsequence(WithContract(types, contractName), types)
    ensures forall t :: multiset(WithContract(types, contractName))[t]
                     == if HasInterface(t, contractName) then multiset(types)[t] else 0
  {
    FilterCounts(Implements(contractName), types);
    FilterMembers(Implements(contractName), types);
    FilterIsSubsequence(Implements(contractName), types);
  }

  /** `WithConstruct`: the types that have a public constructor of exactly the given parameter types. */
  function WithConstruct(types: seq<TypeDesc>, sig: seq<string>): (r: seq<TypeDesc>)
    ensures forall t :: t in r <==> t in types && HasConstructor(t, sig)
    ensures IsSubsequence(r, types)
    ensures forall t :: multiset(r)[t] == if HasConstructor(t, sig) then multiset(types)[t] else 0
  {
    var keep := (x: TypeDesc) => HasConstructor(x, sig);
    FilterCounts(keep, types);
    FilterMembers(keep, types);
    FilterIsSubsequence(keep, types);
    Filter(keep, types)
  }

  /** `SelectConstruct`: the constructor of the given signature of each type
      that has one. `GetConstructor` only returns public constructors, so
      `all` never changes the outcome. */
  function SelectConstruct(types: seq<TypeDesc>, sig: seq<string>, all: bool): (r: seq<Constructor>)
    ensures |r| <= |types|
    ensures forall c :: c in r ==> c.parameterTypes == sig && c.owner in types && HasConstructor(c.owner, sig)
  {
    if types == [] then []
    else
      var t := types[|types| - 1];
      SelectConstruct(types[..|types| - 1], sig, all) + (if HasConstructor(t, sig) then [Constructor(t, sig)] else [])
  }

  function Owners(cs: seq<Constructor>): (r: seq<TypeDesc>)
    ensures |r| == |cs| && forall k :: 0 <= k < |cs| ==> r[k] == cs[k].owner
  {
    if cs == [] then [] else Owners(cs[..|cs| - 1]) + [cs[|cs| - 1].owner]
  }

  /** One constructor per surviving type, in input order: the owners are exactly `WithConstruct`. */
  lemma {:induction false} SelectConstructOwners(types: seq<TypeDesc>, sig: seq<string>, all: bool)
    ensures Owners(SelectConstruct(types, sig, all)) == WithConstruct(types, sig)
  {
    if types != [] {
      SelectConstructOwners(types[..|types| - 1], sig, all);
      var t := types[|types| - 1];
      var tail := if HasConstructor(t, sig) then [Constructor(t, sig)] else [];
      OwnersAppend(SelectConstruct(types[..|types| - 1], sig, all), tail);
    }
  }

  lemma OwnersAppend(a: seq<Constructor>, b: seq<Constructor>)
    ensures Owners(a + b) == Owners(a) + Owners(b)
  {
    assert |Owners(a + b)| == |Owners(a) + Owners(b)|;
  }

  /** `WhereIs<T>`: the types equal to `T`. */
  function WhereIs(types: seq<TypeDesc>, target: TypeDesc): (r: seq<TypeDesc>)
    ensures forall t :: t in r ==> t == target
    ensures |r| == multiset(types)[target]
  {
    var keep := (x: TypeDesc) => x == target;
    FilterMembers(keep, types);
    FilterMultiplicity(keep, types, target);
    MultisetOfOne(Filter(keep, types), target);
    Filter(keep, types)
  }

  lemma MultisetOfOne(s: seq<TypeDesc>, x: TypeDesc)
    requires forall t :: t in s ==> t == x
    ensures multiset(s)[x] == |s|
  {
    if s != [] {
      assert forall t :: t in s[1..] ==> t in s;
      MultisetOfOne(s[1..], x);
      assert s == [s[0]] + s[1..];
      assert s[0] in s;
      assert multiset(s) == multiset{s[0]} + multiset(s[1..]);
    }
  }

  /** `CanBeIntanceable`: the concrete, visible types, in input order. */
  function CanBeInstanceable(types: seq<TypeDesc>): (r: seq<TypeDesc>)
    ensures forall t :: t in r <==> t in types && !t.isAbstract && t.isVisible
    ensures IsSubsequence(r, types)
    ensures forall t :: multiset(r)[t] == if !t.isAbstract && t.isVisible then multiset(types)[t] else 0
  {
    var keep := (x: TypeDesc) => !x.isAbstract && x.isVisible;
    FilterCounts(keep, types);
    FilterMembers(keep, types);
    FilterIsSubsequence(keep, types);
    Filter(keep, types)
  }

  /** Instantiates each type in order (`Select(Invoke).ToArray()`), stopping at the first exception. */
  function InvokeAll(types: seq<TypeDesc>, args: seq<Arg>, construct: Factory): (r: Result<seq<Instance>>)
    ensures r.Ok? ==> Descs(r.value) == types
    ensures r.Err? ==> exists k :: 0 <= k < |types| && Invoke(types[k], args, construct) == Err(r.error)
  {
    if types == [] then Ok([])
    else
      match InvokeAll(types[..|types| - 1], args, construct)
      case Err(e) => Err(e)
      case Ok(xs) =>
        match Invoke(types[|types| - 1], args, construct)
        case Err(e) => Err(e)
        case Ok(x) => Ok(xs + [x])
  }

  /** On success, each instance is what its type's constructor built, in order. */
  lemma {:induction false} InvokeAllBuilt(types: seq<TypeDesc>, args: seq<Arg>, construct: Factory)
    requires InvokeAll(types, args, construct).Ok?
    ensures var xs := InvokeAll(types, args, construct).value;
      forall i :: 0 <= i < |types| ==> Invoke(types[i], args, construct) == Ok(xs[i])
  {
    if types != [] {
      var n := |types| - 1;
      InvokeAllBuilt(types[..n], args, construct);
      PrefixOfPrefix(types, n);
    }
  }

  /** On failure, the exception is that of the first constructor that throws: every type before it was built. */
  lemma {:induction false} InvokeAllFirstError(types: seq<TypeDesc>, args: seq<Arg>, construct: Factory) returns (k: nat)
    requires InvokeAll(types, args, construct).Err?
    ensures k < |types| && InvokeAll(types[..k], args, construct).Ok?
    ensures Invoke(types[k], args, construct) == Err(InvokeAll(types, args, construct).error)
  {
    var n := |types| - 1;
    if InvokeAll(types[..n], args, construct).Err? {
      k := InvokeAllFirstError(types[..n], args, construct);
      assert types[..n][..k] == types[..k];
    } else {
      k := n;
    }
  }

  lemma PrefixOfPrefix<T>(xs: seq<T>, n: nat)
    requires n <= |xs|
    ensures forall k :: 0 <= k < n ==> xs[..n][..k] == xs[..k] && xs[..n][k] == xs[k]
  {
  }

  /** Instantiating a list succeeds only when none of its types is abstract. */
  lemma {:induction false} InvokeAllConcrete(types: seq<TypeDesc>, args: seq<Arg>, construct: Factory)
    requires InvokeAll(types, args, construct).Ok?
    ensures forall k :: 0 <= k < |types| ==> !types[k].isAbstract
  {
    if types != [] {
      var n := |types| - 1;
      InvokeAllConcrete(types[..n], args, construct);
      assert forall k :: 0 <= k < n ==> types[..n][k] == types[k];
    }
  }

  /** The types `Instance<TContract>(parameters)` instantiates. */
  function Instantiable(types: seq<TypeDesc>, contractName: string, args: seq<Arg>): seq<TypeDesc>
  {
    Owners(SelectConstruct(WithContract(types, contractName), ArgTypes(args), false))
  }

  /** `Instance<TContract>(params object[] parameters)`: the types that have an
      interface named like `TContract` and a constructor for the arguments'
      types, instantiated in order; an empty argument list is passed as null. */
  function InstanceOf(types: seq<TypeDesc>, contractName: string, args: seq<Arg>, construct: Factory): (r: Result<seq<Instance>>)
  {
    InvokeAll(Instantiable(types, contractName, args), if |args| < 1 then [] else args, construct)
  }

  /** `Instance(params object[] parameters)`: every type that has a constructor
      for the arguments' types is instantiated, in order, whatever its contract. */
  function InstanceObjects(types: seq<TypeDesc>, args: seq<Arg>, construct: Factory): (r: Result<seq<Instance>>)
    ensures r.Ok? ==> Descs(r.value) == WithConstruct(types, ArgTypes(args))
  {
    SelectConstructOwners(types, ArgTypes(args), false);
    InvokeAll(Owners(SelectConstruct(types, ArgTypes(args), false)), args, construct)
  }

  /** The generic overload is the non-generic one applied to the types with the contract. */
  lemma InstanceOfRestricts(types: seq<TypeDesc>, contractName: string, args: seq<Arg>, construct: Factory)
    ensures InstanceOf(types, contractName, args, construct)
         == InstanceObjects(WithContract(types, contractName), args, construct)
  {
    assert (if |args| < 1 then [] else args) == args;
  }

  /** Exactly the types matching the contract by name and having a suitable constructor are instantiated, in input order. */
  lemma InstantiableIsFilter(types: seq<TypeDesc>, contractName: string, args: seq<Arg>)
    ensures Instantiable(types, contractName, args)
         == Filter(t => HasInterface(t, contractName) && HasConstructor(t, ArgTypes(args)), types)
    ensures |Instantiable(types, contractName, args)| <= |types|
  {
    var sig := ArgTypes(args);
    SelectConstructOwners(WithContract(types, contractName), sig, false);
    var q := (x: TypeDesc) => HasConstructor(x, sig);
    FilterFilter(Implements(contractName), q, (t: TypeDesc) => HasInterface(t, contractName) && HasConstructor(t, ArgTypes(args)), types);
  }

  /** Types without a match or a suitable constructor are dropped, never a reason to throw:
      only a constructor that is actually invoked can make `InstanceOf` fail. */
  lemma InstanceOfDropsSilently(types: seq<TypeDesc>, contractName: string, args: seq<Arg>, construct: Factory)
    requires forall t :: t in types && HasInterface(t, contractName) && HasConstructor(t, ArgTypes(args)) ==>
      !t.isAbstract && construct(t, if |args| < 1 then [] else args).Ok?
    ensures InstanceOf(types, contractName, args, construct).Ok?
    ensures Descs(InstanceOf(types, contractName, args, construct).value)
         == Filter(t => HasInterface(t, contractName) && HasConstructor(t, ArgTypes(args)), types)
  {
    InstantiableIsFilter(types, contractName, args);
    var cands := Instantiable(types, contractName, args);
    FilterMembers((t: TypeDesc) => HasInterface(t, contractName) && HasConstructor(t, ArgTypes(args)), types);
    InvokeAllSucceeds(cands, if |args| < 1 then [] else args, construct);
  }

  lemma {:induction false} InvokeAllSucceeds(types: seq<TypeDesc>, args: seq<Arg>, construct: Factory)
    requires forall t :: t in types ==> !t.isAbstract && construct(t, args).Ok?
    ensures InvokeAll(types, args, construct).Ok?
  {
    if types != [] {
      InvokeAllSucceeds(types[..|types| - 1], args, construct);
      assert types[|types| - 1] in types;
    }
  }

  /** What `CreateInstances` did: the instances handed to the action, in order, and the exception that ended it, if any. */
  datatype Visit = Visit(called: seq<Instance>, error: Option<Exception>)

  /** The lazy `Select` interleaves construction and the action: construct one, act on it, construct the next. */
  function CreateRun(cands: seq<TypeDesc>, construct: Factory, action: Instance -> Option<Exception>): (r: Visit)
    ensures |r.called| <= |cands|
    ensures r.error.None? ==> |r.called| == |cands|
  {
    if cands == [] then Visit([], None)
    else
      var p := CreateRun(cands[..|cands| - 1], construct, action);
      if p.error.Some? then p
      else
        match Invoke(cands[|cands| - 1], [], construct)
        case Err(e) => Visit(p.called, Some(e))
        case Ok(x) => Visit(p.called + [x], action(x))
  }

  /** Every instance `CreateInstances` acted on was built by its candidate's constructor, in order. */
  lemma {:induction false} CreateRunBuilt(cands: seq<TypeDesc>, construct: Factory, action: Instance -> Option<Exception>)
    ensures var r := CreateRun(cands, construct, action);
      forall i :: 0 <= i < |r.called| ==> Invoke(cands[i], [], construct) == Ok(r.called[i])
  {
    if cands != [] {
      var n := |cands| - 1;
      var p := CreateRun(cands[..n], construct, action);
      var r := CreateRun(cands, construct, action);
      CreateRunBuilt(cands[..n], construct, action);
      if p.error.None? && Invoke(cands[n], [], construct).Ok? {
        assert r.called == p.called + [Invoke(cands[n], [], construct).value];
      } else {
        assert r.called == p.called;
      }
      forall i | 0 <= i < |r.called|
        ensures Invoke(cands[i], [], construct) == Ok(r.called[i])
      {
        if i < |p.called| {
          assert cands[..n][i] == cands[i];
        }
      }
    }
  }

  /** The types of the instances acted on are a prefix of the candidates. */
  lemma CreateRunPrefix(cands: seq<TypeDesc>, construct: Factory, action: Instance -> Option<Exception>)
    ensures var r := CreateRun(cands, construct, action);
      Descs(r.called) == cands[..|r.called|]
  {
    CreateRunBuilt(cands, construct, action);
  }

  /** `CreateInstances` stops at the first exception: every action but the last returned
      normally, and an exception came either from the action on the last instance or from
      the next candidate's constructor. */
  lemma {:induction false} CreateRunStops(cands: seq<TypeDesc>, construct: Factory, action: Instance -> Option<Exception>)
    ensures var r := CreateRun(cands, construct, action);
      && (forall i :: 0 <= i < |r.called| - 1 ==> action(r.called[i]).None?)
      && (r.error.None? ==> r.called == [] || action(r.called[|r.called| - 1]).None?)
      && (r.error.Some? ==> ActionFailed(r, action) || ConstructorFailed(r, cands, construct, action))
  {
    if cands != [] {
      var n := |cands| - 1;
      var p := CreateRun(cands[..n], construct, action);
      var r := CreateRun(cands, construct, action);
      CreateRunStops(cands[..n], construct, action);
      if p.error.Some? {
        assert r == p;
        if !ActionFailed(p, action) {
          assert cands[..n][|p.called|] == cands[|p.called|];
        }
      } else if Invoke(cands[n], [], construct).Err? {
        assert r == Visit(p.called, Some(Invoke(cands[n], [], construct).error));
        assert |p.called| == n;
        assert ConstructorFailed(r, cands, construct, action);
      } else {
        var x := Invoke(cands[n], [], construct).value;
        assert r == Visit(p.called + [x], action(x));
        forall i | 0 <= i < |r.called| - 1
          ensures action(r.called[i]).None?
        {
          assert r.called[i] == p.called[i];
        }
      }
    }
  }

  /** The run ended because the action threw on the last instance built. */
  predicate ActionFailed(r: Visit, action: Instance -> Option<Exception>)
  {
    r.called != [] && action(r.called[|r.called| - 1]) == r.error
  }

  /** The run ended because the next candidate's constructor threw, after every action so far succeeded. */
  predicate ConstructorFailed(r: Visit, cands: seq<TypeDesc>, construct: Factory, action: Instance -> Option<Exception>)
  {
    && r.error.Some?
    && |r.called| < |cands|
    && (r.called == [] || action(r.called[|r.called| - 1]).None?)
    && Invoke(cands[|r.called|], [], construct) == Err(r.error.value)
  }

  /** `CreateInstances<T>(assembly, action)`. */
  function CreateInstances(exported: seq<TypeDesc>, contract: TypeDesc, construct: Factory, action: Instance -> Option<Exception>): (r: Visit)
    ensures !contract.isInterface ==> r == Visit([], Some(ArgumentException(NotInterface)))
  {
    if !contract.isInterface then Visit([], Some(ArgumentException(NotInterface)))
    else CreateRun(Filter((x: TypeDesc) => x.isClass && HasInterface(x, contract.name) && HasConstructor(x, []), exported), construct, action)
  }

  /** The action runs once per exported class implementing the contract by name with a parameterless constructor, in order. */
  lemma CreateInstancesCalls(exported: seq<TypeDesc>, contract: TypeDesc, construct: Factory, action: Instance -> Option<Exception>)
    requires contract.isInterface
    ensures var r := CreateInstances(exported, contract, construct, action);
      var cands := Filter((x: TypeDesc) => x.isClass && HasInterface(x, contract.name) && HasConstructor(x, []), exported);
      && Descs(r.called) == cands[..|r.called|]
      && (r.error.None? ==> Descs(r.called) == cands)
      && forall t :: t in Descs(r.called) ==> t in exported && t.isClass && HasInterface(t, contract.name) && HasConstructor(t, [])
  {
    var keep := (x: TypeDesc) => x.isClass && HasInterface(x, contract.name) && HasConstructor(x, []);
    FilterMembers(keep, exported);
    var r := CreateInstances(exported, contract, construct, action);
    var cands := Filter(keep, exported);
    CreateRunPrefix(cands, construct, action);
    forall t | t in Descs(r.called) ensures t in cands { }
  }
}
