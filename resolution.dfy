/**
 * Resolving the configured plugins into the list of active checks
 * (get_all_active_checks). Plugin lookup, plugin construction and the
 * attribute lookup of a check type are given as a registry value.
 */
module Resolution {
  import opened Wrappers
  import opened Config
  import opened Records
  import Naming
  import Dependency

  /** What `getattr(plugin, type)` finds when the attribute exists: a falsy value or a check method. */
  datatype Attribute = Falsy | Callable

  /** The arguments of the DependencyError a plugin's constructor raises. */
  datatype MissingDependency = MissingDependency(plugin: string, depName: string, pypi: string, deb: string)

  /**
   * A registered plugin class: whether constructing it raises DependencyError,
   * and its attributes by name.
   */
  datatype PluginClass = PluginClass(dependency: Option<MissingDependency>, attributes: map<string, Attribute>)

  /** The plugin register, by plugin name; a name it lacks makes get_plugin raise ValueError. */
  type Registry = map<string, PluginClass>

  /** Why resolution ends without a list of checks. */
  datatype ResolveError =
    | UnknownPlugin(plugin: string)                        // get_plugin raised: printed, exit(1)
    | NoSuchAttribute(plugin: string, checkType: string)   // getattr raised AttributeError
    | UnknownCheck(plugin: string, checkType: string)      // attribute is falsy: printed, exit(1)
    | DependencyErrors(messages: seq<string>)              // every collected message printed, exit(1)

  function DependencyMessage(m: MissingDependency): string
  {
    Dependency.Message(m.plugin, m.depName, m.pypi, m.deb)
  }

  function MakeCheck(plugin: string, entry: CheckEntry): Check
  {
    Check(Naming.CheckName(entry, plugin), plugin, entry.checkType)
  }

  /** One check per entry, in entry order, each with its derived name. */
  function CheckList(plugin: string, entries: seq<CheckEntry>): (r: seq<Check>)
    ensures |r| == |entries|
  {
    if entries == [] then [] else [MakeCheck(plugin, entries[0])] + CheckList(plugin, entries[1..])
  }

  lemma {:induction false} CheckListAt(plugin: string, entries: seq<CheckEntry>, j: nat)
    requires j < |entries|
    ensures CheckList(plugin, entries)[j] == MakeCheck(plugin, entries[j])
    decreases |entries|
  {
    if j > 0 {
      CheckListAt(plugin, entries[1..], j - 1);
    }
  }

  /** The inner loop over one constructed plugin's check entries, appending to `acc`. */
  function PluginChecks(plugin: string, cls: PluginClass, entries: seq<CheckEntry>, acc: seq<Check>): (r: Result<seq<Check>, ResolveError>)
    ensures r.Ok? ==> acc <= r.value && |r.value| == |acc| + |entries|
    ensures r.Err? ==> (r.error.NoSuchAttribute? || r.error.UnknownCheck?) && r.error.plugin == plugin
    decreases |entries|
  {
    if entries == [] then Ok(acc)
    else
      var entry := entries[0];
      if entry.checkType !in cls.attributes then Err(NoSuchAttribute(plugin, entry.checkType))
      else if cls.attributes[entry.checkType].Falsy? then Err(UnknownCheck(plugin, entry.checkType))
      else PluginChecks(plugin, cls, entries[1..], acc + [MakeCheck(plugin, entry)])
  }

  /** The outer loop over the plugins, with the checks and dependency messages collected so far. */
  function ResolveFrom(plugins: seq<PluginEntry>, registry: Registry, checks: seq<Check>, errors: seq<string>): (r: Result<seq<Check>, ResolveError>)
    ensures r.Ok? ==> errors == [] && checks <= r.value
    ensures r.Err? && r.error.DependencyErrors? ==> errors <= r.error.messages && r.error.messages != []
    decreases |plugins|
  {
    if plugins == [] then
      if errors != [] then Err(DependencyErrors(errors)) else Ok(checks)
    else
      var p := plugins[0];
      if p.name !in registry then Err(UnknownPlugin(p.name))
      else
        var cls := registry[p.name];
        if cls.dependency.Some? then
          ResolveFrom(plugins[1..], registry, checks, errors + [DependencyMessage(cls.dependency.value)])
        else
          match PluginChecks(p.name, cls, p.checks, checks)
          case Err(e) => Err(e)
          case Ok(extended) => ResolveFrom(plugins[1..], registry, extended, errors)
  }

  function Resolve(plugins: seq<PluginEntry>, registry: Registry): (r: Result<seq<Check>, ResolveError>)
    ensures r.Err? && r.error.DependencyErrors? ==> r.error.messages != []
  {
    ResolveFrom(plugins, registry, [], [])
  }

  // ---- An independent description of the outcome ----

  /** Every check type of a constructed plugin names a check method. */
  predicate ChecksResolvable(cls: PluginClass, entries: seq<CheckEntry>)
  {
    forall i :: 0 <= i < |entries| ==>
      entries[i].checkType in cls.attributes && cls.attributes[entries[i].checkType].Callable?
  }

  /** No plugin is unknown, and every plugin that constructs has only resolvable check types. */
  predicate NoFatalError(plugins: seq<PluginEntry>, registry: Registry)
  {
    forall k :: 0 <= k < |plugins| ==>
      plugins[k].name in registry &&
      (registry[plugins[k].name].dependency.None? ==> ChecksResolvable(registry[plugins[k].name], plugins[k].checks))
  }

  /** A check entry whose type the constructed plugin lacks, or has only as a falsy attribute. */
  predicate BadEntry(cls: PluginClass, entry: CheckEntry)
  {
    !(entry.checkType in cls.attributes && cls.attributes[entry.checkType].Callable?)
  }

  /** The error a bad entry ends resolution with. */
  function EntryError(plugin: string, cls: PluginClass, entry: CheckEntry): ResolveError
  {
    if entry.checkType !in cls.attributes then NoSuchAttribute(plugin, entry.checkType)
    else UnknownCheck(plugin, entry.checkType)
  }

  /** The index of the first bad entry. */
  function FirstBadEntry(cls: PluginClass, entries: seq<CheckEntry>): (i: nat)
    requires !ChecksResolvable(cls, entries)
    ensures i < |entries| && BadEntry(cls, entries[i])
    ensures forall j :: 0 <= j < i ==> !BadEntry(cls, entries[j])
    decreases |entries|
  {
    if BadEntry(cls, entries[0]) then 0
    else
      assert !ChecksResolvable(cls, entries[1..]) by {
        var i :| 0 <= i < |entries| && BadEntry(cls, entries[i]);
        assert entries[1..][i - 1] == entries[i];
      }
      1 + FirstBadEntry(cls, entries[1..])
  }

  /** A plugin that is unknown, or that constructs and has a bad entry. */
  predicate Fatal(p: PluginEntry, registry: Registry)
  {
    p.name !in registry || (registry[p.name].dependency.None? && !ChecksResolvable(registry[p.name], p.checks))
  }

  /** The index of the first fatal plugin. */
  function FirstFatalPlugin(plugins: seq<PluginEntry>, registry: Registry): (k: nat)
    requires !NoFatalError(plugins, registry)
    ensures k < |plugins| && Fatal(plugins[k], registry)
    ensures forall m :: 0 <= m < k ==> !Fatal(plugins[m], registry)
    decreases |plugins|
  {
    if Fatal(plugins[0], registry) then 0
    else
      assert !NoFatalError(plugins[1..], registry) by {
        var k :| 0 <= k < |plugins| && Fatal(plugins[k], registry);
        assert plugins[1..][k - 1] == plugins[k];
      }
      1 + FirstFatalPlugin(plugins[1..], registry)
  }

  /**
   * The error resolution ends with when some plugin is fatal: the first fatal
   * plugin's, unknown-plugin if it is unknown, otherwise that of its first bad entry.
   */
  function FirstFatal(plugins: seq<PluginEntry>, registry: Registry): ResolveError
    requires !NoFatalError(plugins, registry)
  {
    var p := plugins[FirstFatalPlugin(plugins, registry)];
    if p.name !in registry then UnknownPlugin(p.name)
    else
      var cls := registry[p.name];
      EntryError(p.name, cls, p.checks[FirstBadEntry(cls, p.checks)])
  }

  /** The dependency messages of all plugins whose construction fails, in plugin order. */
  function DependencyMessages(plugins: seq<PluginEntry>, registry: Registry): seq<string>
    requires NoFatalError(plugins, registry)
  {
    if plugins == [] then []
    else
      var cls := registry[plugins[0].name];
      (if cls.dependency.Some? then [DependencyMessage(cls.dependency.value)] else [])
      + DependencyMessages(plugins[1..], registry)
  }

  /** The checks of all plugins that construct: one per entry, with its derived name, in order. */
  function ActiveChecks(plugins: seq<PluginEntry>, registry: Registry): seq<Check>
    requires NoFatalError(plugins, registry)
  {
    if plugins == [] then []
    else
      var p := plugins[0];
      (if registry[p.name].dependency.None? then CheckList(p.name, p.checks) else [])
      + ActiveChecks(plugins[1..], registry)
  }

  lemma {:induction false} PluginChecksOk(plugin: string, cls: PluginClass, entries: seq<CheckEntry>, acc: seq<Check>)
    requires ChecksResolvable(cls, entries)
    ensures PluginChecks(plugin, cls, entries, acc) == Ok(acc + CheckList(plugin, entries))
    decreases |entries|
  {
    if entries != [] {
      var rest := entries[1..];
      var first := MakeCheck(plugin, entries[0]);
      assert ChecksResolvable(cls, rest) by {
        forall i | 0 <= i < |rest| ensures rest[i] == entries[i + 1] { }
      }
      assert entries[0].checkType in cls.attributes && cls.attributes[entries[0].checkType].Callable?;
      assert PluginChecks(plugin, cls, entries, acc) == PluginChecks(plugin, cls, rest, acc + [first]);
      PluginChecksOk(plugin, cls, rest, acc + [first]);
      assert CheckList(plugin, entries) == [first] + CheckList(plugin, rest);
      assert acc + [first] + CheckList(plugin, rest) == acc + ([first] + CheckList(plugin, rest));
    } else {
      assert acc + CheckList(plugin, entries) == acc;
    }
  }

  /** A plugin with a bad entry stops at its first bad entry, with that entry's error. */
  lemma {:induction false} PluginChecksFails(plugin: string, cls: PluginClass, entries: seq<CheckEntry>, acc: seq<Check>)
    requires !ChecksResolvable(cls, entries)
    ensures PluginChecks(plugin, cls, entries, acc) == Err(EntryError(plugin, cls, entries[FirstBadEntry(cls, entries)]))
    decreases |entries|
  {
    var entry := entries[0];
    if !BadEntry(cls, entry) {
      var rest := entries[1..];
      assert FirstBadEntry(cls, entries) == 1 + FirstBadEntry(cls, rest);
      assert rest[FirstBadEntry(cls, rest)] == entries[FirstBadEntry(cls, entries)];
      PluginChecksFails(plugin, cls, rest, acc + [MakeCheck(plugin, entry)]);
    }
  }

  /** What ResolveFrom gives from a collected state when no fatal error lies ahead. */
  function Expected(plugins: seq<PluginEntry>, registry: Registry, checks: seq<Check>, errors: seq<string>): Result<seq<Check>, ResolveError>
    requires NoFatalError(plugins, registry)
  {
    var all := errors + DependencyMessages(plugins, registry);
    if all != [] then Err(DependencyErrors(all)) else Ok(checks + ActiveChecks(plugins, registry))
  }

  lemma NoFatalErrorTail(plugins: seq<PluginEntry>, registry: Registry)
    requires plugins != [] && NoFatalError(plugins, registry)
    ensures NoFatalError(plugins[1..], registry)
  {
    var rest := plugins[1..];
    forall k | 0 <= k < |rest| ensures rest[k] == plugins[k + 1] { }
  }

  lemma {:induction false} ResolveFromNoFatal(plugins: seq<PluginEntry>, registry: Registry, checks: seq<Check>, errors: seq<string>)
    requires NoFatalError(plugins, registry)
    ensures ResolveFrom(plugins, registry, checks, errors) == Expected(plugins, registry, checks, errors)
    decreases |plugins|
  {
    if plugins != [] {
      var p := plugins[0];
      assert p.name in registry;
      var cls := registry[p.name];
      NoFatalErrorTail(plugins, registry);
      if cls.dependency.Some? {
        SkipFailingPlugin(plugins, registry, checks, errors);
      } else {
        KeepConstructedPlugin(plugins, registry, checks, errors);
      }
    } else {
      assert errors + DependencyMessages(plugins, registry) == errors;
      assert checks + ActiveChecks(plugins, registry) == checks;
    }
  }

  lemma {:induction false} SkipFailingPlugin(plugins: seq<PluginEntry>, registry: Registry, checks: seq<Check>, errors: seq<string>)
    requires plugins != [] && NoFatalError(plugins, registry)
    requires registry[plugins[0].name].dependency.Some?
    ensures ResolveFrom(plugins, registry, checks, errors) == Expected(plugins, registry, checks, errors)
    decreases |plugins|, 0
  {
    var rest := plugins[1..];
    NoFatalErrorTail(plugins, registry);
    var cls := registry[plugins[0].name];
    var e := [DependencyMessage(cls.dependency.value)];
    assert ResolveFrom(plugins, registry, checks, errors) == ResolveFrom(rest, registry, checks, errors + e);
    ResolveFromNoFatal(rest, registry, checks, errors + e);
    assert DependencyMessages(plugins, registry) == e + DependencyMessages(rest, registry);
    assert errors + e + DependencyMessages(rest, registry) == errors + DependencyMessages(plugins, registry);
    assert ActiveChecks(plugins, registry) == ActiveChecks(rest, registry);
  }

  lemma {:induction false} KeepConstructedPlugin(plugins: seq<PluginEntry>, registry: Registry, checks: seq<Check>, errors: seq<string>)
    requires plugins != [] && NoFatalError(plugins, registry)
    requires registry[plugins[0].name].dependency.None?
    ensures ResolveFrom(plugins, registry, checks, errors) == Expected(plugins, registry, checks, errors)
    decreases |plugins|, 0
  {
    var p := plugins[0];
    NoFatalErrorTail(plugins, registry);
    var extended := checks + CheckList(p.name, p.checks);
    PluginChecksOk(p.name, registry[p.name], p.checks, checks);
    ConstructedPluginStep(plugins, registry, checks, errors, extended);
    ResolveFromNoFatal(plugins[1..], registry, extended, errors);
    ExpectedStep(plugins, registry, checks, errors);
  }

  /** Expected over a plugin that constructs is Expected over the rest, with its checks added. */
  lemma ExpectedStep(plugins: seq<PluginEntry>, registry: Registry, checks: seq<Check>, errors: seq<string>)
    requires plugins != [] && NoFatalError(plugins, registry)
    requires registry[plugins[0].name].dependency.None?
    ensures NoFatalError(plugins[1..], registry)
    ensures Expected(plugins, registry, checks, errors)
         == Expected(plugins[1..], registry, checks + CheckList(plugins[0].name, plugins[0].checks), errors)
  {
    var rest := plugins[1..];
    var mine := CheckList(plugins[0].name, plugins[0].checks);
    ConstructedPluginParts(plugins, registry);
    var all := errors + DependencyMessages(rest, registry);
    ConcatAssoc(checks, mine, ActiveChecks(rest, registry));
    assert Expected(plugins, registry, checks, errors)
        == if all != [] then Err(DependencyErrors(all)) else Ok(checks + (mine + ActiveChecks(rest, registry)));
  }

  lemma ConcatAssoc<T>(a: seq<T>, b: seq<T>, c: seq<T>)
    ensures a + b + c == a + (b + c)
  {
  }

  /** One step of the outer loop over a plugin that constructs and resolves all its checks. */
  lemma ConstructedPluginStep(plugins: seq<PluginEntry>, registry: Registry, checks: seq<Check>, errors: seq<string>, extended: seq<Check>)
    requires plugins != [] && plugins[0].name in registry
    requires registry[plugins[0].name].dependency.None?
    requires PluginChecks(plugins[0].name, registry[plugins[0].name], plugins[0].checks, checks) == Ok(extended)
    ensures ResolveFrom(plugins, registry, checks, errors) == ResolveFrom(plugins[1..], registry, extended, errors)
  {
  }

  /** A plugin that constructs adds its checks and no dependency message. */
  lemma ConstructedPluginParts(plugins: seq<PluginEntry>, registry: Registry)
    requires plugins != [] && NoFatalError(plugins, registry)
    requires registry[plugins[0].name].dependency.None?
    ensures NoFatalError(plugins[1..], registry)
    ensures DependencyMessages(plugins, registry) == DependencyMessages(plugins[1..], registry)
    ensures ActiveChecks(plugins, registry) == CheckList(plugins[0].name, plugins[0].checks) + ActiveChecks(plugins[1..], registry)
  {
    NoFatalErrorTail(plugins, registry);
    assert DependencyMessages(plugins, registry) == [] + DependencyMessages(plugins[1..], registry);
  }

  /** ResolveFrom, from any collected state, when a fatal error lies ahead: it ends in the first one. */
  lemma {:induction false} ResolveFromFatal(plugins: seq<PluginEntry>, registry: Registry, checks: seq<Check>, errors: seq<string>)
    requires !NoFatalError(plugins, registry)
    ensures ResolveFrom(plugins, registry, checks, errors) == Err(FirstFatal(plugins, registry))
    decreases |plugins|
  {
    var p := plugins[0];
    if Fatal(p, registry) {
      assert FirstFatalPlugin(plugins, registry) == 0;
      if p.name in registry {
        PluginChecksFails(p.name, registry[p.name], p.checks, checks);
      }
    } else {
      SkipHarmlessPlugin(plugins, registry, checks, errors);
    }
  }

  /** A plugin that is not fatal moves resolution on to the rest, whose first fatal error is the same. */
  lemma {:induction false} SkipHarmlessPlugin(plugins: seq<PluginEntry>, registry: Registry, checks: seq<Check>, errors: seq<string>)
    requires !NoFatalError(plugins, registry) && !Fatal(plugins[0], registry)
    ensures ResolveFrom(plugins, registry, checks, errors) == Err(FirstFatal(plugins, registry))
    decreases |plugins|, 0
  {
    var p := plugins[0];
    var rest := plugins[1..];
    var cls := registry[p.name];
    assert FirstFatalPlugin(plugins, registry) == 1 + FirstFatalPlugin(rest, registry);
    assert rest[FirstFatalPlugin(rest, registry)] == plugins[FirstFatalPlugin(plugins, registry)];
    assert FirstFatal(plugins, registry) == FirstFatal(rest, registry);
    if cls.dependency.Some? {
      ResolveFromFatal(rest, registry, checks, errors + [DependencyMessage(cls.dependency.value)]);
    } else {
      PluginChecksOk(p.name, cls, p.checks, checks);
      ResolveFromFatal(rest, registry, checks + CheckList(p.name, p.checks), errors);
    }
  }

  /**
   * The outcome of resolution. Without a fatal error (unknown plugin, missing
   * or falsy check attribute), the dependency messages of ALL failing plugins
   * are collected and resolution fails with them if there is any; otherwise it
   * yields one check per entry of every plugin, in order. A fatal error ends
   * resolution with the first one, never with collected dependency messages.
   */
  lemma ResolveOutcome(plugins: seq<PluginEntry>, registry: Registry)
    ensures NoFatalError(plugins, registry) ==>
      Resolve(plugins, registry)
        == if DependencyMessages(plugins, registry) != [] then Err(DependencyErrors(DependencyMessages(plugins, registry)))
           else Ok(ActiveChecks(plugins, registry))
    ensures !NoFatalError(plugins, registry) ==> Resolve(plugins, registry) == Err(FirstFatal(plugins, registry))
  {
    if NoFatalError(plugins, registry) {
      ResolveFromNoFatal(plugins, registry, [], []);
      assert [] + DependencyMessages(plugins, registry) == DependencyMessages(plugins, registry);
      assert [] + ActiveChecks(plugins, registry) == ActiveChecks(plugins, registry);
    } else {
      ResolveFromFatal(plugins, registry, [], []);
    }
  }

  /** Resolution succeeds exactly when no fatal error occurs and no plugin has a missing dependency. */
  lemma ResolveSucceedsIff(plugins: seq<PluginEntry>, registry: Registry)
    ensures Resolve(plugins, registry).Ok? <==>
      NoFatalError(plugins, registry) && DependencyMessages(plugins, registry) == []
  {
    ResolveOutcome(plugins, registry);
  }

  /** Every check entry of a plugin that constructs yields its check among the active ones. */
  lemma {:induction false} ActiveChecksNamed(plugins: seq<PluginEntry>, registry: Registry, k: nat, j: nat)
    requires NoFatalError(plugins, registry)
    requires k < |plugins| && j < |plugins[k].checks| && registry[plugins[k].name].dependency.None?
    ensures MakeCheck(plugins[k].name, plugins[k].checks[j]) in ActiveChecks(plugins, registry)
    decreases |plugins|
  {
    var rest := plugins[1..];
    NoFatalErrorTail(plugins, registry);
    if k == 0 {
      var p := plugins[0];
      assert ActiveChecks(plugins, registry) == CheckList(p.name, p.checks) + ActiveChecks(rest, registry);
      CheckListAt(p.name, p.checks, j);
    } else {
      assert rest[k - 1] == plugins[k];
      ActiveChecksNamed(rest, registry, k - 1, j);
    }
  }

  /**
   * get_all_active_checks: loops over the plugins and their check entries,
   * collecting checks and dependency messages; an unknown plugin or check
   * ends it at once, collected messages end it after the last plugin.
   */
  method GetAllActiveChecks(plugins: seq<PluginEntry>, registry: Registry) returns (r: Result<seq<Check>, ResolveError>)
    ensures r == Resolve(plugins, registry)
  {
    var checks: seq<Check> := [];
    var depsError: seq<string> := [];
    var i := 0;
    while i < |plugins|
      invariant 0 <= i <= |plugins|
      invariant ResolveFrom(plugins[i..], registry, checks, depsError) == Resolve(plugins, registry)
    {
      var p := plugins[i];
      assert plugins[i..][0] == p && plugins[i..][1..] == plugins[i + 1..];
      if p.name !in registry {
        return Err(UnknownPlugin(p.name));
      }
      var cls := registry[p.name];
      if cls.dependency.Some? {
        var m := cls.dependency.value;
        var e := new Dependency.DependencyError(m.plugin, m.depName, m.pypi, m.deb);
        depsError := depsError + [e.ToString()];
        i := i + 1;
        continue;
      }
      ghost var before := checks;
      var j := 0;
      while j < |p.checks|
        invariant 0 <= j <= |p.checks|
        invariant PluginChecks(p.name, cls, p.checks[j..], checks) == PluginChecks(p.name, cls, p.checks, before)
      {
        var entry := p.checks[j];
        assert p.checks[j..][0] == entry && p.checks[j..][1..] == p.checks[j + 1..];
        if entry.checkType !in cls.attributes {
          return Err(NoSuchAttribute(p.name, entry.checkType));
        }
        if cls.attributes[entry.checkType].Falsy? {
          return Err(UnknownCheck(p.name, entry.checkType));
        }
        var checkName := Naming.CheckName(entry, p.name);
        checks := checks + [Check(checkName, p.name, entry.checkType)];
        j := j + 1;
      }
      i := i + 1;
    }
    if depsError != [] {
      return Err(DependencyErrors(depsError));
    }
    return Ok(checks);
  }
}
