# Sauna scheduling-and-delivery engine, modelled in Dafny

Sauna is a host monitoring agent. A producer runs every configured check once per pass. It turns each
result into a `ServiceCheck` record, puts that record on the queue of every queued consumer, and stores it
in the last-status map `check_results`. Between passes it waits on the `must_stop` event. The stop
handler `term_handler` sets that event once and puts the event object itself on every queue as the
shutdown sentinel.

This project models, from `sauna/__init__.py`:

- the stop coordinator and the fan-out to the consumer queues;
- one producer pass and the producer loop, with its exit;
- resolution of the configured plugins into named checks, with dependency errors collected over all plugins;
- the `hostname` and `periodicity` defaults;
- the `DependencyError` message;
- `get_all_subclass`.

Layout:

- `engine.dfy` holds the engine state as a value, with one function per transition.
- `sauna.dfy` holds the classes `Sauna` and `ResultStore`. Their methods change fields step by step, and
  each one is proved to follow the matching engine function (`Launch` follows `Engine.LaunchRun`).
- `resolution.dfy` holds `get_all_active_checks`, written two ways. One is a looping method. The other is
  a specification function in the same accumulator shape. Two separate descriptions of the outcome are
  proved to agree with them. With no unknown plugin or check, the outcome is the dependency messages of
  all failing plugins, or else all the checks. Otherwise it is the error of the first unknown plugin or check.

Threads become sequential steps. What the source gets from outside comes in as parameters instead:

- `observe(k)(i)` — what check `i` gave in pass `k` (its outcome and the clock reading);
- `signalled(k)` — whether `term_handler` runs during the wait after pass `k`;
- `fqdn(k)` — what `socket.getfqdn()` returns when pass `k` reads `self.hostname`;
- `registry` — the plugin register, one `PluginClass` value per plugin name;
- `consumers` — what constructing each configured consumer gives, in order: a queued consumer, another
  consumer, or a constructor that raises `DependencyError`.

The model follows the code as written:

- Each record is enqueued to every queue first and stored second (`sauna/__init__.py:182-184`).
- Resolution runs again at the start of every pass: `launch_all_checks` calls `get_all_active_checks`
  (`sauna/__init__.py:157-158`). A resolution error raises `SystemExit` (from `exit(1)`) or
  `AttributeError` inside the producer thread. That ends the producer, and `launch` then calls
  `term_handler` (`Crashed` in the model).
- A check type the plugin lacks makes `getattr` raise `AttributeError` (`NoSuchAttribute`). The
  "Unknown check" message is printed only when the attribute exists but is falsy (`UnknownCheck`).
- A consumer whose constructor raises `DependencyError` makes `launch` print the message and call `exit(1)`
  (`sauna/__init__.py:213-215`). That happens before the signal handlers are installed and before the final
  `term_handler` (`sauna/__init__.py:235-239`). So the model registers only the queues of the consumers
  before it, runs the producer with no signal reaching the flag, and never calls `Terminate`
  (`LaunchEnd(true, …)`). The producer thread is not a daemon, so it runs on after `exit(1)`.
- Nothing in the code makes the sentinel the last item of a queue. A stop that arrives mid-pass can be
  followed by more records. The model puts stops only in the waits and does not claim this.

## Model

| member | source | states |
|---|---|---|
| Records.MakeRecord | sauna/__init__.py:160-174 | the record carries the check's name, the hostname and the run's timestamp; a raising check gets status 3 (UNKNOWN) and the error text, a returning one its own status and output |
| Records.LaunchAllChecks | sauna/__init__.py:157-175 | one record per check, in check order; each has the check's name, the given hostname and the run's timestamp; a raising check gets status 3 (UNKNOWN) and the error text as output, a returning one its own status and output |
| Records.FailureIsIsolated | sauna/__init__.py:160-167 | what one check gives changes only its own record; every other check still yields the same record |
| Config.Hostname | sauna/__init__.py:98-100 | the configured hostname when the key is present (even if empty), otherwise the host's fully qualified name |
| Config.Periodicity | sauna/__init__.py:102-104 | the configured periodicity when the key is present (even zero), otherwise 120 |
| Naming.Lower | sauna/__init__.py:146-148 | lower-casing keeps the length and maps each character to its ASCII lower-case form |
| Naming.CheckName | sauna/__init__.py:146-148 | a present, non-empty explicit name is used unchanged; a derived name is never empty |
| Naming.DerivedName | sauna/__init__.py:146-148 | without an explicit name, the name is lower(plugin) + "_" + lower(type), with the underscore right after the plugin part and no upper-case letter |
| Naming.EmptyNameFallsBack | sauna/__init__.py:146-148 | an empty explicit name is treated as absent |
| Naming.LowerIsLowerCase | sauna/__init__.py:146-148 | a lower-cased name has no upper-case letter, and lower-casing it again changes nothing |
| Dependency.Message | sauna/__init__.py:38-45 | the message starts with the header naming the plugin and the dependency, and the rest is the install hints |
| Dependency.DependencyError.ToString | sauna/__init__.py:47-48 | str(e) starts with the header built from the constructor's plugin and dependency names, and the rest is the hints for its PyPI and Debian names |
| Dependency.DependencyError.constructor | sauna/__init__.py:38-45 | the message is the header, then the pip line if a PyPI name is given, then the apt-get line if a Debian name is given |
| Dependency.MessageStartsWithHeader | sauna/__init__.py:39-45 | every message starts with "X depends on Y. It can be installed with:" and a newline, and the rest is the installation hints; with no package names it is only that header |
| Dependency.PipHintIff | sauna/__init__.py:42-45 | the hints start with the pip line for the PyPI name if and only if that name is non-empty |
| Dependency.AptHintAfterPip | sauna/__init__.py:42-45 | the hints are exactly as long as the pip line (if a PyPI name is given) plus the apt-get line (if a Debian name is given); with both names they are the pip line followed by the apt-get line; with no PyPI name they are only the apt-get line, or empty |
| Resolution.PluginChecks | sauna/__init__.py:138-150 | the inner loop keeps the checks collected so far and adds one per entry; if it fails, the error is a missing or falsy check attribute of this plugin |
| Resolution.ResolveFrom | sauna/__init__.py:121-155 | the outer loop keeps the checks collected so far and succeeds only with no dependency message collected; a dependency-error result holds every message collected before and is never empty |
| Resolution.Resolve | sauna/__init__.py:118-155 | a dependency-error result is never empty |
| Resolution.FirstBadEntry | sauna/__init__.py:138-144 | the index of a check entry with a missing or falsy attribute, with every earlier entry resolvable |
| Resolution.FirstFatalPlugin | sauna/__init__.py:121-144 | the index of a plugin that is unknown or constructs with a bad entry, with every earlier plugin neither |
| Resolution.CheckList | sauna/__init__.py:138-150 | one check per entry, so the list has as many checks as the plugin has entries |
| Resolution.CheckListAt | sauna/__init__.py:146-150 | the j-th check is built from the j-th entry, with its derived name |
| Resolution.PluginChecksOk | sauna/__init__.py:138-150 | if every check type of a plugin names a check method, the plugin adds one check per entry, in order |
| Resolution.PluginChecksFails | sauna/__init__.py:138-144 | if some check type is missing or falsy, the inner loop stops at the first such entry, with AttributeError if it is missing and "Unknown check" if it is falsy |
| Resolution.ResolveFromNoFatal | sauna/__init__.py:121-155 | with no fatal error ahead, the result is the collected plus remaining dependency messages (an error if there are any), or else all the checks so far plus the remaining ones |
| Resolution.ConstructedPluginParts | sauna/__init__.py:130-150 | a plugin that constructs contributes its checks, in order, ahead of those of the later plugins, and no dependency message |
| Resolution.ResolveFromFatal | sauna/__init__.py:121-144 | with a fatal error ahead, resolution ends in the first one (an unknown plugin, or the first bad entry of the first plugin that has one), whatever was collected before |
| Resolution.ResolveOutcome | sauna/__init__.py:118-155 | with no unknown plugin or check, resolution fails with the dependency messages of ALL failing plugins in plugin order if any plugin fails, and otherwise returns every check of every plugin in order; an unknown plugin or check ends it with the first such error instead |
| Resolution.ResolveSucceedsIff | sauna/__init__.py:151-155 | resolution returns checks if and only if no plugin or check is unknown and no plugin has a missing dependency |
| Resolution.ActiveChecksNamed | sauna/__init__.py:138-150 | every check entry of a plugin that constructs appears among the active checks, with its derived name |
| Resolution.GetAllActiveChecks | sauna/__init__.py:118-155 | the looping method returns exactly what the specification of resolution gives |
| Engine.Terminate | sauna/__init__.py:189-194 | the flag ends set and the store is unchanged; an earlier stop makes it change nothing, otherwise every queue gets one sentinel at its end |
| Engine.Register | sauna/__init__.py:217-219 | the old queues are kept and one empty queue is added at the end; the flag and the store are unchanged |
| Engine.Deliver | sauna/__init__.py:182-184 | the record goes at the end of every queue and is stored under its name; other names keep their records and the flag is unchanged |
| Engine.Publish | sauna/__init__.py:179-184 | a pass keeps the flag and the number of queues and loses no stored name |
| Engine.AfterWait | sauna/__init__.py:185-186 | after the wait the flag is set exactly when it was before or a stop came during the wait; the store and the number of queues are unchanged |
| Engine.Pass | sauna/__init__.py:179-186 | after a pass and its wait, the flag is set exactly when it was before or a stop came during the wait, and the number of queues is unchanged |
| Engine.Produce | sauna/__init__.py:177-186 | the loop runs between k and maxPasses passes; a crash happens before its pass runs and changes nothing |
| Engine.Broadcast | sauna/__init__.py:196-198 | every queue gets the item at its end; the number of queues and their earlier contents are unchanged |
| Engine.TerminateIdempotent | sauna/__init__.py:189-194 | stopping sets the flag, leaves the stored results alone, and a second stop changes nothing |
| Engine.TerminateSentinels | sauna/__init__.py:189-194 | the first stop keeps each queue's contents as a prefix and adds exactly one sentinel; a later stop adds none |
| Engine.TerminateKeepsSentinelsMatchFlag | sauna/__init__.py:189-194 | "one sentinel per queue once stopped, none before" holds after a stop |
| Engine.RegisterKeepsSentinelsMatchFlag | sauna/__init__.py:217-219 | registering a queue before the stop keeps that invariant |
| Engine.PublishQueues | sauna/__init__.py:179-184 | after a pass, every queue has grown by exactly the pass's records, in order; no queue is added or lost, and the flag is unchanged |
| Engine.PublishKeepsSentinelsMatchFlag | sauna/__init__.py:179-184 | a pass adds no sentinel |
| Engine.PublishStoresLast | sauna/__init__.py:182-184 | after a pass, each name maps to the last record of the pass with that name |
| Engine.PublishKeepsOthers | sauna/__init__.py:183-184 | names the pass did not produce keep their stored record, or stay absent |
| Engine.PublishKeys | sauna/__init__.py:183-184 | after a pass, the stored names are the earlier ones plus the names of the pass |
| Engine.FlagMonotonic | sauna/__init__.py:189-194 | after any sequence of stops, queue registrations and deliveries, the flag is set exactly when it was set before or a stop occurred; nothing clears it |
| Engine.ProduceExit | sauna/__init__.py:177-186 | the loop never clears the flag and keeps the number of queues; it leaves normally only with the flag set, runs out of passes only with it clear, and crashes, changing nothing, exactly when resolution fails |
| Engine.ProducePasses | sauna/__init__.py:177-186 | the loop leaves right after the first pass whose wait saw a stop (or after one pass if the flag was already set), so no pass begins once the flag is set |
| Engine.ProduceRunsOut | sauna/__init__.py:177-186 | running out of passes means all of them ran and no wait saw a stop |
| Engine.ProduceKeepsSentinelsMatchFlag | sauna/__init__.py:177-186 | the producer loop keeps "one sentinel per queue once stopped, none before" |
| Engine.FirstFailure | sauna/__init__.py:207-215 | the index of the first consumer whose constructor raises DependencyError, or the number of consumers if none does: every consumer before it constructs |
| Engine.RegisterQueued | sauna/__init__.py:207-219 | one new empty queue per queued consumer after the old ones; the flag and the store are unchanged |
| Engine.RegisterQueuedKeepsSentinelsMatchFlag | sauna/__init__.py:207-219 | registering the queues before any stop keeps "one sentinel per queue once stopped, none before" |
| Engine.ProduceUnsignalled | sauna/__init__.py:177-187 | when no wait sees a signal and the flag starts clear, the producer never leaves through the stop and the flag stays clear |
| Engine.LaunchOutcome | sauna/__init__.py:200-239 | launch ends with a consumer failure exactly when some constructor raises DependencyError; there is one more queue per queued consumer constructed before it; without a failure, once the producer has ended the flag is set; after a failure the flag keeps its value, the producer cannot stop through it, and a crash leaves the registered queues untouched; with no stop before, every queue holds exactly one sentinel when term_handler ran, and none otherwise |
| Sauna.ResultStore.constructor | sauna/__init__.py:25-26 | the last-status map starts empty |
| Sauna.Sauna.constructor | sauna/__init__.py:67-73 | a new agent keeps its configuration, has the flag unset and no queues |
| Sauna.Sauna.SendDataToConsumers | sauna/__init__.py:196-198 | the loop appends the item to every queue, as the fan-out specification says, and leaves the flag alone |
| Sauna.Sauna.TermHandler | sauna/__init__.py:189-194 | the flag ends up set; the queues get a sentinel each only if it was unset before |
| Sauna.Sauna.RegisterQueue | sauna/__init__.py:217-219 | one new empty queue at the end; the flag is unchanged |
| Sauna.Sauna.DeliverPass | sauna/__init__.py:179-184 | the pass loop leaves the queues and the store as the one-pass specification says |
| Sauna.Sauna.RunProducer | sauna/__init__.py:177-187 | the loop's exit and final state are those of the producer specification |
| Sauna.Sauna.Launch | sauna/__init__.py:200-239 | the registration loop up to the first failing constructor, the producer and, without a failure, the final term_handler leave the failure flag, the exit and the state that LaunchRun gives; a failure is reported exactly when some constructor raises DependencyError; one queue per queued consumer before it; without a failure, once the producer has ended the flag is set; after one the flag is unchanged; on a fresh agent every queue holds exactly one sentinel when term_handler ran, and none otherwise |
| Subclasses.AllSubclasses | sauna/__init__.py:247-253 | the list has one entry per class below the root (Size(c) - 1) |
| Subclasses.SubclassesFrom | sauna/__init__.py:250-252 | from the i-th direct subclass on, the loop appends one entry per class in those subtrees |
| Subclasses.AllSubclassesMembers | sauna/__init__.py:247-253 | a class is listed if and only if it is a descendant of the root |
| Subclasses.PreOrder | sauna/__init__.py:247-253 | each direct subclass is listed at its offset and followed immediately by all of its own subclasses, in order |
| Scenarios.CriticalDiskPass | sauna/__init__.py:177-184 | a check "disk_root" reporting (2, "92% used") with one queue: after one pass the store maps "disk_root" to that record and the queue holds exactly that record |
| Scenarios.InodesCheck | sauna/__init__.py:146-150 | the unnamed "inodes" check of plugin "Disk" is named "disk_inodes" |
| Scenarios.TwoChecksResolve | sauna/__init__.py:118-155 | a plugin "Disk" with a named and an unnamed check resolves to both checks, in configuration order, with names "disk_root" and "disk_inodes" |
| Scenarios.UnknownPluginConsumerFails | sauna/__init__.py:200-219 | an unknown plugin and a second consumer that raises DependencyError: one queue, the producer crashes in pass 0, the flag stays clear and the queue gets no sentinel |
| Scenarios.UnknownPluginConsumersRun | sauna/__init__.py:200-239 | the same unknown plugin with consumers that construct: the producer crashes in pass 0, then term_handler sets the flag and puts one sentinel on the queue |
| Scenarios.FailingCheckPass | sauna/__init__.py:157-186 | two checks, one raising: the pass stores exactly two records, the failing one with status 3 and the error text; the unnamed check is named "disk_inodes"; a stop in the wait ends the loop after this pass |

## Left out

- Threads, signal registration and joins in `launch` (`sauna/__init__.py:200-244`). The model is sequential. Queues are registered before the producer runs, and stops happen only during the waits between passes.
- The race where a stop arrives mid-pass and records are enqueued after the sentinel. The code does not promise "sentinel last", and the model does not claim it.
- `Event.wait(timeout=periodicity)` timing. The wait is the oracle `signalled(k)`, and `Periodicity` is modelled but not used as a duration.
- `time.time()` and `socket.getfqdn()` are foreign calls. They are the timestamps inside the `observe` oracle and the per-pass oracle `fqdn`.
- After a consumer's `DependencyError` no signal handler is installed, so a signal takes its default action and may end the process. The model does not model that: the producer runs with no signal reaching `term_handler`.
- `Sauna.Sauna.RunProducer`: the `while True` loop runs for at most `maxPasses` passes. `StillRunning` means that many passes ran without a stop.
- The check and consumer implementations, `plugins.get_plugin`, `consumers.get_consumer` and the plugin register. A plugin is a `PluginClass` value in a registry map. It records whether its constructor raises `DependencyError` and which of its attributes are check methods. Running a check is the `observe` oracle.
- Plugin construction: whether a plugin's constructor raises `DependencyError` does not depend on the plugin's `config` section, and that section is not modelled.
- Configuration schema errors: a missing `plugins`, `checks` or `type` key raising `KeyError`, and values of the wrong type. The model's configuration types rule them out.
- Default arguments: `DependencyError(plugin, dep_name, pypi='', deb='')` (`sauna/__init__.py:38`) and `Sauna(config=None)`, where `None` becomes `{}` (`sauna/__init__.py:67-69`). Dafny has no default arguments, so callers pass `""` or the configuration explicitly. No behaviour is lost.
- `read_config` and `assemble_config_sample`: file and YAML I/O.
- `print`, `logging` and `exit(1)`. A fatal resolution error is an error value of resolution. A consumer's `DependencyError` is `consumerFailed` in `LaunchEnd`.
- `get_all_available_checks`, `get_active_checks_name` and `import_submodules`: plugin-register and import glue.
- Naming.Lower: only ASCII letters are lower-cased. Python's `str.lower` also maps non-ASCII letters.
- Subclasses.AllSubclasses: the class hierarchy is a tree. A class reachable by several inheritance paths is listed once per path, as in the source, but the model does not tie those copies to one class object.
- The consumers' dequeue loops. A queue in the model is the sequence of everything ever put on it.
