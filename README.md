# zookeeper-volume in Dafny

zookeeper-volume is a Docker volume plugin. Each Docker volume names a
ZooKeeper ensemble and a path inside it. On the first mount the plugin starts
a FUSE helper, `/usr/bin/zookeeperfuse`, which exposes that path at
`/mnt/volumes/<id>`. Further mounts share the helper through a reference
count, and the last unmount stops it. The registry of volumes is kept in a
JSON state file across restarts.

This project models the plugin's core and proves properties of the model:

- `wrappers.dfy`: optional values, the exceptions the code raises, and call outcomes.
- `text.dfy`: the Python string operations the core relies on: `','.join`,
  `str.split(',')`, `sorted` on strings (code-point order, as an insertion
  sort), iterating a string, and `str(int)`.
- `ids.dfy`: the mount-identifier allocator, as a set of outstanding identifiers.
- `commandline.dfy`: the argument vector `Volume.mount` builds, and a reading
  of that vector back into the settings it carries. The round trip is proved.
- `mountmachine.dfy`: the mount state machine of `Volume` (`on_mount`,
  `on_unmount`, `mount`, `unmount`, `alive`) as functions on a state value.
  Its lemmas cover single calls, sequences of calls and the invariant.
- `volumes.dfy`: the `Volume` and `VolumeDatabase` classes. Each method is
  proved against the step functions of `mountmachine.dfy` or against the
  registry invariant. Also here: `to_dict`/`load_from_dict` and the reload of
  the state file.
- `connections.dfy`: the earlier draft. It holds `to_hosts`, and a `Volume`
  whose counter logic differs from the live one.
- `handlers.dfy`: the HTTP routes of the plugin protocol. Each route maps a
  request and the registry to a JSON body, a status code and the new registry.

The helper process is outside the plugin's control. A step that waits for it
takes as an argument what the wait observed:

- `startupExit`: the helper's exit code if it died during the two-second
  grace period.
- `termExit`: its exit code if it stopped within ten seconds of SIGTERM.

`HelperExits` is an environment step, not code of the plugin. The DEBUG
setting is the `debug` parameter. The state file is the `stateFile` field:
`None` when unreadable, otherwise the list of stored records.

In a few places the code does not do what its names, type annotations or
log messages suggest. The model follows the code:

- The reference count can go negative. An `on_unmount` with no holder
  decrements anyway, and a later `on_mount` then succeeds without starting a
  helper (`MountMachine.UnbalancedUnmount`).
- Removing a volume that is still held does not leave it registered.
  `rm_volume` pops the entry before `delete` refuses. The route answers 500,
  and the state file is not rewritten.
- A falsy (empty) credential is not saved, so it comes back as absent.
- `unmount` on a volume with no recorded process raises AttributeError:
  its first `wait` calls `wait` on None, and only TimeoutExpired is silenced
  (`MountMachine.UnmountSpec`). No caller reaches this: `on_unmount` and
  `close` call `unmount` only with a process recorded.
- The create route stores the host list itself, not a string; see Findings.

## Model

| member | source | states |
|---|---|---|
| Text.SplitJoin | zookeeper_plugin/handlers.py:30 | splitting on `,` undoes joining a non-empty list of comma-free pieces |
| Text.JoinSplit | zookeeper_plugin/handlers.py:30 | joining the pieces of a split gives the string back, and the pieces are comma-free |
| Text.SortCorrect | zookeeper_plugin/connections.py:18 | the sort is ordered and a permutation of its input |
| Text.SortedUnique | zookeeper_plugin/connections.py:18 | two ordered lists with the same elements are equal, so the sort result depends only on the multiset |
| Text.NatToStringInjective | zookeeper_plugin/volumes.py:100 | distinct identifiers have distinct decimal strings |
| IdAllocation.IdAllocator.Allocate | zookeeper_plugin/volumes.py:100 | the identifier handed out is not outstanding, and becomes outstanding |
| IdAllocation.IdAllocator.MarkAsFree | zookeeper_plugin/volumes.py:182 | the identifier is no longer outstanding, and nothing else changes |
| Commandline.SpawnableIffTextHosts | zookeeper_plugin/volumes.py:111-132 | the vector passed to Popen is all strings exactly when the hosts value is a string |
| Commandline.ParseHelperArguments | zookeeper_plugin/volumes.py:120-127 | after `--`: `--zooHosts` and `--zooPath` always; `--leafMode` iff mode is not DIR; `--zooAuthentication` iff the credential is truthy; `--logLevel DEBUG` iff debug; each with its value |
| Commandline.ParseHelperArgumentsMap | zookeeper_plugin/volumes.py:120-127 | the helper options parse, with distinct flags, into the map of exactly the flags `mount` appends and their values |
| Commandline.ParseBuildCommandLine | zookeeper_plugin/volumes.py:111-121 | the vector reads back with the fixed head, the mountpoint, and `-o debug` exactly in debug mode |
| Commandline.DecodeBuildCommandLine | zookeeper_plugin/volumes.py:111-127 | the helper reads back mountpoint, hosts, path, mode, debug, and the credential exactly when truthy |
| MountMachine.Alive | zookeeper_plugin/volumes.py:200-214 | alive iff the process runs; an exited one is collected: return code kept, log files closed last-first, handle dropped |
| MountMachine.CloseLogsReversed | zookeeper_plugin/volumes.py:207-208 | every log file is closed once, in reverse order of opening |
| MountMachine.OnMountSpec | zookeeper_plugin/volumes.py:107-166 | spawn iff idle and spawnable; count +1 iff it returns; a raise leaves count and process untouched; TypeError iff the vector is not all strings, otherwise MountException with the exit code |
| MountMachine.OnUnmountSpec | zookeeper_plugin/volumes.py:145-172 | SIGTERM iff the last holder leaves a running helper; count -1 iff it returns; after the last holder no process; raises (killpg TypeError) iff the helper outlives SIGTERM, keeping count 1 and the process |
| MountMachine.UnmountSpec | zookeeper_plugin/volumes.py:141-160 | raises AttributeError iff no process is recorded, killpg TypeError iff the helper runs and outlives SIGTERM; on return no process; one SIGTERM iff the helper was running |
| MountMachine.FirstMount | zookeeper_plugin/volumes.py:162-166 | the first mount of a new volume whose helper survives: returns, one spawn, count 1, a running helper |
| MountMachine.CrashedHelperNotRespawned | zookeeper_plugin/volumes.py:162-166 | a helper that died while held is not restarted by further mounts |
| MountMachine.InvPreserved | zookeeper_plugin/volumes.py:162-214 | every step keeps "a process exists only while the count is at least 1" |
| MountMachine.MountsWhileHeld | zookeeper_plugin/volumes.py:162-166 | mounts of a held volume only add to the count |
| MountMachine.SpawnOnce | zookeeper_plugin/volumes.py:162-166 | n >= 1 mounts of an idle volume spawn exactly once and leave the count at n |
| MountMachine.TeardownOnce | zookeeper_plugin/volumes.py:168-172 | n unmounts of n holders stop the helper exactly once and leave count 0 and no process |
| MountMachine.BalancedUse | zookeeper_plugin/volumes.py:162-172 | n mounts then n unmounts: one start, one stop, count back to 0 |
| MountMachine.RetryAfterFailedMount | zookeeper_plugin/volumes.py:134-166 | a helper dying in the grace period gives MountException with count 0; the next mount spawns again |
| MountMachine.UnbalancedUnmount | zookeeper_plugin/volumes.py:162-172 | an unmount with no holder makes the count -1, and the next mount returns without spawning |
| Volumes.MountpointInjective | zookeeper_plugin/volumes.py:174-176 | different identifiers give different mountpoints |
| Volumes.DictRoundTrip | zookeeper_plugin/volumes.py:189-219 | reload after `to_dict` keeps hosts, name, path and mode, and the credential exactly when it is truthy |
| Volumes.DictRoundTripFromFile | zookeeper_plugin/volumes.py:189-219 | saving a loaded record gives it back, with mode DIR filled in and a falsy credential dropped |
| Volumes.Volume.constructor | zookeeper_plugin/volumes.py:92-105 | the given configuration, count 0, no process, and a fresh identifier |
| Volumes.Volume.LoadFromDict | zookeeper_plugin/volumes.py:216-219 | a new volume built from the record, mode defaulting to DIR, with a fresh identifier |
| Volumes.Volume.Alive | zookeeper_plugin/volumes.py:200-214 | the loop closing log files implements MountMachine.Alive on the volume's fields |
| Volumes.Volume.Mount | zookeeper_plugin/volumes.py:107-139 | implements MountMachine.Mount on the volume's fields, with the vector of Commandline.BuildCommandLine |
| Volumes.Volume.Unmount | zookeeper_plugin/volumes.py:141-160 | implements MountMachine.Unmount on the volume's fields, including the AttributeError without a process |
| Volumes.Volume.OnMount | zookeeper_plugin/volumes.py:162-166 | implements MountMachine.OnMount on the volume's fields |
| Volumes.Volume.OnUnmount | zookeeper_plugin/volumes.py:168-172 | implements MountMachine.OnUnmount on the volume's fields |
| Volumes.Volume.Close | zookeeper_plugin/volumes.py:178-182 | only the first call acts; it tears down a recorded process and frees the identifier unless the teardown raises |
| Volumes.Volume.Delete | zookeeper_plugin/volumes.py:184-187 | a held volume raises and nothing changes; otherwise it is closed and its identifier freed once |
| Volumes.ReloadSnapshot | zookeeper_plugin/volumes.py:28-88 | loading a saved list registers the same names in the same order, each with its configuration up to a falsy credential |
| Volumes.DatabaseReload | zookeeper_plugin/volumes.py:28-88 | for the registry as it stands: what `sync_to_disk` writes reloads to the same names, order and configurations |
| Volumes.LoadedNamesSpec | zookeeper_plugin/volumes.py:35-37 | loading registers each name once; a later entry for a name replaces the earlier one |
| Volumes.MountpointsDistinct | zookeeper_plugin/volumes.py:174-176 | two registered volumes never share a mountpoint |
| Volumes.RegistryAdd | zookeeper_plugin/volumes.py:42-44 | storing an open volume with an identifier of its own keeps the registry invariant, a new name going last |
| Volumes.RegistryRemove | zookeeper_plugin/volumes.py:46-47 | popping a name keeps the registry invariant, and no remaining entry is that volume or shares its identifier |
| Volumes.RegistryPop | zookeeper_plugin/volumes.py:83 | popping the newest entry keeps the registry invariant and removes exactly that volume |
| Volumes.VolumeDatabase.constructor | zookeeper_plugin/volumes.py:28-37 | an unreadable file gives no volumes; otherwise every entry, in file order, becomes a new volume whose identifier was not allocated before, and the registry invariant holds |
| Volumes.VolumeDatabase.Load | zookeeper_plugin/volumes.py:35-37 | loading the entries in file order registers the names in first-occurrence order, with the last configuration per name, each a new volume with an identifier not allocated before, and keeps the registry invariant |
| Volumes.VolumeDatabase.AllVolumes | zookeeper_plugin/volumes.py:39-40 | the registered volumes, in insertion order |
| Volumes.VolumeDatabase.AddVolume | zookeeper_plugin/volumes.py:42-44 | the volume is stored under its name, a new name goes last in the order, and the invariant is kept |
| Volumes.VolumeDatabase.Find | zookeeper_plugin/volumes.py:71-78 | the registered volume iff the name is known, KeyError otherwise |
| Volumes.VolumeDatabase.VolumeExists | zookeeper_plugin/volumes.py:50-51 | true iff the lookup succeeds |
| Volumes.VolumeDatabase.GetVolume | zookeeper_plugin/volumes.py:53-78 | a known name gives its volume, ignoring the rest; an unknown one without hosts or path raises KeyError and changes nothing; otherwise exactly one fresh volume is registered, last in order |
| Volumes.VolumeDatabase.RmVolume | zookeeper_plugin/volumes.py:46-48 | an unknown name raises and changes nothing; a known one is removed from map and order; then held: RuntimeError, not closed, identifier kept; idle: closed, identifier freed; every other volume keeps its entry, state and closed flag |
| Volumes.VolumeDatabase.PopItem | zookeeper_plugin/volumes.py:83 | removes and returns the most recently inserted entry |
| Volumes.VolumeDatabase.Close | zookeeper_plugin/volumes.py:80-84 | every popped volume is closed; only a killpg TypeError stops the loop early; when it returns the registry is empty; it returns unless some volume's helper was running and outlived its SIGTERM |
| Volumes.VolumeDatabase.CloseNewest | zookeeper_plugin/volumes.py:83-84 | one round: exactly the newest entry leaves map and order and its volume is closed; it raises (killpg TypeError) iff that helper was running and outlived SIGTERM, otherwise the identifier is freed |
| Volumes.VolumeDatabase.ClosePopped | zookeeper_plugin/volumes.py:84 | closing a popped volume closes it, keeps the registry invariant and every other process; raises (killpg TypeError) iff its helper runs and outlives SIGTERM, otherwise frees its identifier |
| Volumes.VolumeDatabase.SyncToDisk | zookeeper_plugin/volumes.py:86-88 | the file then holds every volume's `to_dict`, in registry order |
| Connections.ToHostsPermutationInvariant | zookeeper_plugin/connections.py:17-18 | any reordering of the same hosts gives the same string |
| Connections.ToHostsSplit | zookeeper_plugin/connections.py:17-18 | for non-empty comma-free hosts, splitting the result gives the sorted list, an ordered permutation of the input |
| Connections.ToHostsIdempotent | zookeeper_plugin/connections.py:17-18 | normalising a normalised host list changes nothing |
| Connections.ReloadHosts | zookeeper_plugin/connections.py:135-137 | a stored hosts string fed back through `to_hosts` is unchanged exactly when it has at most one character |
| Connections.DraftOnMountSpec | zookeeper_plugin/connections.py:95-110 | mount runs iff count 0 and no handle; a process starts iff it also succeeds; count +1 unless it raised |
| Connections.DraftOnUnmountSpec | zookeeper_plugin/connections.py:100-116 | unmount runs iff count 1, with no check of the handle; the handle is never cleared; AttributeError iff count 1 and no handle |
| Connections.DraftCycleSkipsMount | zookeeper_plugin/connections.py:100-110 | after one mount and one unmount, an `on_mount` at count 0 starts nothing |
| Connections.DraftAsWrittenNeverMounts | zookeeper_plugin/connections.py:95-116 | as written (`self.handler` never assigned), no sequence of calls starts a process or raises the count above 0 |
| Connections.DraftRecordRoundTrip | zookeeper_plugin/connections.py:128-137 | `to_dict` has exactly the keys hosts, name and path; loading gives the name and path back, with hosts as the stored string's characters |
| Connections.DraftReloadHosts | zookeeper_plugin/connections.py:128-137 | save and reload of a draft volume keeps its hosts exactly when that string has at most one character |
| Connections.DraftVolume.constructor | zookeeper_plugin/connections.py:85-93 | stores `to_hosts(hosts)`, count 0, no handle, a fresh identifier |
| Connections.DraftVolume.LoadFromDict | zookeeper_plugin/connections.py:135-137 | a missing key raises KeyError; otherwise a new volume with the stored string's characters as hosts |
| Connections.DraftVolume.Mount | zookeeper_plugin/connections.py:95-98 | raises AttributeError and changes nothing |
| Connections.DraftVolume.Unmount | zookeeper_plugin/connections.py:100-104 | implements Connections.DraftUnmount: terminate and keep the handle |
| Connections.DraftVolume.OnMount | zookeeper_plugin/connections.py:106-110 | implements Connections.DraftOnMount as written |
| Connections.DraftVolume.OnUnmount | zookeeper_plugin/connections.py:112-116 | implements Connections.DraftOnUnmount |
| Connections.DraftVolume.Close | zookeeper_plugin/connections.py:121-126 | only the first call acts; it terminates a recorded process and frees the identifier exactly once |
| Handlers.Activate | zookeeper_plugin/handlers.py:12-17 | 200, advertising the VolumeDriver protocol |
| Handlers.CapabilitiesGet | zookeeper_plugin/handlers.py:148-152 | 200, scope global |
| Handlers.ParseCreateOptions | zookeeper_plugin/handlers.py:26-34 | no options iff neither `host` nor `hosts` is given; otherwise a non-empty host list, and the path defaulting to `/` |
| Handlers.CreateOptionsHosts | zookeeper_plugin/handlers.py:27-30 | `host` wins and gives a one-element list; otherwise the list is comma-free pieces that join back to the `hosts` option |
| Handlers.VolumeCreate | zookeeper_plugin/handlers.py:20-41 | no Name: 500; no host option: 400; existing name: 409; in these cases registry, file and allocator are unchanged; else 200 and exactly one idle volume with mode DIR, no credential, the parsed hosts and path, one newly allocated identifier, and the file rewritten |
| Handlers.Register | zookeeper_plugin/handlers.py:38-40 | exactly one fresh idle volume is added, last in order, with one newly allocated identifier, and the file is rewritten |
| Handlers.Persist | zookeeper_plugin/handlers.py:39-40 | re-adding the factory-made volume changes no entry, and the file then lists every volume |
| Handlers.VolumeRemove | zookeeper_plugin/handlers.py:44-58 | no Name: 500; unknown: 404, registry, file and allocator unchanged; known: removed; if held, 500, the volume unchanged and not closed, identifier kept, file not rewritten; else 200, closed, identifier freed, file rewritten; other volumes keep their state |
| Handlers.MountResponse | zookeeper_plugin/handlers.py:73-79 | 200 with the mountpoint iff on_mount returned; MountException gives 500 `Exception on mounting` with an empty mountpoint; any other exception gives the error handler's 500 |
| Handlers.UnmountResponse | zookeeper_plugin/handlers.py:94-95 | 200 iff on_unmount returned; an exception gives the error handler's 500 |
| Handlers.VolumeMount | zookeeper_plugin/handlers.py:61-79 | unknown: 404 with empty mountpoint; known: the volume steps by MountMachine.OnMount and the answer is MountResponse; every other volume keeps its state |
| Handlers.VolumeUnmount | zookeeper_plugin/handlers.py:82-95 | unknown: 404 with empty mountpoint; known: the volume steps by MountMachine.OnUnmount and the answer is UnmountResponse; every other volume keeps its state |
| Handlers.VolumesList | zookeeper_plugin/handlers.py:98-108 | 200 with name and mountpoint of every volume, in registry order |
| Handlers.ListingSpec | zookeeper_plugin/handlers.py:98-108 | the list names every registered volume once, in order, and no two entries share a mountpoint |
| Handlers.VolumePath | zookeeper_plugin/handlers.py:111-125 | 200 with the volume's mountpoint iff the name is registered, else 404 with an empty one |
| Handlers.VolumeGet | zookeeper_plugin/handlers.py:128-145 | 200 with name and mountpoint iff registered, else 404 with an empty mountpoint |
| Handlers.RoutesAgreeOnMountpoint | zookeeper_plugin/handlers.py:61-145 | path, get and a successful mount report the same mountpoint |
| Handlers.ListHostsNeverMount | zookeeper_plugin/volumes.py:121-132 | a volume whose hosts are a list never spawns; from idle, mount raises TypeError and the count stays 0 |
| Handlers.NormalizedHostsMount | zookeeper_plugin/volumes.py:111-139 | with the hosts normalised, the first mount spawns once and the helper reads back the normalised string, which splits into the sorted hosts |

## Left out

- Filesystem effects are not modelled: the mountpoint directory that `mount` creates and `unmount` removes, and the log directory.
- File descriptors, the `DEVNULL`/log redirections and `preexec_fn=os.setsid` are not modelled. Only which log files are opened and closed is kept.
- Time and waiting are not modelled. The sleeps and timed waits, including `Volume.wait` and its silenced timeout, become the observations `startupExit` and `termExit` plus the environment step `HelperExits`.
- `os.getpgid` failing because the process vanished between two probes is not modelled.
- Locks are not modelled: the `Monitor` of each volume, the registry singleton, and concurrency in general. Each method runs as one atomic step.
- Logging is not modelled.
- JSON reading and writing are not modelled. The state file is `Option<seq<StoredVolume>>`. Records missing `hosts`, `name` or `path`, files that are not a list, and write errors are not modelled.
- When `atexit` runs `VolumeDatabase.close` is not modelled.
- Request parsing is simplified. A request is its `Name` and its string-valued `Opts`. Invalid JSON, an `Opts` of null and option values that are not strings are not modelled.
- The text of `str(e)` is not modelled. The error handler's body carries the kind of exception, not its message.
- The Flask glue is not modelled: app.py, run.py, handshake.py, and the content type set by json.py. A route that returns no status answers 200.
- The draft's `VolumeDatabase` in connections.py is not part of this model: it calls methods and attributes that do not exist. volume.py is not part of this model either: it is a dead draft of the routes.
- IdAllocation.IdAllocator.Allocate: hands out some identifier that is not outstanding, not necessarily the smallest. The allocator's code is not part of this model.
- Volumes.Volume.Delete: requires the volume's invariant (a process exists only while the count is at least 1). Every volume the code can reach meets it.
- Volumes.VolumeDatabase.AddVolume: requires that the volume is valid, open and owns an identifier no other entry has. The source accepts any volume; both of its callers pass one they just created.
- Volumes.VolumeDatabase.Load: does not restate that every loaded volume is idle (count 0, no process). Each one is built by `Volumes.Volume.LoadFromDict`, whose contract says so; carrying it through the loop costs more proof effort than it adds.
- Volumes.VolumeDatabase.Close: states which volumes are closed, when the loop stops early and when it empties the registry, not the per-volume teardown effects; those are stated one round at a time by `Volumes.VolumeDatabase.CloseNewest`.
- The finalizer of satella's `Closeable`, which may call `close` when a volume object is collected, is not modelled. A volume popped by a refused `rm_volume` therefore stays open for ever in the model.
- Connections.DraftVolume.Mount: the draft's process handle is a flag, and the command text is kept only in the pure step functions. As written the command always raises before anything is spawned.

## Findings

| source | as written | input that shows it | evidently intended | confidence | as-written member | corrected member |
|---|---|---|---|---|---|---|
| zookeeper_plugin/handlers.py:27-38 | `volume_create` hands `Volume` the host list itself. `mount` places that list as one element of the vector passed to `subprocess.Popen`, which accepts only strings and raises TypeError | create `v1` with Opts `{"host": "zk:2181"}` (answers 200), then mount `v1`: 500 and no helper, on every attempt, also after a restart, because the list is saved and reloaded as a list | hosts passed as one comma-joined string, as `Volume` declares (`hosts: str`); the draft normalises with `to_hosts` | high; not executed | Handlers.ListHostsNeverMount | Handlers.NormalizedHostsMount |

The corrected create is `Handlers.VolumeCreate` with `normalized` set to
true. The hosts then reach the registry as `Str(ToHosts(hosts))`, via
`Handlers.HostsValue`. With `normalized` false, the same method is the code
as written.
