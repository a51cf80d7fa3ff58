/** The volume registry of zookeeper_plugin/volumes.py: `Volume` (one logical
    volume, its share count and its helper process) and `VolumeDatabase` (name
    to volume, in the insertion order of a Python dict, with the state file it
    loads at start and rewrites on request). Each locked section of the source
    is one method here. */
module Volumes {
  import opened Wrappers
  import opened Text
  import opened Commandline
  import opened MountMachine
  import opened IdAllocation

  const BasePath: string := "/mnt/volumes"
  const LogDir: string := "/log/zookeeper-volume"

  /** `os.path.join(BASE_PATH, str(volume_id))`. */
  function MountpointOf(id: nat): string
  {
    BasePath + "/" + NatToString(id)
  }

  /** Different identifiers give different mountpoints. */
  lemma MountpointInjective(a: nat, b: nat)
    requires MountpointOf(a) == MountpointOf(b)
    ensures a == b
  {
    var k := |BasePath + "/"|;
    assert NatToString(a) == MountpointOf(a)[k..];
    assert NatToString(b) == MountpointOf(b)[k..];
    NatToStringInjective(a, b);
  }

  /** The two files the helper's output goes to in debug mode. */
  function LogFilesOf(name: string): seq<string>
  {
    [LogDir + "/" + name + ".stdout.txt", LogDir + "/" + name + ".stderr.txt"]
  }

  /** The static configuration of a volume (the constructor's arguments). */
  datatype VolumeConfig = VolumeConfig(hosts: Value, name: string, path: string, mode: string,
                                       auth: Option<string>)

  /** One object of the state file. `mode` or `auth` may be missing: `auth` is
      written only when truthy, and files written by the earlier draft carry no
      `mode`. */
  datatype StoredVolume = StoredVolume(hosts: Value, name: string, path: string,
                                       mode: Option<string>, auth: Option<string>)

  /** `to_dict`. */
  function ConfigToDict(c: VolumeConfig): StoredVolume
  {
    StoredVolume(c.hosts, c.name, c.path, Some(c.mode), if Truthy(c.auth) then c.auth else None)
  }

  /** The arguments `load_from_dict` passes to the constructor. */
  function ConfigFromDict(d: StoredVolume): VolumeConfig
  {
    VolumeConfig(d.hosts, d.name, d.path, if d.mode.Some? then d.mode.value else "DIR", d.auth)
  }

  /** What survives a save and a reload: everything but a falsy credential. */
  function Normalized(c: VolumeConfig): VolumeConfig
  {
    c.(auth := if Truthy(c.auth) then c.auth else None)
  }

  /** Reload after save keeps hosts, name, path and mode, and the credential
      exactly when it is truthy (an empty one comes back as None). */
  lemma DictRoundTrip(c: VolumeConfig)
    ensures ConfigFromDict(ConfigToDict(c)) == Normalized(c)
    ensures ConfigFromDict(ConfigToDict(c)).auth == c.auth <==> c.auth.None? || Truthy(c.auth)
  {
  }

  /** Saving a reloaded entry gives it back when it has a mode and no empty
      credential; an entry without a mode comes back with mode `DIR`. */
  lemma DictRoundTripFromFile(d: StoredVolume)
    ensures ConfigToDict(ConfigFromDict(d))
            == d.(mode := Some(if d.mode.Some? then d.mode.value else "DIR"),
                  auth := if Truthy(d.auth) then d.auth else None)
  {
  }

  class Volume {
    const hosts: Value
    const name: string
    const remotePath: string   // `_path`, the path inside ZooKeeper
    const mode: string
    const auth: Option<string>
    const volumeId: nat
    var refcount: int
    var process: Process
    var lastRc: Option<int>
    var fdsToClose: seq<string>
    var effects: seq<Effect>
    var closed: bool           // the flag behind `Closeable.close()`

    function State(): MountState
      reads this
    {
      MountState(refcount, process, lastRc, fdsToClose, effects)
    }

    predicate Valid()
      reads this
    {
      Inv(State())
    }

    function Config(): VolumeConfig
    {
      VolumeConfig(hosts, name, remotePath, mode, auth)
    }

    /** The `path` property: where the helper mounts this volume. */
    function Path(): string
    {
      MountpointOf(volumeId)
    }

    /** `to_dict`: the record the state file keeps for this volume. */
    function ToDict(): StoredVolume
    {
      ConfigToDict(Config())
    }

    /** What `mount` hands to Popen, and the log files it opens in debug mode. */
    function LaunchFor(debug: bool): Launch
    {
      Launch(BuildCommandLine(hosts, remotePath, Path(), mode, auth, debug),
             if debug then Some(LogFilesOf(name)) else None)
    }

    constructor (hosts: Value, name: string, path: string, mode: string, auth: Option<string>,
                 alloc: IdAllocator)
      modifies alloc
      ensures Config() == VolumeConfig(hosts, name, path, mode, auth)
      ensures State() == Initial() && !closed && Valid()
      ensures volumeId !in old(alloc.outstanding)
      ensures alloc.outstanding == old(alloc.outstanding) + {volumeId}
    {
      this.hosts := hosts;
      this.name := name;
      this.remotePath := path;
      this.mode := mode;
      this.auth := auth;
      var id := alloc.Allocate();
      this.volumeId := id;
      refcount := 0;
      process := NoProcess;
      lastRc := None;
      fdsToClose := [];
      effects := [];
      closed := false;
    }

    /** `load_from_dict`: a new volume, with a fresh identifier, from a stored entry. */
    static method LoadFromDict(d: StoredVolume, alloc: IdAllocator) returns (v: Volume)
      modifies alloc
      ensures fresh(v)
      ensures v.Config() == ConfigFromDict(d)
      ensures v.State() == Initial() && !v.closed && v.Valid()
      ensures v.volumeId !in old(alloc.outstanding)
      ensures alloc.outstanding == old(alloc.outstanding) + {v.volumeId}
    {
      var c := ConfigFromDict(d);
      v := new Volume(c.hosts, c.name, c.path, c.mode, c.auth, alloc);
    }

    /** The `alive` property. */
    method Alive() returns (a: bool)
      modifies this
      ensures Probe(State(), a) == MountMachine.Alive(old(State()))
      ensures closed == old(closed)
    {
      if process == NoProcess {
        return false;
      }
      a := process == Running;
      if !a {
        while |fdsToClose| > 0
          invariant effects + CloseLogs(fdsToClose) == old(effects) + CloseLogs(old(fdsToClose))
          invariant refcount == old(refcount) && process == old(process)
          invariant lastRc == old(lastRc) && closed == old(closed)
        {
          var f := fdsToClose[|fdsToClose| - 1];
          fdsToClose := fdsToClose[..|fdsToClose| - 1];
          effects := effects + [CloseLog(f)];
        }
        lastRc := Some(process.rc);
        process := NoProcess;
      }
    }

    /** Not code of the plugin: the helper process stops on its own. */
    method HelperExits(rc: int)
      modifies this
      ensures State() == MountMachine.HelperExits(old(State()), rc)
      ensures closed == old(closed)
    {
      if process == Running {
        process := Exited(rc);
      }
    }

    /** `mount`: the mountpoint directory is left out; see Launch for the rest. */
    method Mount(debug: bool, startupExit: Option<int>) returns (o: Outcome)
      modifies this
      ensures Step(State(), o) == MountMachine.Mount(old(State()), LaunchFor(debug), startupExit)
      ensures closed == old(closed)
    {
      var launch := LaunchFor(debug);
      if debug {
        fdsToClose := LogFilesOf(name);
      }
      if !Spawnable(launch.argv) {
        return Raised(PopenTypeError);
      }
      process := Running;
      effects := effects + [Spawn(launch.argv)];
      // what time.sleep(2) lets happen
      if startupExit.Some? {
        process := Exited(startupExit.value);
      }
      var a := Alive();
      if !a {
        return Raised(MountException(lastRc.value));
      }
      return Done;
    }

    /** `unmount`: the waits become the observation `termExit`; the mountpoint
        directory is left out. */
    method Unmount(termExit: Option<int>) returns (o: Outcome)
      modifies this
      ensures Step(State(), o) == MountMachine.Unmount(old(State()), termExit)
      ensures closed == old(closed)
    {
      if process == NoProcess {
        // self.wait() calls self.process.wait on None
        return Raised(AttributeError);
      }
      var a := Alive();
      if a {
        effects := effects + [Terminate];
        // what self.wait(10) lets happen
        if termExit.Some? {
          process := Exited(termExit.value);
        }
        a := Alive();
        if a {
          // os.getpgid(pid) succeeds; os.killpg(pgid) lacks its signal argument
          return Raised(KillpgTypeError);
        }
      }
      process := NoProcess;
      return Done;
    }

    method OnMount(debug: bool, startupExit: Option<int>) returns (o: Outcome)
      modifies this
      ensures Step(State(), o) == MountMachine.OnMount(old(State()), LaunchFor(debug), startupExit)
      ensures closed == old(closed)
    {
      if refcount == 0 && process == NoProcess {
        o := Mount(debug, startupExit);
        if o.Raised? {
          return;
        }
      }
      refcount := refcount + 1;
      o := Done;
    }

    method OnUnmount(termExit: Option<int>) returns (o: Outcome)
      modifies this
      ensures Step(State(), o) == MountMachine.OnUnmount(old(State()), termExit)
      ensures closed == old(closed)
    {
      if refcount == 1 && process != NoProcess {
        o := Unmount(termExit);
        if o.Raised? {
          return;
        }
      }
      refcount := refcount - 1;
      o := Done;
    }

    /** `close`: only the first call acts; it tears down a recorded process and
        frees the identifier, unless the teardown raises. */
    method Close(alloc: IdAllocator, termExit: Option<int>) returns (o: Outcome)
      modifies this, alloc
      ensures closed
      ensures old(closed) ==>
                o == Done && State() == old(State()) && alloc.outstanding == old(alloc.outstanding)
      ensures !old(closed) && old(process) == NoProcess ==>
                o == Done && State() == old(State())
                && alloc.outstanding == old(alloc.outstanding) - {volumeId}
      ensures !old(closed) && old(process) != NoProcess ==>
                && Step(State(), o) == MountMachine.Unmount(old(State()), termExit)
                && alloc.outstanding
                   == if o == Done then old(alloc.outstanding) - {volumeId} else old(alloc.outstanding)
    {
      o := Done;
      if closed {
        return;
      }
      closed := true;
      if process != NoProcess {
        o := Unmount(termExit);
        if o.Raised? {
          return;
        }
      }
      alloc.MarkAsFree(volumeId);
    }

    /** `delete`: refuses while held, otherwise closes. */
    method Delete(alloc: IdAllocator) returns (o: Outcome)
      requires Valid()
      modifies this, alloc
      ensures old(refcount) != 0 ==>
                o == Raised(StillMounted) && State() == old(State()) && closed == old(closed)
                && alloc.outstanding == old(alloc.outstanding)
      ensures old(refcount) == 0 ==>
                o == Done && closed && State() == old(State())
                && alloc.outstanding == if old(closed) then old(alloc.outstanding)
                                        else old(alloc.outstanding) - {volumeId}
    {
      if refcount != 0 {
        return Raised(StillMounted);
      }
      // a process is recorded only while held, so close never tears down here
      o := Close(alloc, None);
    }
  }

  // ----- The registry -----

  function Without(s: seq<string>, x: string): (r: seq<string>)
    ensures forall y :: y in r <==> y in s && y != x
  {
    if |s| == 0 then [] else (if s[0] == x then [] else [s[0]]) + Without(s[1..], x)
  }

  predicate NoDuplicates(s: seq<string>)
  {
    forall i, j :: 0 <= i < j < |s| ==> s[i] != s[j]
  }

  /** The state file's content for the given names, in that order. */
  function SnapshotOf(names: seq<string>, cfgs: map<string, VolumeConfig>): (r: seq<StoredVolume>)
    requires forall i :: 0 <= i < |names| ==> names[i] in cfgs
    ensures |r| == |names|
  {
    seq(|names|, i requires 0 <= i < |names| => ConfigToDict(cfgs[names[i]]))
  }

  /** The names a load registers, in first-occurrence order. */
  function LoadedNames(data: seq<StoredVolume>): seq<string>
  {
    if |data| == 0 then []
    else
      var pre := LoadedNames(data[..|data| - 1]);
      var n := data[|data| - 1].name;
      if n in pre then pre else pre + [n]
  }

  /** The configuration a load registers under each name; a later entry for a
      name replaces an earlier one. */
  function LoadPlan(data: seq<StoredVolume>): map<string, VolumeConfig>
  {
    if |data| == 0 then map[]
    else LoadPlan(data[..|data| - 1])[data[|data| - 1].name := ConfigFromDict(data[|data| - 1])]
  }

  /** One more entry of the file: its name joins the loaded names unless
      already there, and its configuration replaces any earlier one. */
  lemma LoadStep(data: seq<StoredVolume>, i: nat)
    requires i < |data|
    ensures LoadedNames(data[..i + 1])
            == if data[i].name in LoadedNames(data[..i]) then LoadedNames(data[..i])
               else LoadedNames(data[..i]) + [data[i].name]
    ensures LoadPlan(data[..i + 1]) == LoadPlan(data[..i])[data[i].name := ConfigFromDict(data[i])]
  {
    assert data[..i + 1][..i] == data[..i];
  }

  lemma {:induction false} LoadedNamesSpec(data: seq<StoredVolume>)
    ensures NoDuplicates(LoadedNames(data))
    ensures forall n :: n in LoadedNames(data) <==> n in LoadPlan(data)
  {
    if |data| > 0 {
      LoadedNamesSpec(data[..|data| - 1]);
    }
  }

  /** Saving, then loading the file at the next start, registers the same
      names in the same order with the same configurations, up to a falsy
      credential. */
  lemma {:induction false} ReloadSnapshot(names: seq<string>, cfgs: map<string, VolumeConfig>)
    requires NoDuplicates(names)
    requires forall i :: 0 <= i < |names| ==> names[i] in cfgs && cfgs[names[i]].name == names[i]
    ensures LoadedNames(SnapshotOf(names, cfgs)) == names
    ensures LoadPlan(SnapshotOf(names, cfgs)) == map n | n in names :: Normalized(cfgs[n])
  {
    var snap := SnapshotOf(names, cfgs);
    if |names| > 0 {
      var init := names[..|names| - 1];
      var last := names[|names| - 1];
      assert NoDuplicates(init);
      assert SnapshotOf(init, cfgs) == snap[..|snap| - 1];
      ReloadSnapshot(init, cfgs);
      assert snap[|snap| - 1].name == last;
      DictRoundTrip(cfgs[last]);
      assert last !in init;
      assert names == init + [last];
    }
  }

  /** The configuration of every registered volume. */
  function ConfigsOf(vols: map<string, Volume>): map<string, VolumeConfig>
  {
    map n | n in vols :: vols[n].Config()
  }

  lemma ConfigsOfUpdate(vols: map<string, Volume>, k: string, v: Volume)
    ensures ConfigsOf(vols[k := v]) == ConfigsOf(vols)[k := v.Config()]
  {
    assert ConfigsOf(vols[k := v]).Keys == ConfigsOf(vols).Keys + {k};
  }

  /** The registry's invariant: the insertion order lists each registered name
      once; each volume is registered under its own name, open, and holds an
      identifier of its own that is still allocated. */
  ghost predicate Registry(volumes: map<string, Volume>, order: seq<string>, alloc: IdAllocator)
    reads volumes.Values, alloc
  {
    Indexed(volumes, order) && Live(volumes, alloc.outstanding)
  }

  /** The part of the invariant about names and identifiers, which never change. */
  ghost predicate Indexed(volumes: map<string, Volume>, order: seq<string>)
  {
    && NoDuplicates(order)
    && (forall n :: n in volumes <==> n in order)
    && (forall n :: n in volumes ==> volumes[n].name == n)
    && (forall n, m :: n in volumes && m in volumes && n != m ==>
          volumes[n].volumeId != volumes[m].volumeId)
  }

  /** The part of the invariant about the volumes' state and the identifiers
      still allocated. */
  ghost predicate Live(volumes: map<string, Volume>, outstanding: set<nat>)
    reads volumes.Values
  {
    forall n :: n in volumes ==>
      volumes[n].Valid() && !volumes[n].closed && volumes[n].volumeId in outstanding
  }

  /** Freeing an identifier no registered volume holds keeps the rest allocated. */
  lemma LiveFree(volumes: map<string, Volume>, ids: set<nat>, id: nat)
    requires Live(volumes, ids) && forall n :: n in volumes ==> volumes[n].volumeId != id
    ensures Live(volumes, ids - {id})
  {
  }

  /** Allocating more identifiers keeps the registered ones allocated. */
  lemma LiveGrow(volumes: map<string, Volume>, ids: set<nat>, more: set<nat>)
    requires Live(volumes, ids) && ids <= more
    ensures Live(volumes, more)
  {
  }



  /** Removing the most recently registered entry keeps the registry's invariant. */
  lemma RegistryPop(volumes: map<string, Volume>, order: seq<string>, alloc: IdAllocator)
    requires Registry(volumes, order, alloc) && order != []
    ensures var key := order[|order| - 1];
      && key in volumes
      && Registry(volumes - {key}, order[..|order| - 1], alloc)
      && (volumes - {key}).Values == volumes.Values - {volumes[key]}
      && forall n :: n in volumes - {key} ==> volumes[n].volumeId != volumes[key].volumeId
  {
    var key := order[|order| - 1];
    NoDuplicatesInit(order);
    var rest := volumes - {key};
    assert forall n :: n in rest ==> volumes[n] != volumes[key];
    forall v | v in volumes.Values && v != volumes[key] ensures v in rest.Values {
      var n :| n in volumes && volumes[n] == v;
      assert n in rest;
    }
    assert rest.Values == volumes.Values - {volumes[key]};
  }

  /** Registering an open volume whose identifier is allocated and not held by
      another entry keeps the registry's invariant. */
  lemma RegistryAdd(volumes: map<string, Volume>, order: seq<string>, alloc: IdAllocator, vol: Volume)
    requires Registry(volumes, order, alloc)
    requires vol.Valid() && !vol.closed && vol.volumeId in alloc.outstanding
    requires forall n :: n in volumes && n != vol.name ==> volumes[n].volumeId != vol.volumeId
    ensures Registry(volumes[vol.name := vol],
                     if vol.name in volumes then order else order + [vol.name], alloc)
  {
    var ord := if vol.name in volumes then order else order + [vol.name];
    if vol.name !in volumes {
      assert NoDuplicates(ord) by {
        assert forall i :: 0 <= i < |order| ==> ord[i] == order[i] && order[i] != vol.name;
      }
    }
    assert forall n :: n in volumes[vol.name := vol] <==> n in ord;
  }

  /** Unregistering a name keeps the registry's invariant; the volume leaves
      the registry, and no remaining entry shares its identifier. */
  lemma RegistryRemove(volumes: map<string, Volume>, order: seq<string>, alloc: IdAllocator, name: string)
    requires Registry(volumes, order, alloc) && name in volumes
    ensures Registry(volumes - {name}, Without(order, name), alloc)
    ensures forall n :: n in volumes - {name} ==> volumes[n] != volumes[name]
    ensures forall n :: n in volumes - {name} ==> volumes[n].volumeId != volumes[name].volumeId
  {
    WithoutKeepsDistinct(order, name);
  }

  class VolumeDatabase {
    var volumes: map<string, Volume>
    var order: seq<string>                    // the dict's keys in insertion order
    var stateFile: Option<seq<StoredVolume>>  // the state file; None when unreadable
    const alloc: IdAllocator

    ghost predicate Valid()
      reads this, volumes.Values, alloc
    {
      Registry(volumes, order, alloc)
    }

    function Configs(): map<string, VolumeConfig>
      reads this
    {
      ConfigsOf(volumes)
    }

    /** What `sync_to_disk` writes. */
    function Snapshot(): seq<StoredVolume>
      requires forall i :: 0 <= i < |order| ==> order[i] in volumes
      reads this
    {
      SnapshotOf(order, Configs())
    }

    /** `get_all_volumes`, in dict order. */
    function AllVolumes(): (r: seq<Volume>)
      requires forall i :: 0 <= i < |order| ==> order[i] in volumes
      reads this
      ensures |r| == |order| && forall i :: 0 <= i < |order| ==> r[i] == volumes[order[i]]
    {
      var names, vols := order, volumes;
      seq(|names|, i requires 0 <= i < |names| => vols[names[i]])
    }

    /** `get_volume(name)` with no configuration: the stored volume or KeyError. */
    function Find(name: string): (r: Result<Volume>)
      reads this
      ensures r.Ok? <==> name in volumes
      ensures r.Ok? ==> r.value == volumes[name]
      ensures r.Err? ==> r.error == MissingConfiguration
    {
      if name in volumes then Ok(volumes[name]) else Err(MissingConfiguration)
    }

    function VolumeExists(name: string): (b: bool)
      reads this
      ensures b <==> Find(name).Ok?
    {
      name in volumes
    }


    /** The start-up load: every entry of a readable file becomes a volume with
        a fresh identifier; an unreadable file means no volumes. */
    constructor (stored: Option<seq<StoredVolume>>, alloc: IdAllocator)
      modifies alloc
      ensures Valid() && this.alloc == alloc && stateFile == stored
      ensures order == if stored.Some? then LoadedNames(stored.value) else []
      ensures Configs() == if stored.Some? then LoadPlan(stored.value) else map[]
      ensures forall n :: n in volumes ==> fresh(volumes[n]) && volumes[n].volumeId !in old(alloc.outstanding)
      ensures alloc.outstanding >= old(alloc.outstanding)
    {
      volumes := map[];
      order := [];
      stateFile := stored;
      this.alloc := alloc;
      new;
      if stored.Some? {
        Load(stored.value);
      }
    }

    /** The loop of the start-up load over the file's entries, in file order. */
    method Load(data: seq<StoredVolume>)
      requires Valid() && volumes == map[] && order == []
      modifies this`volumes, this`order, alloc
      ensures Valid()
      ensures order == LoadedNames(data) && Configs() == LoadPlan(data)
      ensures forall n :: n in volumes ==> fresh(volumes[n]) && volumes[n].volumeId !in old(alloc.outstanding)
      ensures alloc.outstanding >= old(alloc.outstanding)
    {
      var i := 0;
      while i < |data|
        invariant 0 <= i <= |data|
        invariant Valid()
        invariant order == LoadedNames(data[..i]) && Configs() == LoadPlan(data[..i])
        invariant forall n :: n in volumes ==> fresh(volumes[n]) && volumes[n].volumeId !in old(alloc.outstanding)
        invariant alloc.outstanding >= old(alloc.outstanding)
      {
        LoadNext(data, i);
        i := i + 1;
      }
      assert data[..|data|] == data;
    }

    /** One step of the start-up load: `add_volume(Volume.load_from_dict(entry))`
        for the entry after the first `i`. */
    method LoadNext(data: seq<StoredVolume>, i: nat)
      requires i < |data| && Valid()
      requires order == LoadedNames(data[..i]) && Configs() == LoadPlan(data[..i])
      modifies this`volumes, this`order, alloc
      ensures Valid()
      ensures order == LoadedNames(data[..i + 1]) && Configs() == LoadPlan(data[..i + 1])
      ensures forall n :: n in volumes ==>
                || (n in old(volumes) && volumes[n] == old(volumes[n]))
                || (fresh(volumes[n]) && volumes[n].volumeId !in old(alloc.outstanding))
      ensures alloc.outstanding >= old(alloc.outstanding)
    {
      ghost var ids := alloc.outstanding;
      var v := Volume.LoadFromDict(data[i], alloc);
      LiveGrow(volumes, ids, alloc.outstanding);
      LoadStep(data, i);
      AddVolume(v);
    }

    /** `add_volume`: register under the volume's own name. The requirements
        are what keeps the registry's invariant; both callers meet them. */
    method AddVolume(vol: Volume)
      requires Valid()
      requires vol.Valid() && !vol.closed && vol.volumeId in alloc.outstanding
      requires forall n :: n in volumes && n != vol.name ==> volumes[n].volumeId != vol.volumeId
      modifies this`volumes, this`order
      ensures Valid() && stateFile == old(stateFile)
      ensures volumes == old(volumes)[vol.name := vol]
      ensures order == if vol.name in old(volumes) then old(order) else old(order) + [vol.name]
      ensures Configs() == old(Configs())[vol.name := vol.Config()]
    {
      ghost var vs := volumes;
      RegistryAdd(volumes, order, alloc, vol);
      order := if vol.name in volumes then order else order + [vol.name];
      volumes := volumes[vol.name := vol];
      ConfigsOfUpdate(vs, vol.name, vol);
    }

    /** The factory `get_volume`: a known name gives its volume and the other
        arguments are ignored; an unknown one needs hosts and path. */
    method GetVolume(name: string, hosts: Option<Value>, path: Option<string>,
                     mode: string, auth: Option<string>) returns (r: Result<Volume>)
      requires Valid()
      modifies this, alloc
      ensures Valid() && stateFile == old(stateFile)
      ensures name in old(volumes) || hosts.None? || path.None? ==>
                && r == old(Find(name)) && volumes == old(volumes) && order == old(order)
                && alloc.outstanding == old(alloc.outstanding)
      ensures name !in old(volumes) && hosts.Some? && path.Some? ==>
                && r.Ok? && fresh(r.value)
                && volumes == old(volumes)[name := r.value] && order == old(order) + [name]
                && r.value.Config() == VolumeConfig(hosts.value, name, path.value, mode, auth)
                && r.value.State() == Initial() && r.value.Valid() && !r.value.closed
                && r.value.volumeId in alloc.outstanding
                && (forall n :: n in volumes && n != name ==> volumes[n].volumeId != r.value.volumeId)
                && r.value.volumeId !in old(alloc.outstanding)
                && alloc.outstanding == old(alloc.outstanding) + {r.value.volumeId}
    {
      if name !in volumes {
        if hosts.None? || path.None? {
          return Err(MissingConfiguration);
        }
        var vol := new Volume(hosts.value, name, path.value, mode, auth, alloc);
        RegistryAdd(volumes, order, alloc, vol);
        volumes := volumes[name := vol];
        order := order + [name];
        return Ok(vol);
      }
      return Ok(volumes[name]);
    }

    /** `rm_volume`: the entry is popped before `delete` checks the count, so a
        held volume leaves the registry although the call raises, keeps its
        helper and its identifier, and is not closed here. */
    method RmVolume(vol: Volume) returns (o: Outcome)
      requires Valid()
      modifies this, alloc, if vol.name in volumes then {volumes[vol.name]} else {}
      ensures Valid() && stateFile == old(stateFile)
      ensures forall n :: n in volumes ==>
                && n in old(volumes) && volumes[n] == old(volumes[n])
                && volumes[n].State() == old(volumes[n].State()) && volumes[n].closed == old(volumes[n].closed)
      ensures vol.name !in old(volumes) ==>
                o == Raised(UnknownName) && volumes == old(volumes) && order == old(order)
                && alloc.outstanding == old(alloc.outstanding)
      ensures vol.name in old(volumes) ==>
                && volumes == old(volumes) - {vol.name} && order == Without(old(order), vol.name)
                && old(volumes[vol.name]).State() == old(volumes[vol.name].State())
      ensures vol.name in old(volumes) && old(volumes[vol.name].refcount) != 0 ==>
                && o == Raised(StillMounted) && !old(volumes[vol.name]).closed
                && alloc.outstanding == old(alloc.outstanding)
      ensures vol.name in old(volumes) && old(volumes[vol.name].refcount) == 0 ==>
                && o == Done && old(volumes[vol.name]).closed
                && alloc.outstanding == old(alloc.outstanding) - {old(volumes[vol.name]).volumeId}
    {
      if vol.name !in volumes {
        return Raised(UnknownName);
      }
      var popped := volumes[vol.name];
      RegistryRemove(volumes, order, alloc, vol.name);
      volumes := volumes - {vol.name};
      order := Without(order, vol.name);
      o := popped.Delete(alloc);
    }

    /** `popitem()`: remove and return the most recently inserted entry. */
    method PopItem() returns (key: string, vol: Volume)
      requires Valid() && order != []
      modifies this`volumes, this`order
      ensures Valid() && stateFile == old(stateFile)
      ensures key == old(order[|order| - 1]) && order == old(order[..|order| - 1])
      ensures key in old(volumes) && vol == old(volumes[key]) && volumes == old(volumes) - {key}
      ensures volumes.Values == old(volumes.Values) - {vol}
      ensures vol.Valid() && !vol.closed && vol.volumeId in alloc.outstanding
      ensures forall n :: n in volumes ==> volumes[n].volumeId != vol.volumeId
    {
      key := order[|order| - 1];
      RegistryPop(volumes, order, alloc);
      vol := volumes[key];
      volumes := volumes - {key};
      order := order[..|order| - 1];
    }

    /** `close`: pop the most recently inserted volume and close it, until none
        is left; a teardown that raises ends the loop with that volume popped.
        `exits` gives, per name, what the wait after SIGTERM shows. The loop
        empties the registry unless some volume's helper is running and
        outlives its SIGTERM. */
    method Close(exits: string -> Option<int>) returns (o: Outcome)
      requires Valid()
      modifies this, volumes.Values, alloc
      ensures Valid() && stateFile == old(stateFile)
      ensures volumes.Values <= old(volumes.Values)
      ensures forall v :: v in old(volumes.Values) && v !in volumes.Values ==> v.closed
      ensures o == Done ==> volumes == map[] && order == []
      ensures o.Raised? ==> o.error == KillpgTypeError
      ensures (forall n :: n in old(volumes) ==> old(volumes[n].process) != Running || exits(n).Some?) ==>
                o == Done
    {
      o := Done;
      ghost var processes := map n | n in volumes :: volumes[n].process;
      ghost var start := volumes.Values;
      while order != []
        invariant Valid() && stateFile == old(stateFile)
        invariant volumes.Values <= start
        invariant forall v :: v in start && v !in volumes.Values ==> v.closed
        invariant forall n :: n in volumes ==> n in processes && volumes[n].process == processes[n]
        invariant o == Done
        decreases |order|
      {
        o := CloseNewest(exits, start);
        if o.Raised? {
          return;
        }
      }
    }

    /** One round of `close`: pop the newest entry and close its volume. It
        raises exactly when that volume's helper is running and outlives
        SIGTERM; otherwise its identifier is freed. Only that volume changes. */
    method CloseNewest(exits: string -> Option<int>, ghost start: set<Volume>) returns (o: Outcome)
      requires Valid() && order != []
      requires volumes.Values <= start && forall v :: v in start && v !in volumes.Values ==> v.closed
      modifies this`volumes, this`order, volumes[order[|order| - 1]], alloc
      ensures Valid() && stateFile == old(stateFile)
      ensures order == old(order[..|order| - 1]) && volumes == old(volumes) - {old(order[|order| - 1])}
      ensures volumes.Values == old(volumes.Values) - {old(volumes[order[|order| - 1]])}
      ensures forall v :: v in old(volumes.Values) && v !in volumes.Values ==> v.closed
      ensures volumes.Values <= start && forall v :: v in start && v !in volumes.Values ==> v.closed
      ensures forall n :: n in volumes ==> volumes[n].process == old(volumes[n].process)
      ensures o.Raised? <==>
                old(volumes[order[|order| - 1]].process) == Running && exits(old(order[|order| - 1])).None?
      ensures o.Raised? ==> o.error == KillpgTypeError
      ensures alloc.outstanding == if o.Done? then old(alloc.outstanding) - {old(volumes[order[|order| - 1]]).volumeId}
                                   else old(alloc.outstanding)
    {
      var key, vol := PopItem();
      o := ClosePopped(vol, exits(key));
    }

    /** `vol.close()` on a volume just popped: only it and the allocator change. */
    method ClosePopped(vol: Volume, termExit: Option<int>) returns (o: Outcome)
      requires Valid() && vol !in volumes.Values
      requires vol.Valid() && !vol.closed && vol.volumeId in alloc.outstanding
      requires forall n :: n in volumes ==> volumes[n].volumeId != vol.volumeId
      modifies vol, alloc
      ensures Valid() && vol.closed
      ensures forall n :: n in volumes ==> volumes[n].process == old(volumes[n].process)
      ensures o.Raised? <==> old(vol.process) == Running && termExit.None?
      ensures o.Raised? ==> o.error == KillpgTypeError
      ensures alloc.outstanding == if o.Done? then old(alloc.outstanding) - {vol.volumeId}
                                   else old(alloc.outstanding)
    {
      ghost var ids := alloc.outstanding;
      ghost var st := vol.State();
      LiveFree(volumes, ids, vol.volumeId);
      o := vol.Close(alloc, termExit);
      UnmountSpec(st, termExit);
      LiveGrow(volumes, ids - {vol.volumeId}, alloc.outstanding);
    }

    /** `sync_to_disk`: the file then holds every volume's `to_dict`, in dict order. */
    method SyncToDisk()
      requires Valid()
      modifies this`stateFile
      ensures Valid() && stateFile == Some(Snapshot())
    {
      var all := AllVolumes();
      var data := seq(|all|, i requires 0 <= i < |all| => all[i].ToDict());
      assert data == SnapshotOf(order, Configs()) by {
        forall i | 0 <= i < |all|
          ensures data[i] == SnapshotOf(order, Configs())[i]
        {
          assert all[i] == volumes[order[i]] && Configs()[order[i]] == volumes[order[i]].Config();
        }
      }
      stateFile := Some(data);
    }
  }

  /** Dropping the last of distinct names leaves distinct names, none of them the last. */
  lemma NoDuplicatesInit(s: seq<string>)
    requires NoDuplicates(s) && |s| > 0
    ensures NoDuplicates(s[..|s| - 1])
    ensures forall n :: n in s <==> n in s[..|s| - 1] || n == s[|s| - 1]
    ensures s[|s| - 1] !in s[..|s| - 1]
  {
    assert s == s[..|s| - 1] + [s[|s| - 1]];
  }

  lemma {:induction false} WithoutKeepsDistinct(s: seq<string>, x: string)
    requires NoDuplicates(s)
    ensures NoDuplicates(Without(s, x))
  {
    if |s| > 0 {
      assert NoDuplicates(s[1..]) by {
        forall i, j | 0 <= i < j < |s[1..]| ensures s[1..][i] != s[1..][j] { assert s[1..][i] == s[i + 1]; assert s[1..][j] == s[j + 1]; }
      }
      WithoutKeepsDistinct(s[1..], x);
      var rest := Without(s[1..], x);
      assert s[0] !in s[1..];
      assert s[0] !in rest;
    }
  }

  /** Restart after `sync_to_disk`: loading what it wrote registers the same
      names in the same order, each with its configuration up to a falsy
      credential. */
  lemma DatabaseReload(db: VolumeDatabase)
    requires db.Valid()
    ensures LoadedNames(db.Snapshot()) == db.order
    ensures LoadPlan(db.Snapshot()) == map n | n in db.volumes :: Normalized(db.volumes[n].Config())
  {
    ReloadSnapshot(db.order, db.Configs());
    assert (map n | n in db.order :: Normalized(db.Configs()[n]))
        == (map n | n in db.volumes :: Normalized(db.volumes[n].Config()));
  }

  /** Volumes registered together have different mountpoints. */
  lemma MountpointsDistinct(db: VolumeDatabase, n: string, m: string)
    requires db.Valid() && n in db.volumes && m in db.volumes && n != m
    ensures db.volumes[n].Path() != db.volumes[m].Path()
  {
    if db.volumes[n].Path() == db.volumes[m].Path() {
      MountpointInjective(db.volumes[n].volumeId, db.volumes[m].volumeId);
    }
  }
}
