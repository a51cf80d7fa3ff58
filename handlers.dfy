/** The Docker volume-plugin routes of zookeeper_plugin/handlers.py, each from
    the request's JSON and the registry to the response body and status code.
    A route that returns a bare body answers 200 (the `as_json` wrapper); an
    exception no route catches is answered 500 with its text (the application's
    error handler). */
module Handlers {
  import opened Wrappers
  import opened Text
  import opened Commandline
  import opened MountMachine
  import opened Volumes
  import opened Connections

  /** The request: its `Name` (absent when the JSON has none) and its `Opts`
      (empty when absent). */
  datatype Request = Request(name: Option<string>, opts: map<string, string>)

  /** The JSON object a route answers with. */
  datatype Body =
    | ErrBody(err: string)                                  // {'Err': err}
    | MountpointBody(mountpoint: string, err: string)       // {'Mountpoint': ..., 'Err': ...}
    | ListBody(volumes: seq<Entry>)                         // {'Err': '', 'Volumes': [...]}
    | VolumeBody(name: string, mountpoint: string)          // {'Volume': {...}, 'Err': ''}
    | ImplementsBody(implements: seq<string>)               // {'Implements': [...]}
    | CapabilitiesBody(scope: string)                       // {'Capabilities': {'Scope': ...}}
    | ExceptionBody(error: Error)                           // {'Err': str(error)} from the error handler

  /** One element of the list route's `Volumes`. */
  datatype Entry = Entry(name: string, mountpoint: string)

  datatype Response = Response(body: Body, status: int)

  const NoSuchVolume: string := "volume does not exist"

  /** The answer to a request without `Name`: the KeyError reaches the error handler. */
  function NoName(): Response
  {
    Response(ExceptionBody(MissingKey("Name")), 500)
  }

  /** `activate`: the plugin implements the volume driver protocol. */
  function Activate(): (r: Response)
    ensures r.status == 200 && r.body.ImplementsBody? && r.body.implements == ["VolumeDriver"]
  {
    Response(ImplementsBody(["VolumeDriver"]), 200)
  }

  /** `capabilities_get`: volumes are visible from every node. */
  function CapabilitiesGet(): (r: Response)
    ensures r.status == 200 && r.body.CapabilitiesBody? && r.body.scope == "global"
  {
    Response(CapabilitiesBody("global"), 200)
  }

  // ----- Create -----

  datatype CreateOptions = CreateOptions(hosts: seq<string>, path: string)

  /** The options of `volume_create`: `host` wins over `hosts`, which is split
      on commas; the path defaults to `/`; neither host option is a 400. */
  function ParseCreateOptions(opts: map<string, string>): (r: Option<CreateOptions>)
    ensures r.None? <==> "host" !in opts && "hosts" !in opts
    ensures r.Some? ==> |r.value.hosts| >= 1
    ensures r.Some? ==> r.value.path == if "path" in opts then opts["path"] else "/"
  {
    var path := if "path" in opts then opts["path"] else "/";
    if "host" in opts then Some(CreateOptions([opts["host"]], path))
    else if "hosts" in opts then Some(CreateOptions(Split(opts["hosts"], ','), path))
    else None
  }

  /** `host` gives a one-element list whatever `hosts` says; otherwise the list
      holds comma-free pieces that join back into the `hosts` option. */
  lemma CreateOptionsHosts(opts: map<string, string>)
    ensures "host" in opts ==> ParseCreateOptions(opts).value.hosts == [opts["host"]]
    ensures "host" !in opts && "hosts" in opts ==>
              && Join(ParseCreateOptions(opts).value.hosts, ',') == opts["hosts"]
              && FreeOf(ParseCreateOptions(opts).value.hosts, ',')
  {
    if "host" !in opts && "hosts" in opts {
      JoinSplit(opts["hosts"], ',');
    }
  }

  /** What `volume_create` hands to the registry as the hosts: the list itself
      as written, or the normalised string of `to_hosts`. */
  function HostsValue(hosts: seq<string>, normalized: bool): Value
  {
    if normalized then Str(ToHosts(hosts)) else StrList(hosts)
  }

  /** `volume_create`; `normalized` false is the code as written. */
  method VolumeCreate(db: VolumeDatabase, req: Request, normalized: bool) returns (resp: Response)
    requires db.Valid()
    modifies db, db.alloc
    ensures db.Valid()
    ensures req.name.None? || ParseCreateOptions(req.opts).None? || req.name.value in old(db.volumes) ==>
              && db.volumes == old(db.volumes) && db.order == old(db.order) && db.stateFile == old(db.stateFile)
              && db.alloc.outstanding == old(db.alloc.outstanding)
    ensures req.name.None? ==> resp == NoName()
    ensures req.name.Some? && ParseCreateOptions(req.opts).None? ==>
              resp == Response(ErrBody("expected host or hosts in options"), 400)
    ensures req.name.Some? && ParseCreateOptions(req.opts).Some? && req.name.value in old(db.volumes) ==>
              resp == Response(ErrBody("volume already exists"), 409)
    ensures req.name.Some? && ParseCreateOptions(req.opts).Some? && req.name.value !in old(db.volumes) ==>
              var name := req.name.value;
              var o := ParseCreateOptions(req.opts).value;
              && resp == Response(ErrBody(""), 200)
              && name in db.volumes && fresh(db.volumes[name])
              && db.volumes.Keys == old(db.volumes.Keys) + {name}
              && (forall n :: n in old(db.volumes) ==> db.volumes[n] == old(db.volumes[n]))
              && db.order == old(db.order) + [name]
              && db.volumes[name].Config() == VolumeConfig(HostsValue(o.hosts, normalized), name, o.path, "DIR", None)
              && db.volumes[name].State() == Initial()
              && db.volumes[name].volumeId !in old(db.alloc.outstanding)
              && db.alloc.outstanding == old(db.alloc.outstanding) + {db.volumes[name].volumeId}
              && db.stateFile == Some(db.Snapshot())
  {
    if req.name.None? {
      return NoName();
    }
    var name := req.name.value;
    var options := ParseCreateOptions(req.opts);
    if options.None? {
      return Response(ErrBody("expected host or hosts in options"), 400);
    }
    if db.VolumeExists(name) {
      return Response(ErrBody("volume already exists"), 409);
    }
    Register(db, name, HostsValue(options.value.hosts, normalized), options.value.path);
    return Response(ErrBody(""), 200);
  }

  /** The success path of `volume_create`: make the volume, register it and
      rewrite the state file. */
  method Register(db: VolumeDatabase, name: string, hosts: Value, path: string)
    requires db.Valid() && name !in db.volumes
    modifies db, db.alloc
    ensures db.Valid()
    ensures name in db.volumes && fresh(db.volumes[name])
    ensures db.volumes.Keys == old(db.volumes.Keys) + {name}
    ensures forall n :: n in old(db.volumes) ==> db.volumes[n] == old(db.volumes[n])
    ensures db.order == old(db.order) + [name]
    ensures db.volumes[name].Config() == VolumeConfig(hosts, name, path, "DIR", None)
    ensures db.volumes[name].State() == Initial()
    ensures db.volumes[name].volumeId !in old(db.alloc.outstanding)
    ensures db.alloc.outstanding == old(db.alloc.outstanding) + {db.volumes[name].volumeId}
    ensures db.stateFile == Some(db.Snapshot())
  {
    var r := db.GetVolume(name, Some(hosts), Some(path), "DIR", None);
    Persist(db, r.value);
  }

  /** `add_volume` of a volume the factory already registered, then
      `sync_to_disk`: the registry stays as it is and the file is rewritten. */
  method Persist(db: VolumeDatabase, vol: Volume)
    requires db.Valid() && vol.name in db.volumes && db.volumes[vol.name] == vol
    modifies db
    ensures db.Valid()
    ensures db.volumes == old(db.volumes) && db.order == old(db.order)
    ensures db.stateFile == Some(db.Snapshot())
  {
    db.AddVolume(vol);
    assert db.volumes == old(db.volumes);
    db.SyncToDisk();
  }

  // ----- Remove -----

  /** `volume_remove`. A held volume is popped and then refused by `delete`;
      the RuntimeError reaches the error handler before the state file is
      rewritten, so the file still lists the volume. */
  method VolumeRemove(db: VolumeDatabase, req: Request) returns (resp: Response)
    requires db.Valid()
    modifies db, db.alloc, if req.name.Some? && req.name.value in db.volumes then {db.volumes[req.name.value]} else {}
    ensures db.Valid()
    ensures forall n :: n in db.volumes ==>
              && n in old(db.volumes) && db.volumes[n] == old(db.volumes[n])
              && db.volumes[n].State() == old(db.volumes[n].State())
              && db.volumes[n].closed == old(db.volumes[n].closed)
    ensures req.name.None? || req.name.value !in old(db.volumes) ==>
              && db.volumes == old(db.volumes) && db.order == old(db.order) && db.stateFile == old(db.stateFile)
              && db.alloc.outstanding == old(db.alloc.outstanding)
    ensures req.name.None? ==> resp == NoName()
    ensures req.name.Some? && req.name.value !in old(db.volumes) ==> resp == Response(ErrBody(NoSuchVolume), 404)
    ensures req.name.Some? && req.name.value in old(db.volumes) ==>
              db.volumes == old(db.volumes) - {req.name.value} && db.order == Without(old(db.order), req.name.value)
    ensures req.name.Some? && req.name.value in old(db.volumes) && old(db.volumes[req.name.value].refcount) != 0 ==>
              && resp == Response(ExceptionBody(StillMounted), 500) && db.stateFile == old(db.stateFile)
              && !old(db.volumes[req.name.value]).closed
              && old(db.volumes[req.name.value]).State() == old(db.volumes[req.name.value].State())
              && db.alloc.outstanding == old(db.alloc.outstanding)
    ensures req.name.Some? && req.name.value in old(db.volumes) && old(db.volumes[req.name.value].refcount) == 0 ==>
              && resp == Response(ErrBody(""), 200)
              && old(db.volumes[req.name.value]).closed
              && db.alloc.outstanding == old(db.alloc.outstanding) - {old(db.volumes[req.name.value]).volumeId}
              && db.stateFile == Some(db.Snapshot())
  {
    if req.name.None? {
      return NoName();
    }
    var found := db.Find(req.name.value);
    if found.Err? {
      return Response(ErrBody(NoSuchVolume), 404);
    }
    var o := db.RmVolume(found.value);
    if o.Raised? {
      return Response(ExceptionBody(o.error), 500);
    }
    db.SyncToDisk();
    return Response(ErrBody(""), 200);
  }

  // ----- Mount and unmount -----

  /** The answer of `volume_mount` once `on_mount` has returned or raised. */
  function MountResponse(o: Outcome, mountpoint: string): (r: Response)
    ensures r.status == 200 <==> o.Done?
    ensures o.Done? ==> r.body == MountpointBody(mountpoint, "")
    ensures o.Raised? && o.error.MountException? ==> r.body == MountpointBody("", "Exception on mounting")
    ensures o.Raised? && !o.error.MountException? ==> r.body == ExceptionBody(o.error)
    ensures !o.Done? ==> r.status == 500
  {
    match o
    case Done => Response(MountpointBody(mountpoint, ""), 200)
    case Raised(MountException(_)) => Response(MountpointBody("", "Exception on mounting"), 500)
    case Raised(e) => Response(ExceptionBody(e), 500)
  }

  /** The answer of `volume_unmount` once `on_unmount` has returned or raised. */
  function UnmountResponse(o: Outcome): (r: Response)
    ensures r.status == 200 <==> o.Done?
    ensures o.Done? ==> r.body == ErrBody("")
    ensures o.Raised? ==> r.body == ExceptionBody(o.error) && r.status == 500
  {
    if o.Done? then Response(ErrBody(""), 200) else Response(ExceptionBody(o.error), 500)
  }

  /** `volume_mount`; `debug` is the DEBUG setting, `startupExit` what the
      grace period shows of the helper. */
  method VolumeMount(db: VolumeDatabase, req: Request, debug: bool, startupExit: Option<int>)
    returns (resp: Response)
    requires db.Valid()
    modifies if req.name.Some? && req.name.value in db.volumes then {db.volumes[req.name.value]} else {}
    ensures db.Valid()
    ensures forall n :: n in db.volumes && (req.name.None? || n != req.name.value) ==>
              db.volumes[n].State() == old(db.volumes[n].State()) && db.volumes[n].closed == old(db.volumes[n].closed)
    ensures req.name.None? ==> resp == NoName()
    ensures req.name.Some? && req.name.value !in db.volumes ==>
              resp == Response(MountpointBody("", NoSuchVolume), 404)
    ensures req.name.Some? && req.name.value in db.volumes ==>
              var v := db.volumes[req.name.value];
              var r := MountMachine.OnMount(old(v.State()), v.LaunchFor(debug), startupExit);
              v.State() == r.state && resp == MountResponse(r.outcome, v.Path())
  {
    if req.name.None? {
      return NoName();
    }
    var found := db.Find(req.name.value);
    if found.Err? {
      return Response(MountpointBody("", NoSuchVolume), 404);
    }
    var vol := found.value;
    ghost var before := vol.State();
    var o := vol.OnMount(debug, startupExit);
    InvPreserved(before, vol.LaunchFor(debug), startupExit, None, 0);
    return MountResponse(o, vol.Path());
  }

  /** `volume_unmount`; `termExit` is what the wait after terminate shows. */
  method VolumeUnmount(db: VolumeDatabase, req: Request, termExit: Option<int>) returns (resp: Response)
    requires db.Valid()
    modifies if req.name.Some? && req.name.value in db.volumes then {db.volumes[req.name.value]} else {}
    ensures db.Valid()
    ensures forall n :: n in db.volumes && (req.name.None? || n != req.name.value) ==>
              db.volumes[n].State() == old(db.volumes[n].State()) && db.volumes[n].closed == old(db.volumes[n].closed)
    ensures req.name.None? ==> resp == NoName()
    ensures req.name.Some? && req.name.value !in db.volumes ==>
              resp == Response(MountpointBody("", NoSuchVolume), 404)
    ensures req.name.Some? && req.name.value in db.volumes ==>
              var v := db.volumes[req.name.value];
              var r := MountMachine.OnUnmount(old(v.State()), termExit);
              v.State() == r.state && resp == UnmountResponse(r.outcome)
  {
    if req.name.None? {
      return NoName();
    }
    var found := db.Find(req.name.value);
    if found.Err? {
      return Response(MountpointBody("", NoSuchVolume), 404);
    }
    var vol := found.value;
    ghost var before := vol.State();
    var o := vol.OnUnmount(termExit);
    InvPreserved(before, vol.LaunchFor(false), None, termExit, 0);
    return UnmountResponse(o);
  }

  // ----- Queries -----

  /** The `Volumes` list for the given names, in that order. */
  function ListingOf(names: seq<string>, vols: map<string, Volume>): (r: seq<Entry>)
    requires forall i :: 0 <= i < |names| ==> names[i] in vols
    ensures |r| == |names|
  {
    seq(|names|, i requires 0 <= i < |names| => Entry(vols[names[i]].name, vols[names[i]].Path()))
  }

  /** `volumes_list`. */
  method VolumesList(db: VolumeDatabase) returns (resp: Response)
    requires forall i :: 0 <= i < |db.order| ==> db.order[i] in db.volumes
    ensures resp == Response(ListBody(ListingOf(db.order, db.volumes)), 200)
  {
    var all := db.AllVolumes();
    var result: seq<Entry> := [];
    for i := 0 to |all|
      invariant result == ListingOf(db.order[..i], db.volumes)
    {
      var volume := all[i];
      result := result + [Entry(volume.name, volume.Path())];
    }
    assert db.order[..|db.order|] == db.order;
    return Response(ListBody(result), 200);
  }

  /** The list names every registered volume once, in registration order,
      and no two entries share a mountpoint. */
  lemma ListingSpec(db: VolumeDatabase)
    requires db.Valid()
    ensures var l := ListingOf(db.order, db.volumes);
      && |l| == |db.volumes|
      && (forall i :: 0 <= i < |l| ==> l[i].name == db.order[i] && l[i].mountpoint == db.volumes[db.order[i]].Path())
      && (forall n :: n in db.volumes <==> exists i :: 0 <= i < |l| && l[i].name == n)
      && (forall i, j :: 0 <= i < j < |l| ==> l[i].mountpoint != l[j].mountpoint)
  {
    var l := ListingOf(db.order, db.volumes);
    assert db.volumes.Keys == set n | n in db.order;
    NoDuplicatesCardinality(db.order);
    forall i, j | 0 <= i < j < |l| ensures l[i].mountpoint != l[j].mountpoint {
      MountpointsDistinct(db, db.order[i], db.order[j]);
    }
    forall n | n in db.volumes ensures exists i :: 0 <= i < |l| && l[i].name == n {
      var i :| 0 <= i < |db.order| && db.order[i] == n;
      assert l[i].name == n;
    }
  }

  lemma {:induction false} NoDuplicatesCardinality(s: seq<string>)
    requires NoDuplicates(s)
    ensures |set n | n in s| == |s|
  {
    if |s| > 0 {
      var t := s[1..];
      assert NoDuplicates(t) by {
        forall i, j | 0 <= i < j < |t| ensures t[i] != t[j] { assert t[i] == s[i + 1] && t[j] == s[j + 1]; }
      }
      NoDuplicatesCardinality(t);
      assert (set n | n in s) == (set n | n in t) + {s[0]};
      assert s[0] !in (set n | n in t);
    }
  }

  /** `volume_path`. */
  function VolumePath(db: VolumeDatabase, req: Request): (r: Response)
    reads db
    ensures req.name.None? ==> r == NoName()
    ensures req.name.Some? ==> (r.status == 200 <==> req.name.value in db.volumes)
    ensures req.name.Some? && req.name.value in db.volumes ==>
              r.body == MountpointBody(db.volumes[req.name.value].Path(), "")
    ensures req.name.Some? && req.name.value !in db.volumes ==>
              r == Response(MountpointBody("", NoSuchVolume), 404)
  {
    if req.name.None? then NoName()
    else
      match db.Find(req.name.value)
      case Err(_) => Response(MountpointBody("", NoSuchVolume), 404)
      case Ok(vol) => Response(MountpointBody(vol.Path(), ""), 200)
  }

  /** `volume_get`. */
  function VolumeGet(db: VolumeDatabase, req: Request): (r: Response)
    reads db
    ensures req.name.None? ==> r == NoName()
    ensures req.name.Some? ==> (r.status == 200 <==> req.name.value in db.volumes)
    ensures req.name.Some? && req.name.value in db.volumes ==>
              r.body == VolumeBody(db.volumes[req.name.value].name, db.volumes[req.name.value].Path())
    ensures req.name.Some? && req.name.value !in db.volumes ==>
              r == Response(MountpointBody("", NoSuchVolume), 404)
  {
    if req.name.None? then NoName()
    else
      match db.Find(req.name.value)
      case Err(_) => Response(MountpointBody("", NoSuchVolume), 404)
      case Ok(vol) => Response(VolumeBody(vol.name, vol.Path()), 200)
  }

  /** Path, get and a successful mount name the same mountpoint, and get
      reports the name that was asked for. */
  lemma RoutesAgreeOnMountpoint(db: VolumeDatabase, req: Request, o: Outcome)
    requires db.Valid() && req.name.Some? && req.name.value in db.volumes
    ensures var p := VolumePath(db, req);
      var g := VolumeGet(db, req);
      var v := db.volumes[req.name.value];
      && p.status == 200 && g.status == 200
      && g.body.name == req.name.value
      && p.body.mountpoint == g.body.mountpoint
      && (o.Done? ==> MountResponse(o, v.Path()).body.mountpoint == p.body.mountpoint)
  {
  }

  // ----- The hosts list reaching the helper -----

  /** As written, a volume whose hosts are a list never starts its helper:
      from an idle state `on_mount` raises TypeError and records nothing, and
      in no state does it spawn. */
  lemma ListHostsNeverMount(items: seq<string>, name: string, path: string, id: nat, debug: bool,
                            s: MountState, startupExit: Option<int>)
    ensures var launch := Launch(BuildCommandLine(StrList(items), path, MountpointOf(id), "DIR", None, debug),
                                 if debug then Some(LogFilesOf(name)) else None);
      var r := MountMachine.OnMount(s, launch, startupExit);
      && Spawns(r.state.effects) == Spawns(s.effects)
      && (s.refcount == 0 && s.process == NoProcess ==>
            r.outcome == Raised(PopenTypeError) && r.state.refcount == 0)
  {
    var launch := Launch(BuildCommandLine(StrList(items), path, MountpointOf(id), "DIR", None, debug),
                         if debug then Some(LogFilesOf(name)) else None);
    SpawnableIffTextHosts(StrList(items), path, MountpointOf(id), "DIR", None, debug);
    OnMountSpec(s, launch, startupExit);
  }

  /** With the hosts normalised, the first mount of a created volume spawns
      the helper once, and the helper reads back the normalised hosts; for
      comma-free hosts, splitting what it reads gives them sorted. */
  lemma NormalizedHostsMount(items: seq<string>, name: string, path: string, id: nat, debug: bool)
    ensures var argv := BuildCommandLine(HostsValue(items, true), path, MountpointOf(id), "DIR", None, debug);
      var launch := Launch(argv, if debug then Some(LogFilesOf(name)) else None);
      var r := MountMachine.OnMount(Initial(), launch, None);
      var inv := ParseCommandLine(argv);
      && r.outcome == Done && r.state.refcount == 1 && r.state.process == Running
      && Spawns(r.state.effects) == 1
      && inv.Some? && Decode(inv.value).Some?
      && Decode(inv.value).value.hosts == Str(ToHosts(items))
      && (|items| >= 1 && FreeOf(items, ',') ==> Split(Decode(inv.value).value.hosts.s, ',') == Sort(items))
  {
    var argv := BuildCommandLine(HostsValue(items, true), path, MountpointOf(id), "DIR", None, debug);
    var launch := Launch(argv, if debug then Some(LogFilesOf(name)) else None);
    SpawnableIffTextHosts(HostsValue(items, true), path, MountpointOf(id), "DIR", None, debug);
    FirstMount(launch);
    DecodeBuildCommandLine(HostsValue(items, true), path, MountpointOf(id), "DIR", None, debug);
    if |items| >= 1 && FreeOf(items, ',') {
      ToHostsSplit(items);
    }
  }
}
