/** The earlier draft in zookeeper_plugin/connections.py: the host-list
    normaliser `to_hosts`, and a simpler `Volume` whose counter logic differs
    from the live one (its unmount never forgets the process handle). */
module Connections {
  import opened Wrappers
  import opened Text
  import opened IdAllocation
  import Volumes

  /** `to_hosts`: the hosts sorted and joined with commas. */
  function ToHosts(items: seq<string>): string
  {
    Join(Sort(items), ',')
  }

  /** Any reordering of the same hosts gives the same string. */
  lemma ToHostsPermutationInvariant(a: seq<string>, b: seq<string>)
    requires multiset(a) == multiset(b)
    ensures ToHosts(a) == ToHosts(b)
  {
    SortCorrect(a);
    SortCorrect(b);
    SortedUnique(Sort(a), Sort(b));
  }

  /** Sorting keeps every element, so it keeps comma-freeness. */
  lemma SortKeepsFreeOf(items: seq<string>, sep: char)
    requires FreeOf(items, sep)
    ensures FreeOf(Sort(items), sep) && |Sort(items)| == |items|
  {
    SortCorrect(items);
    var s := Sort(items);
    assert |s| == |multiset(s)| == |multiset(items)| == |items|;
    forall i | 0 <= i < |s| ensures sep !in s[i] {
      assert s[i] in multiset(items);
      var j :| 0 <= j < |items| && items[j] == s[i];
    }
  }

  /** For a non-empty list of comma-free hosts, splitting the result on commas
      gives back the sorted list: a sorted permutation of the input. */
  lemma ToHostsSplit(items: seq<string>)
    requires |items| >= 1 && FreeOf(items, ',')
    ensures Split(ToHosts(items), ',') == Sort(items)
    ensures Sorted(Split(ToHosts(items), ','))
    ensures multiset(Split(ToHosts(items), ',')) == multiset(items)
  {
    SortKeepsFreeOf(items, ',');
    SortCorrect(items);
    SplitJoin(Sort(items), ',');
  }

  /** Normalising an already normalised list changes nothing. */
  lemma ToHostsIdempotent(items: seq<string>)
    requires |items| >= 1 && FreeOf(items, ',')
    ensures ToHosts(Split(ToHosts(items), ',')) == ToHosts(items)
  {
    ToHostsSplit(items);
    ToHostsPermutationInvariant(Sort(items), items);
  }

  /** Iterating a string yields its characters, so a stored hosts string fed
      back through `to_hosts` comes out as its characters sorted and joined
      with commas: the same string exactly when it has at most one character. */
  lemma ReloadHosts(s: string)
    ensures ToHosts(Chars(s)) == s <==> |s| <= 1
  {
    var cs := Chars(s);
    var xs := Sort(cs);
    SortCorrect(cs);
    assert |xs| == |multiset(xs)| == |multiset(cs)| == |s|;
    if |s| == 1 {
      assert cs == [[s[0]]];
      assert xs == [[s[0]]];
    } else if |s| >= 2 {
      forall i | 0 <= i < |xs| ensures |xs[i]| == 1 {
        assert xs[i] in multiset(cs);
        var j :| 0 <= j < |cs| && cs[j] == xs[i];
      }
      JoinOfSingletonsLength(xs, ',');
    }
  }

  // ----- The draft volume -----

  datatype DraftEffect = Started(command: string) | Terminated

  /** The counter, whether a process handle is recorded, and what was done. */
  datatype DraftState = DraftState(refcount: int, hasProcess: bool, effects: seq<DraftEffect>)

  datatype DraftStep = DraftStep(state: DraftState, outcome: Outcome)

  function DraftInitial(): DraftState
  {
    DraftState(0, false, [])
  }

  /** The command the draft's mount means to run. */
  function DraftCommand(mountpoint: string, path: string, hosts: string): string
  {
    "zookeeperfuse " + mountpoint + " -- --zooPath " + path + " --zooHosts " + hosts
  }

  /** `mount`; `spawnError` is what building the command and spawning raise.
      The command reads `self.handler`, which is never assigned, so as written
      it is always `Some(AttributeError)`. */
  function DraftMount(s: DraftState, command: string, spawnError: Option<Error>): DraftStep
  {
    if spawnError.Some? then DraftStep(s, Raised(spawnError.value))
    else DraftStep(s.(hasProcess := true, effects := s.effects + [Started(command)]), Done)
  }

  /** `unmount`: terminate the recorded process and keep the handle; with no
      handle, `None.terminate` raises. */
  function DraftUnmount(s: DraftState): DraftStep
  {
    if !s.hasProcess then DraftStep(s, Raised(AttributeError))
    else DraftStep(s.(effects := s.effects + [Terminated]), Done)
  }

  function DraftOnMount(s: DraftState, command: string, spawnError: Option<Error>): DraftStep
  {
    if s.refcount == 0 && !s.hasProcess then
      var r := DraftMount(s, command, spawnError);
      if r.outcome.Raised? then r
      else DraftStep(r.state.(refcount := r.state.refcount + 1), Done)
    else DraftStep(s.(refcount := s.refcount + 1), Done)
  }

  function DraftOnUnmount(s: DraftState): DraftStep
  {
    if s.refcount == 1 then
      var r := DraftUnmount(s);
      if r.outcome.Raised? then r
      else DraftStep(r.state.(refcount := r.state.refcount - 1), Done)
    else DraftStep(s.(refcount := s.refcount - 1), Done)
  }

  /** `on_mount` starts a process exactly when the count is 0, no handle is
      recorded and the spawn succeeds; it adds 1 unless mount raised. */
  lemma DraftOnMountSpec(s: DraftState, command: string, spawnError: Option<Error>)
    ensures var r := DraftOnMount(s, command, spawnError);
      && (r.state.effects == s.effects + [Started(command)]
          <==> s.refcount == 0 && !s.hasProcess && spawnError.None?)
      && (r.outcome.Raised? <==> s.refcount == 0 && !s.hasProcess && spawnError.Some?)
      && (r.outcome.Raised? ==> r.state == s && r.outcome.error == spawnError.value)
      && (r.outcome.Done? ==> r.state.refcount == s.refcount + 1)
      && (r.outcome.Done? && !(s.refcount == 0 && !s.hasProcess) ==> r.state == s.(refcount := s.refcount + 1))
  {
  }

  /** `on_unmount` calls unmount whenever the count is 1, without looking at
      the handle, and subtracts 1 unless unmount raised; the handle is never
      cleared. */
  lemma DraftOnUnmountSpec(s: DraftState)
    ensures var r := DraftOnUnmount(s);
      && r.state.hasProcess == s.hasProcess
      && (r.state.effects == s.effects + [Terminated] <==> s.refcount == 1 && s.hasProcess)
      && (r.outcome.Raised? <==> s.refcount == 1 && !s.hasProcess)
      && (r.outcome.Raised? ==> r.state == s && r.outcome.error == AttributeError)
      && (r.outcome.Done? ==> r.state.refcount == s.refcount - 1)
      && (s.refcount != 1 ==> r.state == s.(refcount := s.refcount - 1))
  {
  }

  /** After one mount and one unmount the handle is still recorded, so the next
      `on_mount` at count 0 skips mount: nothing is started however the spawn
      would have gone, and the count becomes 1. */
  lemma DraftCycleSkipsMount(command: string, later: string, spawnError: Option<Error>)
    ensures var a := DraftOnMount(DraftInitial(), command, None);
      var b := DraftOnUnmount(a.state);
      var c := DraftOnMount(b.state, later, spawnError);
      && a.outcome == Done && b.outcome == Done && c.outcome == Done
      && b.state.refcount == 0 && b.state.hasProcess
      && c.state.refcount == 1
      && c.state.effects == [Started(command), Terminated]
  {
  }

  datatype DraftCall = MountCall | UnmountCall

  /** A sequence of calls made on the draft as written; an exception leaves the
      state as it was and the next call goes ahead. */
  function DraftRun(s: DraftState, mountpoint: string, path: string, hosts: string,
                    calls: seq<DraftCall>): DraftState
    decreases |calls|
  {
    if |calls| == 0 then s
    else
      var r := if calls[0] == MountCall
               then DraftOnMount(s, DraftCommand(mountpoint, path, hosts), Some(AttributeError))
               else DraftOnUnmount(s);
      DraftRun(r.state, mountpoint, path, hosts, calls[1..])
  }

  /** As written the draft never starts anything: from any state at count 0
      or below without a handle, whatever the calls, the count stays at
      0 or below, no handle appears and no effect is recorded. */
  lemma {:induction false} DraftAsWrittenNeverMounts(s: DraftState, mountpoint: string, path: string,
                                                     hosts: string, calls: seq<DraftCall>)
    requires s.refcount <= 0 && !s.hasProcess
    ensures var t := DraftRun(s, mountpoint, path, hosts, calls);
      t.refcount <= 0 && !t.hasProcess && t.effects == s.effects
    decreases |calls|
  {
    if |calls| > 0 {
      var r := if calls[0] == MountCall
               then DraftOnMount(s, DraftCommand(mountpoint, path, hosts), Some(AttributeError))
               else DraftOnUnmount(s);
      DraftAsWrittenNeverMounts(r.state, mountpoint, path, hosts, calls[1..]);
    }
  }

  /** `to_dict`: exactly the keys `hosts`, `name` and `path`. */
  function DraftRecord(hosts: string, name: string, path: string): (d: map<string, string>)
  {
    map["hosts" := hosts, "name" := name, "path" := path]
  }

  /** The constructor arguments `load_from_dict` reads, or the missing key. */
  function DraftFromRecord(d: map<string, string>): Result<(seq<string>, string, string)>
  {
    if "hosts" !in d then Err(MissingKey("hosts"))
    else if "name" !in d then Err(MissingKey("name"))
    else if "path" !in d then Err(MissingKey("path"))
    else Ok((Chars(d["hosts"]), d["name"], d["path"]))
  }

  /** A saved record has exactly three keys and loads back with the same name
      and path, but with hosts given as the characters of the stored string. */
  lemma DraftRecordRoundTrip(hosts: string, name: string, path: string)
    ensures DraftRecord(hosts, name, path).Keys == {"hosts", "name", "path"}
    ensures DraftFromRecord(DraftRecord(hosts, name, path)) == Ok((Chars(hosts), name, path))
  {
  }

  /** Save and reload of a draft volume keeps its hosts string exactly when
      that string has at most one character. */
  lemma DraftReloadHosts(items: seq<string>, name: string, path: string)
    ensures var r := DraftFromRecord(DraftRecord(ToHosts(items), name, path));
      r.Ok? && (ToHosts(r.value.0) == ToHosts(items) <==> |ToHosts(items)| <= 1)
  {
    ReloadHosts(ToHosts(items));
  }

  class DraftVolume {
    const hosts: string
    const name: string
    const path: string
    const volumeId: nat
    var refcount: int
    var hasProcess: bool
    var effects: seq<DraftEffect>
    var closed: bool

    function State(): DraftState
      reads this
    {
      DraftState(refcount, hasProcess, effects)
    }

    /** `to_path`. */
    function ToPath(): string
    {
      Volumes.MountpointOf(volumeId)
    }

    function ToDict(): map<string, string>
    {
      DraftRecord(hosts, name, path)
    }

    constructor (hosts: seq<string>, name: string, path: string, alloc: IdAllocator)
      modifies alloc
      ensures this.hosts == ToHosts(hosts) && this.name == name && this.path == path
      ensures State() == DraftInitial() && !closed
      ensures volumeId !in old(alloc.outstanding)
      ensures alloc.outstanding == old(alloc.outstanding) + {volumeId}
    {
      this.hosts := ToHosts(hosts);
      this.name := name;
      this.path := path;
      var id := alloc.Allocate();
      this.volumeId := id;
      refcount := 0;
      hasProcess := false;
      effects := [];
      closed := false;
    }

    static method LoadFromDict(d: map<string, string>, alloc: IdAllocator)
      returns (r: Result<DraftVolume>)
      modifies alloc
      ensures DraftFromRecord(d).Err? ==>
                r == Err(DraftFromRecord(d).error) && alloc.outstanding == old(alloc.outstanding)
      ensures DraftFromRecord(d).Ok? ==>
                && r.Ok? && fresh(r.value)
                && r.value.hosts == ToHosts(DraftFromRecord(d).value.0)
                && r.value.name == d["name"] && r.value.path == d["path"]
                && r.value.State() == DraftInitial() && !r.value.closed
                && alloc.outstanding == old(alloc.outstanding) + {r.value.volumeId}
    {
      var args := DraftFromRecord(d);
      if args.Err? {
        return Err(args.error);
      }
      var v := new DraftVolume(args.value.0, args.value.1, args.value.2, alloc);
      return Ok(v);
    }

    /** `mount` as written: the command's `self.handler.hosts` raises before
        anything is spawned. */
    method Mount() returns (o: Outcome)
      modifies this
      ensures var r := DraftMount(old(State()), DraftCommand(ToPath(), path, hosts), Some(AttributeError));
        State() == r.state && o == r.outcome
      ensures closed == old(closed)
    {
      return Raised(AttributeError);
    }

    method Unmount() returns (o: Outcome)
      modifies this
      ensures var r := DraftUnmount(old(State())); State() == r.state && o == r.outcome
      ensures closed == old(closed)
    {
      if !hasProcess {
        return Raised(AttributeError);
      }
      effects := effects + [Terminated];
      return Done;
    }

    method OnMount() returns (o: Outcome)
      modifies this
      ensures var r := DraftOnMount(old(State()), DraftCommand(ToPath(), path, hosts), Some(AttributeError));
        State() == r.state && o == r.outcome
      ensures closed == old(closed)
    {
      if refcount == 0 && !hasProcess {
        o := Mount();
        if o.Raised? {
          return;
        }
      }
      refcount := refcount + 1;
      o := Done;
    }

    method OnUnmount() returns (o: Outcome)
      modifies this
      ensures var r := DraftOnUnmount(old(State())); State() == r.state && o == r.outcome
      ensures closed == old(closed)
    {
      if refcount == 1 {
        o := Unmount();
        if o.Raised? {
          return;
        }
      }
      refcount := refcount - 1;
      o := Done;
    }

    /** `close`: only the first call acts; it terminates a recorded process
        (which cannot raise) and frees the identifier. */
    method Close(alloc: IdAllocator)
      modifies this, alloc
      ensures closed
      ensures old(closed) ==> State() == old(State()) && alloc.outstanding == old(alloc.outstanding)
      ensures !old(closed) ==>
                && State() == (if old(hasProcess) then DraftUnmount(old(State())).state else old(State()))
                && alloc.outstanding == old(alloc.outstanding) - {volumeId}
    {
      if closed {
        return;
      }
      closed := true;
      if hasProcess {
        var o := Unmount();
      }
      alloc.MarkAsFree(volumeId);
    }
  }
}
