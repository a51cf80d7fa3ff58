/** The argument vector with which a volume starts the FUSE helper
    (zookeeper_plugin/volumes.py, Volume.mount), and a reading of that vector
    back into the settings it carries. */
module Commandline {
  import opened Wrappers

  /** What can stand in an argument vector: a string, or a list of strings
      (the shape in which the dispatcher hands over the hosts, which the vector
      then carries unchanged). */
  datatype Value = Str(s: string) | StrList(items: seq<string>)

  const Executable: string := "/usr/bin/zookeeperfuse"

  /** Python truthiness of an optional string: present and non-empty. */
  predicate Truthy(auth: Option<string>)
  {
    auth.Some? && auth.value != ""
  }

  /** The vector `mount` builds: FUSE options before `--`, helper options after. */
  function BuildCommandLine(hosts: Value, path: string, mountpoint: string,
                            mode: string, auth: Option<string>, debug: bool): seq<Value>
  {
    [Str(Executable), Str("-o"), Str("auto_unmount"), Str("-f"), Str(mountpoint)]
    + (if debug then [Str("-o"), Str("debug")] else [])
    + [Str("--")]
    + HelperArguments(hosts, path, mode, auth, debug)
  }

  /** The helper options `mount` appends after `--`. */
  function HelperArguments(hosts: Value, path: string, mode: string,
                           auth: Option<string>, debug: bool): seq<Value>
  {
    [Str("--zooHosts"), hosts, Str("--zooPath"), Str(path)]
    + (Flag("--leafMode", mode, mode != "DIR")
    + (Flag("--zooAuthentication", AuthText(auth), Truthy(auth))
    + Flag("--logLevel", "DEBUG", debug)))
  }

  /** `commandline.extend([flag, value])` when `present`. */
  function Flag(flag: string, value: string, present: bool): (r: seq<Value>)
    ensures Spawnable(r)
  {
    if present then [Str(flag), Str(value)] else []
  }

  function AuthText(auth: Option<string>): string
  {
    if auth.Some? then auth.value else ""
  }

  /** `subprocess.Popen` accepts the vector only if every element is a string. */
  predicate Spawnable(argv: seq<Value>)
  {
    forall i :: 0 <= i < |argv| ==> argv[i].Str?
  }

  lemma SpawnableAppend(a: seq<Value>, b: seq<Value>)
    ensures Spawnable(a + b) <==> Spawnable(a) && Spawnable(b)
  {
    if Spawnable(a) && Spawnable(b) {
      forall i | 0 <= i < |a + b| ensures (a + b)[i].Str? {
        if i >= |a| { assert (a + b)[i] == b[i - |a|]; }
      }
    }
    if Spawnable(a + b) {
      forall i | 0 <= i < |a| ensures a[i].Str? { assert (a + b)[i] == a[i]; }
      forall i | 0 <= i < |b| ensures b[i].Str? { assert (a + b)[|a| + i] == b[i]; }
    }
  }

  /** The vector can be spawned exactly when the hosts value is a string. */
  lemma SpawnableIffTextHosts(hosts: Value, path: string, mountpoint: string,
                              mode: string, auth: Option<string>, debug: bool)
    ensures Spawnable(BuildCommandLine(hosts, path, mountpoint, mode, auth, debug)) <==> hosts.Str?
  {
    var front := [Str(Executable), Str("-o"), Str("auto_unmount"), Str("-f"), Str(mountpoint)]
                 + (if debug then [Str("-o"), Str("debug")] else [])
                 + [Str("--")];
    var required := [Str("--zooHosts"), hosts, Str("--zooPath"), Str(path)];
    var g := Flag("--logLevel", "DEBUG", debug);
    var u := Flag("--zooAuthentication", AuthText(auth), Truthy(auth));
    var l := Flag("--leafMode", mode, mode != "DIR");
    assert Spawnable(front) by {
      forall i | 0 <= i < |front| ensures front[i].Str? {
        if debug { assert i < 8; } else { assert i < 6; }
      }
    }
    assert Spawnable(required) <==> hosts.Str? by { assert required[1] == hosts; }
    SpawnableAppend(u, g);
    SpawnableAppend(l, u + g);
    SpawnableAppend(required, l + (u + g));
    SpawnableAppend(front, HelperArguments(hosts, path, mode, auth, debug));
  }

  // ----- Reading a vector back -----

  /** What a vector says: the mountpoint, the `-o` options given after the
      fixed `-o auto_unmount -f <mountpoint>` head, and the helper's
      `--flag value` pairs after `--`. */
  datatype Invocation = Invocation(mountpoint: string, fuseOptions: seq<string>,
                                   helperOptions: map<string, Value>)

  /** `-o <option>` pairs up to `--`; gives the options and what follows `--`. */
  function ParseFuseOptions(s: seq<Value>): Option<(seq<string>, seq<Value>)>
  {
    if |s| == 0 then None
    else if s[0] == Str("--") then Some(([], s[1..]))
    else if |s| >= 2 && s[0] == Str("-o") && s[1].Str? then
      match ParseFuseOptions(s[2..])
      case None => None
      case Some(r) => Some(([s[1].s] + r.0, r.1))
    else None
  }

  /** `--flag value` pairs with distinct flags. */
  function ParsePairs(s: seq<Value>): Option<map<string, Value>>
  {
    if |s| == 0 then Some(map[])
    else if |s| == 1 || !s[0].Str? then None
    else
      match ParsePairs(s[2..])
      case None => None
      case Some(m) => if s[0].s in m then None else Some(m[s[0].s := s[1]])
  }

  function ParseCommandLine(argv: seq<Value>): Option<Invocation>
  {
    if |argv| < 5 || argv[..4] != [Str(Executable), Str("-o"), Str("auto_unmount"), Str("-f")]
       || !argv[4].Str?
    then None
    else
      match ParseFuseOptions(argv[5..])
      case None => None
      case Some(r) =>
        match ParsePairs(r.1)
        case None => None
        case Some(m) => Some(Invocation(argv[4].s, r.0, m))
  }

  /** The settings a helper takes from an invocation: the hosts and the remote
      path are required, the leaf mode defaults to `DIR`, the credential to none,
      and debugging is on when FUSE is given `-o debug`. */
  datatype Settings = Settings(mountpoint: string, hosts: Value, path: string, mode: string,
                               auth: Option<string>, debug: bool)

  function Decode(inv: Invocation): Option<Settings>
  {
    var m := inv.helperOptions;
    if "--zooHosts" !in m || "--zooPath" !in m || !m["--zooPath"].Str? then None
    else if "--leafMode" in m && !m["--leafMode"].Str? then None
    else if "--zooAuthentication" in m && !m["--zooAuthentication"].Str? then None
    else
      Some(Settings(inv.mountpoint, m["--zooHosts"], m["--zooPath"].s,
                    if "--leafMode" in m then m["--leafMode"].s else "DIR",
                    if "--zooAuthentication" in m then Some(m["--zooAuthentication"].s) else None,
                    "debug" in inv.fuseOptions))
  }

  lemma ParsePairsCons(k: string, v: Value, rest: seq<Value>)
    ensures ParsePairs([Str(k), v] + rest) ==
            match ParsePairs(rest)
            case None => None
            case Some(m) => if k in m then None else Some(m[k := v])
  {
    assert ([Str(k), v] + rest)[2..] == rest;
  }

  /** Parsing a flag ahead of pairs that do not mention it adds that flag. */
  lemma ParseFlag(flag: string, value: string, present: bool, rest: seq<Value>, m: map<string, Value>)
    requires ParsePairs(rest) == Some(m) && flag !in m
    ensures ParsePairs(Flag(flag, value, present) + rest)
            == Some(if present then m[flag := Str(value)] else m)
  {
    if present {
      ParsePairsCons(flag, Str(value), rest);
    } else {
      assert Flag(flag, value, present) + rest == rest;
    }
  }

  /** The flags and values that the optional helper options carry, added in
      the order in which `mount` appends them. */
  function OptionalFlagsMap(mode: string, auth: Option<string>, debug: bool): map<string, Value>
  {
    var m1: map<string, Value> := if debug then map["--logLevel" := Str("DEBUG")] else map[];
    var m2 := if Truthy(auth) then m1["--zooAuthentication" := Str(AuthText(auth))] else m1;
    if mode != "DIR" then m2["--leafMode" := Str(mode)] else m2
  }

  /** All flags and values that the helper options carry. */
  function HelperMap(hosts: Value, path: string, mode: string,
                     auth: Option<string>, debug: bool): map<string, Value>
  {
    OptionalFlagsMap(mode, auth, debug)["--zooPath" := Str(path)]["--zooHosts" := hosts]
  }

  /** The three optional flags, read ahead of nothing. */
  lemma ParseOptionalFlags(mode: string, auth: Option<string>, debug: bool)
    ensures ParsePairs(Flag("--leafMode", mode, mode != "DIR")
                       + (Flag("--zooAuthentication", AuthText(auth), Truthy(auth))
                       + Flag("--logLevel", "DEBUG", debug)))
            == Some(OptionalFlagsMap(mode, auth, debug))
  {
    var g := Flag("--logLevel", "DEBUG", debug);
    var u := Flag("--zooAuthentication", AuthText(auth), Truthy(auth));
    var m0: map<string, Value> := map[];
    ParseFlag("--logLevel", "DEBUG", debug, [], m0);
    assert g + [] == g;
    var m1 := if debug then m0["--logLevel" := Str("DEBUG")] else m0;
    ParseFlag("--zooAuthentication", AuthText(auth), Truthy(auth), g, m1);
    var m2 := if Truthy(auth) then m1["--zooAuthentication" := Str(AuthText(auth))] else m1;
    ParseFlag("--leafMode", mode, mode != "DIR", u + g, m2);
  }

  /** The two required flags, read ahead of pairs that mention neither. */
  lemma ParseRequiredFlags(hosts: Value, path: string, rest: seq<Value>, m: map<string, Value>)
    requires ParsePairs(rest) == Some(m) && "--zooHosts" !in m && "--zooPath" !in m
    ensures ParsePairs([Str("--zooHosts"), hosts, Str("--zooPath"), Str(path)] + rest)
            == Some(m["--zooPath" := Str(path)]["--zooHosts" := hosts])
  {
    ParsePairsCons("--zooPath", Str(path), rest);
    ParsePairsCons("--zooHosts", hosts, [Str("--zooPath"), Str(path)] + rest);
    assert [Str("--zooHosts"), hosts, Str("--zooPath"), Str(path)] + rest
        == [Str("--zooHosts"), hosts] + ([Str("--zooPath"), Str(path)] + rest);
  }

  lemma ParseHelperArgumentsMap(hosts: Value, path: string, mode: string,
                                auth: Option<string>, debug: bool)
    ensures ParsePairs(HelperArguments(hosts, path, mode, auth, debug))
            == Some(HelperMap(hosts, path, mode, auth, debug))
  {
    var rest := Flag("--leafMode", mode, mode != "DIR")
                + (Flag("--zooAuthentication", AuthText(auth), Truthy(auth))
                + Flag("--logLevel", "DEBUG", debug));
    ParseOptionalFlags(mode, auth, debug);
    ParseRequiredFlags(hosts, path, rest, OptionalFlagsMap(mode, auth, debug));
  }

  /** The helper options after `--`: which flags are present, and their values. */
  lemma ParseHelperArguments(hosts: Value, path: string, mode: string,
                             auth: Option<string>, debug: bool)
    ensures var p := ParsePairs(HelperArguments(hosts, path, mode, auth, debug));
      && p.Some?
      && p.value.Keys == {"--zooHosts", "--zooPath"}
                         + (if mode != "DIR" then {"--leafMode"} else {})
                         + (if Truthy(auth) then {"--zooAuthentication"} else {})
                         + (if debug then {"--logLevel"} else {})
      && p.value["--zooHosts"] == hosts
      && p.value["--zooPath"] == Str(path)
      && (mode != "DIR" ==> p.value["--leafMode"] == Str(mode))
      && (Truthy(auth) ==> p.value["--zooAuthentication"] == Str(auth.value))
      && (debug ==> p.value["--logLevel"] == Str("DEBUG"))
  {
    ParseHelperArgumentsMap(hosts, path, mode, auth, debug);
  }

  /** The FUSE part of the built vector: `-o debug` in debug mode, then `--`. */
  lemma ParseFuseOptionsOfBuilt(debug: bool, tail: seq<Value>)
    ensures ParseFuseOptions((if debug then [Str("-o"), Str("debug")] else []) + [Str("--")] + tail)
            == Some((if debug then ["debug"] else [], tail))
  {
    var s := (if debug then [Str("-o"), Str("debug")] else []) + [Str("--")] + tail;
    if debug {
      assert s[0] == Str("-o") && s[1] == Str("debug");
      assert s[2..] == [Str("--")] + tail;
      assert s[2..][0] == Str("--") && s[2..][1..] == tail;
      assert ParseFuseOptions(s[2..]) == Some(([], tail));
      assert ["debug"] + [] == ["debug"];
    } else {
      assert s[0] == Str("--") && s[1..] == tail;
    }
  }

  /** Reading a vector of the shape `mount` builds, whatever follows `--`. */
  lemma ParseCommandLineOf(mountpoint: string, debug: bool, tail: seq<Value>)
    ensures ParseCommandLine([Str(Executable), Str("-o"), Str("auto_unmount"), Str("-f"), Str(mountpoint)]
                             + (if debug then [Str("-o"), Str("debug")] else [])
                             + [Str("--")]
                             + tail)
            == match ParsePairs(tail)
               case None => None
               case Some(m) => Some(Invocation(mountpoint, if debug then ["debug"] else [], m))
  {
    var head := [Str(Executable), Str("-o"), Str("auto_unmount"), Str("-f"), Str(mountpoint)];
    var fuse := (if debug then [Str("-o"), Str("debug")] else []) + [Str("--")] + tail;
    var argv := head + (if debug then [Str("-o"), Str("debug")] else []) + [Str("--")] + tail;
    assert argv == head + fuse;
    assert argv[..4] == [Str(Executable), Str("-o"), Str("auto_unmount"), Str("-f")];
    assert argv[4] == Str(mountpoint);
    assert argv[5..] == fuse;
    ParseFuseOptionsOfBuilt(debug, tail);
  }

  /** Reading the built vector back: the fixed head, the mountpoint, `-o debug`
      exactly in debug mode, then the helper options of ParseHelperArguments. */
  lemma ParseBuildCommandLine(hosts: Value, path: string, mountpoint: string,
                              mode: string, auth: Option<string>, debug: bool)
    ensures var inv := ParseCommandLine(BuildCommandLine(hosts, path, mountpoint, mode, auth, debug));
      && inv.Some?
      && inv.value.mountpoint == mountpoint
      && inv.value.fuseOptions == (if debug then ["debug"] else [])
      && Some(inv.value.helperOptions) == ParsePairs(HelperArguments(hosts, path, mode, auth, debug))
  {
    ParseHelperArgumentsMap(hosts, path, mode, auth, debug);
    ParseCommandLineOf(mountpoint, debug, HelperArguments(hosts, path, mode, auth, debug));
  }

  /** The settings carried by the helper options of a built vector. */
  lemma DecodeHelperMap(hosts: Value, path: string, mountpoint: string,
                        mode: string, auth: Option<string>, debug: bool)
    ensures Decode(Invocation(mountpoint, if debug then ["debug"] else [],
                              HelperMap(hosts, path, mode, auth, debug)))
         == Some(Settings(mountpoint, hosts, path, mode, if Truthy(auth) then auth else None, debug))
  {
    var m := HelperMap(hosts, path, mode, auth, debug);
    assert "--leafMode" in m <==> mode != "DIR";
    assert "--zooAuthentication" in m <==> Truthy(auth);
  }

  /** The helper reads back exactly what `mount` meant to pass: the credential
      only when it is truthy, the mode always (`DIR` when omitted). */
  lemma DecodeBuildCommandLine(hosts: Value, path: string, mountpoint: string,
                               mode: string, auth: Option<string>, debug: bool)
    ensures var inv := ParseCommandLine(BuildCommandLine(hosts, path, mountpoint, mode, auth, debug));
      && inv.Some?
      && Decode(inv.value)
         == Some(Settings(mountpoint, hosts, path, mode, if Truthy(auth) then auth else None, debug))
  {
    ParseBuildCommandLine(hosts, path, mountpoint, mode, auth, debug);
    ParseHelperArgumentsMap(hosts, path, mode, auth, debug);
    DecodeHelperMap(hosts, path, mountpoint, mode, auth, debug);
  }
}
