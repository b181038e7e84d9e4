/** The Arista cEOS node kind: how it prepares its configuration at Init,
    writes its flash files before deployment, creates its container, and
    restarts the container after deployment so that the configuration
    rendered with the management addresses the runtime assigned takes
    effect. */
module Ceos {
  import opened Types
  import opened Runtime
  import opened Mac

  /** Environment every cEOS container starts with; the node's own
      environment is merged with it by the helper. */
  const CeosEnv: map<string, string> := map[
    "CEOS" := "1",
    "EOS_PLATFORM" := "ceoslab",
    "container" := "docker",
    "ETBA" := "4",
    "SKIP_ZEROTOUCH_BARRIER_IN_SYSDBINIT" := "1",
    "INTFTYPE" := "eth",
    "MAPETH0" := "1",
    "MGMT_INTF" := "eth0"]

  /** Arista's vendor prefix for generated management MAC addresses. */
  const AristaOui: string := "00:1c:73"

  /** Helpers of the shared utility package whose behaviour is not part of
      this model: map merging, MAC generation and path joining. */
  datatype Helpers = Helpers(
    mergeStringMaps: (map<string, string>, map<string, string>) -> map<string, string>,
    genMac: string -> string,
    join: seq<string> -> string)

  /** A node option; the only one modelled sets the management network. */
  datatype NodeOption = WithMgmtNetOption(mgmt: MgmtNet)

  /** A filesystem effect of PreDeploy. */
  datatype FsOp = MakeDir(path: string) | WriteFile(path: string, content: string)

  // ---------------------------------------------------------------------------
  // The container command line.

  const InitPrefix: string := "/sbin/init "

  /** The kernel argument that exports one environment variable. */
  function SetEnvArg(k: string, v: string): string
  {
    "systemd.setenv=" + k + "=" + v + " "
  }

  /** `order` lists every key of `keys` exactly once. */
  predicate IsKeyOrder(order: seq<string>, keys: set<string>)
  {
    && (forall i :: 0 <= i < |order| ==> order[i] in keys)
    && (forall k :: k in keys ==> k in order)
    && (forall i, j :: 0 <= i < j < |order| ==> order[i] != order[j])
  }

  /** The environment arguments for the keys of `order`, in that order. */
  function Segments(order: seq<string>, env: map<string, string>): (s: string)
    requires forall i :: 0 <= i < |order| ==> order[i] in env
    ensures order == [] <==> s == ""
    decreases |order|
  {
    if order == [] then ""
    else
      var k := order[|order| - 1];
      Segments(order[..|order| - 1], env) + SetEnvArg(k, env[k])
  }

  /** `cmd` is the init command for `env` under some enumeration order of
      its keys; Go's map iteration order is unspecified, so any order is
      allowed. */
  ghost predicate IsInitCmd(cmd: string, env: map<string, string>)
  {
    exists order :: IsKeyOrder(order, env.Keys) && cmd == InitPrefix + Segments(order, env)
  }

  /** Builds the init command by walking the environment in an arbitrary
      order; `order` is the order the walk took. */
  method InitCmd(env: map<string, string>) returns (cmd: string, ghost order: seq<string>)
    ensures IsKeyOrder(order, env.Keys)
    ensures cmd == InitPrefix + Segments(order, env)
  {
    cmd := InitPrefix;
    order := [];
    var remaining := env.Keys;
    ghost var done: set<string> := {};
    while remaining != {}
      invariant done + remaining == env.Keys && done !! remaining
      invariant IsKeyOrder(order, done)
      invariant cmd == InitPrefix + Segments(order, env)
      decreases remaining
    {
      var k :| k in remaining;
      cmd := cmd + SetEnvArg(k, env[k]);
      SegmentsSnoc(order, env, k);
      KeyOrderSnoc(order, done, k);
      order := order + [k];
      done := done + {k};
      remaining := remaining - {k};
    }
  }

  /** Walking one more, not yet listed, key extends a key order. */
  lemma KeyOrderSnoc(order: seq<string>, done: set<string>, k: string)
    requires IsKeyOrder(order, done) && k !in done
    ensures IsKeyOrder(order + [k], done + {k})
  {
    assert forall x :: x in done ==> x in order + [k];
  }

  lemma SegmentsSnoc(order: seq<string>, env: map<string, string>, k: string)
    requires forall i :: 0 <= i < |order| ==> order[i] in env
    requires k in env
    ensures Segments(order + [k], env) == Segments(order, env) + SetEnvArg(k, env[k])
  {
    assert (order + [k])[..|order|] == order;
  }

  /** The arguments for a prefix of the order form a prefix of all the
      arguments. */
  lemma {:induction false} SegmentsPrefix(order: seq<string>, env: map<string, string>, j: nat)
    requires forall i :: 0 <= i < |order| ==> order[i] in env
    requires j <= |order|
    ensures Segments(order[..j], env) <= Segments(order, env)
    decreases |order|
  {
    if j < |order| {
      assert order[..|order| - 1][..j] == order[..j];
      SegmentsPrefix(order[..|order| - 1], env, j);
    } else {
      assert order[..j] == order;
    }
  }

  /** Every environment variable is exported by the init command: the
      argument for the key at position `j` of the order starts right after
      the arguments of the keys before it. */
  lemma SegmentsExport(order: seq<string>, env: map<string, string>, j: nat)
    requires forall i :: 0 <= i < |order| ==> order[i] in env
    requires j < |order|
    ensures var at := |Segments(order[..j], env)|;
            var arg := SetEnvArg(order[j], env[order[j]]);
            at + |arg| <= |Segments(order, env)| &&
            Segments(order, env)[at..at + |arg|] == arg
  {
    SegmentsPrefix(order, env, j + 1);
    assert order[..j + 1][..j] == order[..j];
    var arg := SetEnvArg(order[j], env[order[j]]);
    assert Segments(order[..j + 1], env) == Segments(order[..j], env) + arg;
  }

  // ---------------------------------------------------------------------------
  // The system MAC address.

  /** The system MAC is the management MAC with its last byte incremented,
      wrapping at 256 like Go's byte arithmetic. */
  function SysMac(m: seq<Byte>): (r: seq<Byte>)
    requires |m| == 6
    ensures |r| == 6
    ensures r[..5] == m[..5]
    ensures r[5] as int == (m[5] as int + 1) % 256
    ensures r != m
  {
    m[5 := ((m[5] as int + 1) % 256) as Byte]
  }

  /** The system MAC file holds a text that parses back to the system MAC. */
  lemma SysMacFileReadsBack(m: seq<Byte>)
    requires |m| == 6
    ensures ParseMac(FormatMac(SysMac(m))) == Some(SysMac(m))
    ensures FormatMac(SysMac(m)) != FormatMac(m)
  {
    FormatThenParse(SysMac(m));
    FormatThenParse(m);
  }

  /** Writes the flash files of `node`: records the startup-config path in
      `resConfig`, then parses the management MAC; a MAC that does not parse
      aborts with no file written, otherwise the system MAC is written. */
  method CreateCeosFiles(node: NodeConfig, h: Helpers) returns (err: Option<Error>, ops: seq<FsOp>)
    modifies node`resConfig
    ensures node.resConfig == h.join([node.labDir, "flash", "startup-config"])
    ensures err.Some? <==> ParseMac(node.macAddress).None?
    ensures err.Some? ==> err == Some(InvalidMac(node.macAddress))
    ensures err.Some? ==> ops == [MakeDir(h.join([node.labDir, "flash"]))]
    ensures err.None? ==>
      ops == [MakeDir(h.join([node.labDir, "flash"])),
              WriteFile(h.join([node.labDir, "flash", "system_mac_address"]),
                        FormatMac(SysMac(ParseMac(node.macAddress).value)))]
  {
    ops := [MakeDir(h.join([node.labDir, "flash"]))];
    node.resConfig := h.join([node.labDir, "flash", "startup-config"]);
    var hw := ParseMac(node.macAddress);
    if hw.None? {
      return Some(InvalidMac(node.macAddress)), ops;
    }
    var mac := hw.value;
    var m := new Byte[6](i requires 0 <= i < 6 => mac[i]);
    m[5] := ((m[5] as int + 1) % 256) as Byte;
    assert m[..] == SysMac(mac);
    ops := ops + [WriteFile(h.join([node.labDir, "flash", "system_mac_address"]), FormatMac(m[..]))];
    err := None;
  }

  // ---------------------------------------------------------------------------
  // The post-deploy restart.

  /** The calls of the post-deploy restart, in order; `nsPath` is what the
      namespace lookup reports. */
  function RestartPlan(resConfig: string, mgmtIPv4: string, mgmtIPv6: string,
                       id: string, longName: string, nsPath: string): (plan: seq<Call>)
    ensures |plan| == 6
    ensures forall i :: 0 <= i < 6 ==> (plan[i].StopContainer? <==> i == 1)
    ensures forall i :: 0 <= i < 6 ==> (plan[i].StartContainer? <==> i == 3)
    ensures forall i :: 0 <= i < 6 ==> (plan[i].GenerateConfig? <==> i == 0)
    ensures plan[1] == StopContainer(id, 1) && plan[3] == StartContainer(id)
    ensures plan[4] == GetNSPath(id) && plan[5] == LinkContainerNS(nsPath, longName)
  {
    [GenerateConfig(resConfig, mgmtIPv4, mgmtIPv6), StopContainer(id, 1), DeleteNetnsSymlink(longName),
     StartContainer(id), GetNSPath(id), LinkContainerNS(nsPath, longName)]
  }

  /** Index, among `n` calls made from trace position `base` on, of the
      first that fails; `n` when none does. */
  function FirstFailure(base: nat, failAt: set<nat>, n: nat): (k: nat)
    ensures k <= n
    ensures forall p :: base <= p < base + k ==> p !in failAt
    ensures k < n ==> base + k in failAt
  {
    if n == 0 then 0
    else
      var k := FirstFailure(base, failAt, n - 1);
      if k < n - 1 then k
      else if base + n - 1 in failAt then n - 1
      else n
  }

  /** How many of `n` planned calls are made when call `k` is the first to
      fail: the failing call is made, the ones after it are not. */
  function Made(k: nat, n: nat): (m: nat)
    requires k <= n
    ensures m <= n && (k < n ==> m == k + 1) && (k == n ==> m == n)
  {
    if k < n then k + 1 else n
  }

  /** `made` is a complete restart of the container of `nodeCfg`: the
      configuration is regenerated first, the container is stopped exactly
      once (second) and started exactly once (fourth), and the namespace
      linked last is the node's recorded path. */
  predicate RestartedOnce(made: seq<Call>, nodeCfg: NodeConfig)
    reads nodeCfg
  {
    && |made| == 6
    && made[0] == GenerateConfig(nodeCfg.resConfig, nodeCfg.mgmtIPv4Address, nodeCfg.mgmtIPv6Address)
    && made[1] == StopContainer(nodeCfg.containerID, 1) && made[3] == StartContainer(nodeCfg.containerID)
    && (forall i :: 0 <= i < 6 && made[i].StopContainer? ==> i == 1)
    && (forall i :: 0 <= i < 6 && made[i].StartContainer? ==> i == 3)
    && made[5] == LinkContainerNS(nodeCfg.nsPath, nodeCfg.longName)
  }

  /** The first four calls of the restart: regenerate the configuration,
      force-stop the container, drop its namespace symlink and start it
      again; the first failing call aborts with its error. */
  method Restart(host: Host, resConfig: string, mgmtIPv4: string, mgmtIPv6: string,
                 id: string, longName: string) returns (err: Option<Error>)
    modifies host
    ensures
      var k := FirstFailure(|old(host.trace)|, host.failAt, 4);
      var plan := RestartPlan(resConfig, mgmtIPv4, mgmtIPv6, id, longName, host.nsPathOf(id));
      && host.trace == old(host.trace) + plan[..Made(k, 4)]
      && err == (if k < 4 then Some(CallFailed(plan[k])) else None)
  {
    ghost var plan := RestartPlan(resConfig, mgmtIPv4, mgmtIPv6, id, longName, host.nsPathOf(id));
    ghost var k := FirstFailure(|host.trace|, host.failAt, 4);
    err := host.Invoke(GenerateConfig(resConfig, mgmtIPv4, mgmtIPv6));
    if err.Some? {
      assert k == 0;
      return;
    }
    err := host.Invoke(StopContainer(id, 1));
    if err.Some? {
      assert k == 1;
      return;
    }
    err := host.Invoke(DeleteNetnsSymlink(longName));
    if err.Some? {
      assert k == 2;
      return;
    }
    err := host.Invoke(StartContainer(id));
    assert k == if err.Some? then 3 else 4;
  }

  /** The restart, then the namespace: look up the container's namespace
      path into `nsPath` and link that namespace. The first failing call
      aborts with its error; the lookup's result is stored even when it
      fails. */
  method CeosPostDeploy(host: Host, nodeCfg: NodeConfig) returns (err: Option<Error>)
    modifies host, nodeCfg`nsPath
    ensures
      var k := FirstFailure(|old(host.trace)|, host.failAt, 6);
      var plan := RestartPlan(nodeCfg.resConfig, nodeCfg.mgmtIPv4Address, nodeCfg.mgmtIPv6Address,
                              nodeCfg.containerID, nodeCfg.longName, host.nsPathOf(nodeCfg.containerID));
      && host.trace == old(host.trace) + plan[..Made(k, 6)]
      && err == (if k < 6 then Some(CallFailed(plan[k])) else None)
      && nodeCfg.nsPath == (if k < 4 then old(nodeCfg.nsPath)
                            else if k == 4 then host.nsPathOnError(nodeCfg.containerID)
                            else host.nsPathOf(nodeCfg.containerID))
    ensures err == None ==>
      && nodeCfg.nsPath == host.nsPathOf(nodeCfg.containerID)
      && RestartedOnce(host.trace[|old(host.trace)|..], nodeCfg)
  {
    var id, name := nodeCfg.containerID, nodeCfg.longName;
    var resConfig, v4, v6 := nodeCfg.resConfig, nodeCfg.mgmtIPv4Address, nodeCfg.mgmtIPv6Address;
    ghost var base := |host.trace|;
    ghost var plan := RestartPlan(resConfig, v4, v6, id, name, host.nsPathOf(id));
    ghost var k := FirstFailure(base, host.failAt, 6);
    ghost var k4 := FirstFailure(base, host.failAt, 4);
    err := Restart(host, resConfig, v4, v6, id, name);
    if err.Some? {
      assert k == k4;
      return;
    }
    assert host.trace == host.trace[..base] + plan[..4];
    var path;
    path, err := host.ResolveNSPath(id);
    nodeCfg.nsPath := path;
    if err.Some? {
      assert k == 4;
      assert plan[..5] == plan[..4] + [plan[4]];
      return;
    }
    err := host.Invoke(LinkContainerNS(path, name));
    assert plan == plan[..4] + [plan[4], plan[5]];
    assert plan[..6] == plan;
    if err.None? {
      assert host.trace[base..] == plan;
      assert RestartedOnce(plan, nodeCfg);
    }
  }

  /** After the restart that began at trace position `base`, the container
      was stopped and not started again exactly when the failing call was
      the symlink removal or the start: among the calls that succeeded
      there is a stop but no start. */
  lemma LeftStopped(resConfig: string, mgmtIPv4: string, mgmtIPv6: string, id: string,
                    longName: string, nsPath: string, base: nat, failAt: set<nat>)
    ensures
      var k := FirstFailure(base, failAt, 6);
      var ok := RestartPlan(resConfig, mgmtIPv4, mgmtIPv6, id, longName, nsPath)[..k];
      ((exists i :: 0 <= i < |ok| && ok[i].StopContainer?) && !(exists i :: 0 <= i < |ok| && ok[i].StartContainer?))
      <==> (k == 2 || k == 3)
  {
  }

  // ---------------------------------------------------------------------------
  // The node.

  class CeosNode {
    var cfg: NodeConfig?

    constructor ()
      ensures cfg == null
    {
      cfg := null;
    }

    /** Takes ownership of `cfg`, applies the options, merges the node's
        environment with the cEOS defaults by the helper, builds the init
        command from the merged environment, generates a management MAC
        under Arista's prefix and bind-mounts the flash directory. It never
        fails. */
    method Init(cfg: NodeConfig, opts: seq<NodeOption>, h: Helpers) returns (err: Option<Error>)
      modifies this, cfg`env, cfg`cmd, cfg`macAddress, cfg`binds
      ensures this.cfg == cfg
      ensures err == None
      ensures cfg.env == h.mergeStringMaps(CeosEnv, old(cfg.env))
      ensures IsInitCmd(cfg.cmd, cfg.env)
      ensures cfg.macAddress == h.genMac(AristaOui)
      ensures cfg.binds == old(cfg.binds) + [h.join([cfg.labDir, "flash"]) + ":/mnt/flash/"]
    {
      this.cfg := cfg;
      for i := 0 to |opts|
        invariant this.cfg == cfg
        invariant cfg.env == old(cfg.env) && cfg.binds == old(cfg.binds)
      {
        WithMgmtNet(opts[i].mgmt);
      }
      cfg.env := h.mergeStringMaps(CeosEnv, cfg.env);
      ghost var order;
      cfg.cmd, order := InitCmd(cfg.env);
      cfg.macAddress := h.genMac(AristaOui);
      var cfgPath := h.join([cfg.labDir, "flash"]);
      cfg.binds := cfg.binds + [cfgPath + ":/mnt/flash/"];
      err := None;
    }

    /** The configuration handed to Init. */
    function Config(): (c: NodeConfig?)
      reads this
      ensures c == cfg
    {
      cfg
    }

    /** Creates the lab directory and the flash files; the directory
        creation's own errors are ignored. */
    method PreDeploy(configName: string, labCADir: string, labCARoot: string, h: Helpers)
      returns (err: Option<Error>, ops: seq<FsOp>)
      requires cfg != null
      modifies cfg`resConfig
      ensures cfg.resConfig == h.join([cfg.labDir, "flash", "startup-config"])
      ensures err.Some? <==> ParseMac(cfg.macAddress).None?
      ensures |ops| >= 2 && ops[0] == MakeDir(cfg.labDir)
      ensures ops[1] == MakeDir(h.join([cfg.labDir, "flash"]))
      ensures err.None? ==>
        ops[2..] == [WriteFile(h.join([cfg.labDir, "flash", "system_mac_address"]),
                               FormatMac(SysMac(ParseMac(cfg.macAddress).value)))]
      ensures err.Some? ==> err == Some(InvalidMac(cfg.macAddress)) && |ops| == 2
    {
      var fileOps;
      err, fileOps := CreateCeosFiles(cfg, h);
      ops := [MakeDir(cfg.labDir)] + fileOps;
    }

    /** Creates the container; the runtime's error is returned as is. */
    method Deploy(host: Host) returns (err: Option<Error>)
      requires cfg != null
      modifies host
      ensures host.trace == old(host.trace) + [CreateContainer(cfg.longName)]
      ensures err == if old(host.NextFails()) then Some(CallFailed(CreateContainer(cfg.longName))) else None
    {
      err := host.Invoke(CreateContainer(cfg.longName));
    }

    /** Runs the restart on this node's configuration. */
    method PostDeploy(host: Host) returns (err: Option<Error>)
      requires cfg != null
      modifies host, cfg`nsPath
      ensures
        var k := FirstFailure(|old(host.trace)|, host.failAt, 6);
        var plan := RestartPlan(cfg.resConfig, cfg.mgmtIPv4Address, cfg.mgmtIPv6Address,
                                cfg.containerID, cfg.longName, host.nsPathOf(cfg.containerID));
        && host.trace == old(host.trace) + plan[..Made(k, 6)]
        && err == (if k < 6 then Some(CallFailed(plan[k])) else None)
        && cfg.nsPath == (if k < 4 then old(cfg.nsPath)
                          else if k == 4 then host.nsPathOnError(cfg.containerID)
                          else host.nsPathOf(cfg.containerID))
      ensures err == None ==>
        && cfg.nsPath == host.nsPathOf(cfg.containerID)
        && RestartedOnce(host.trace[|old(host.trace)|..], cfg)
    {
      err := CeosPostDeploy(host, cfg);
    }

    /** cEOS ignores the management network option. */
    method WithMgmtNet(mgmt: MgmtNet)
      ensures unchanged(this)
    {
    }
  }
}
