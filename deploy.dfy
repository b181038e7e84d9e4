/** The deploy command: flag overrides, the worker limits for node and link
    creation, and the order of the deployment phases with their error
    handling. External collaborators (topology parsing, checks, root CA,
    network creation, node and link creation, listing, inventories and each
    node's post-deploy tasks) appear as steps of a trace; whether each one
    fails, and what the listing returns, is an input. */
module Deploy {
  import opened Types
  import opened DeployHosts

  // ---------------------------------------------------------------------------
  // Worker limits.

  function Min(a: nat, b: nat): nat
  {
    if a <= b then a else b
  }

  /** The number of workers for `count` items under a configured maximum,
      where 0 means unlimited. */
  function WorkerLimit(maxWorkers: nat, count: nat): (w: nat)
    ensures maxWorkers == 0 ==> w == count
    ensures maxWorkers != 0 ==> w == Min(maxWorkers, count)
    ensures w <= count
    ensures count >= 1 ==> w >= 1
  {
    if maxWorkers == 0 || maxWorkers > count then count else maxWorkers
  }

  /** The worker limits for node creation and link creation. */
  method WorkerLimits(maxWorkers: nat, numNodes: nat, numLinks: nat)
    returns (nodesMaxWorkers: nat, linksMaxWorkers: nat)
    ensures nodesMaxWorkers == WorkerLimit(maxWorkers, numNodes)
    ensures linksMaxWorkers == WorkerLimit(maxWorkers, numLinks)
  {
    nodesMaxWorkers := maxWorkers;
    linksMaxWorkers := maxWorkers;
    if maxWorkers == 0 {
      nodesMaxWorkers := numNodes;
      linksMaxWorkers := numLinks;
    }
    if nodesMaxWorkers > numNodes {
      nodesMaxWorkers := numNodes;
    }
    if linksMaxWorkers > numLinks {
      linksMaxWorkers := numLinks;
    }
  }

  // ---------------------------------------------------------------------------
  // Flag overrides.

  /** The lab configuration the flags may override. */
  class Config {
    var name: string
    var mgmt: MgmtNet

    constructor (name: string, mgmt: MgmtNet)
      ensures this.name == name && this.mgmt == mgmt
    {
      this.name := name;
      this.mgmt := mgmt;
    }
  }

  /** The rendering of an unset subnet flag. */
  const UnsetSubnet: string := "<nil>"

  /** Command-line values: lab name, management network name, and the two
      subnet flags as rendered text. */
  datatype Flags = Flags(name: string, mgmtNetName: string, ipv4Subnet: string, ipv6Subnet: string)

  /** Overrides a configuration field from each flag that was given; a flag
      left at its default leaves the field alone. */
  method SetFlags(conf: Config, flags: Flags)
    modifies conf
    ensures conf.name == if flags.name != "" then flags.name else old(conf.name)
    ensures conf.mgmt.network == if flags.mgmtNetName != "" then flags.mgmtNetName else old(conf.mgmt.network)
    ensures conf.mgmt.ipv4Subnet == if flags.ipv4Subnet != UnsetSubnet then flags.ipv4Subnet else old(conf.mgmt.ipv4Subnet)
    ensures conf.mgmt.ipv6Subnet == if flags.ipv6Subnet != UnsetSubnet then flags.ipv6Subnet else old(conf.mgmt.ipv6Subnet)
  {
    if flags.name != "" {
      conf.name := flags.name;
    }
    if flags.mgmtNetName != "" {
      conf.mgmt := conf.mgmt.(network := flags.mgmtNetName);
    }
    if flags.ipv4Subnet != UnsetSubnet {
      conf.mgmt := conf.mgmt.(ipv4Subnet := flags.ipv4Subnet);
    }
    if flags.ipv6Subnet != UnsetSubnet {
      conf.mgmt := conf.mgmt.(ipv6Subnet := flags.ipv6Subnet);
    }
  }

  // ---------------------------------------------------------------------------
  // The phase sequence.

  datatype Step =
    | ParseTopology
    | DestroyLab
    | RemoveLabDir
    | CheckTopologyDefinition
    | CheckResources
    | CreateLabDir
    | CreateRootCA
    | CreateNet
    | CreateNodes(workers: nat)
    | CreateLinks(workers: nat, postDeploy: bool)
    | GenerateGraph
    | ListContainers(labels: seq<string>)
    | EnrichNodes
    | GenerateInventories
    | PostDeploy(node: string, linkWorkers: nat)
    | WriteHostsFile(data: string)
    | PrintSummary
    | LogError(failed: Step)      // a failure that is only logged
    | LogHostsFileError

  datatype DeployError =
    | StepFailed(step: Step)
    | CouldNotListContainers
    | NoContainersFound

  /** Node names: the keys of the lab's node map, so no name repeats. */
  type NodeNames = ns: seq<string> | forall i, j :: 0 <= i < j < |ns| ==> ns[i] != ns[j]

  /** The deployment settings after flag overrides and topology parsing. */
  datatype Settings = Settings(
    labName: string,
    mgmtNetwork: string,
    reconfigure: bool,
    graph: bool,
    maxWorkers: nat,
    labels: seq<string>,
    nodes: NodeNames,        // in the order they are visited
    numLinks: nat)

  /** How each external collaborator behaves in one run. */
  datatype Outcomes = Outcomes(
    parseFails: bool,
    removeLabDirFails: bool,
    checkTopologyFails: bool,
    checkResourcesFails: bool,
    rootCAFails: bool,
    createNetFails: bool,
    graphFails: bool,
    listing: Option<seq<GenericContainer>>,   // None: the listing call fails
    inventoriesFails: bool,
    postDeployFails: set<string>,
    hostsWriteFails: bool)

  /** Every barrier phase before the container listing succeeds. */
  predicate ReachesListing(s: Settings, o: Outcomes)
  {
    && !o.parseFails
    && !(s.reconfigure && o.removeLabDirFails)
    && !o.checkTopologyFails
    && !o.checkResourcesFails
    && !o.rootCAFails
    && !o.createNetFails
  }

  /** Every barrier phase succeeds, the listing included. */
  predicate BarriersSucceed(s: Settings, o: Outcomes)
  {
    && ReachesListing(s, o)
    && o.listing.Some?
    && o.listing.value != []
    && !o.inventoriesFails
  }

  // ---------------------------------------------------------------------------
  // Setup.

  /** The setup steps, in the order the command runs them; the wipe of a
      previous lab only when reconfiguring. */
  function SetupSteps(reconfigure: bool): seq<Step>
  {
    [ParseTopology] + (if reconfigure then [DestroyLab, RemoveLabDir] else [])
    + [CheckTopologyDefinition, CheckResources, CreateLabDir, CreateRootCA, CreateNet]
  }

  /** Whether setup step `st` fails; the lab's destruction and the creation
      of the lab directory have their errors discarded. */
  predicate SetupFails(st: Step, o: Outcomes)
  {
    match st
    case ParseTopology => o.parseFails
    case RemoveLabDir => o.removeLabDirFails
    case CheckTopologyDefinition => o.checkTopologyFails
    case CheckResources => o.checkResourcesFails
    case CreateRootCA => o.rootCAFails
    case CreateNet => o.createNetFails
    case _ => false
  }

  /** Steps that run before nodes are created. */
  predicate IsSetupStep(st: Step)
  {
    st in {ParseTopology, DestroyLab, RemoveLabDir, CheckTopologyDefinition, CheckResources,
           CreateLabDir, CreateRootCA, CreateNet}
  }

  /** Topology parsing, the optional wipe of a previous lab, the checks, the
      lab directory, the root CA and the management network, in that order;
      the first failing step ends the run with its error. */
  method Prepare(s: Settings, o: Outcomes) returns (trace: seq<Step>, err: Option<DeployError>)
    ensures 0 < |trace| && trace <= SetupSteps(s.reconfigure)
    ensures forall k :: 0 <= k < |trace| - 1 ==> !SetupFails(trace[k], o)
    ensures err.None? ==> trace == SetupSteps(s.reconfigure) && !SetupFails(trace[|trace| - 1], o)
    ensures err.Some? ==> err == Some(StepFailed(trace[|trace| - 1])) && SetupFails(trace[|trace| - 1], o)
    ensures err.None? <==> ReachesListing(s, o)
    ensures forall k :: 0 <= k < |trace| ==> IsSetupStep(trace[k])
  {
    ghost var all := SetupSteps(s.reconfigure);
    trace, err := [ParseTopology], None;
    if o.parseFails {
      return trace, Some(StepFailed(ParseTopology));
    }
    if s.reconfigure {
      // the destroy result is discarded
      trace := trace + [DestroyLab, RemoveLabDir];
      if o.removeLabDirFails {
        return trace, Some(StepFailed(RemoveLabDir));
      }
    }
    assert trace == all[..|trace|];
    trace := trace + [CheckTopologyDefinition];
    if o.checkTopologyFails {
      return trace, Some(StepFailed(CheckTopologyDefinition));
    }
    trace := trace + [CheckResources];
    if o.checkResourcesFails {
      return trace, Some(StepFailed(CheckResources));
    }
    trace := trace + [CreateLabDir, CreateRootCA];
    if o.rootCAFails {
      return trace, Some(StepFailed(CreateRootCA));
    }
    trace := trace + [CreateNet];
    if o.createNetFails {
      return trace, Some(StepFailed(CreateNet));
    }
  }

  // ---------------------------------------------------------------------------
  // Node and link creation.

  /** Graph generation, only when asked for; its failure is logged. */
  function GraphSteps(s: Settings, o: Outcomes): (steps: seq<Step>)
    ensures s.graph <==> GenerateGraph in steps
    ensures LogError(GenerateGraph) in steps <==> s.graph && o.graphFails
  {
    if !s.graph then []
    else [GenerateGraph] + (if o.graphFails then [LogError(GenerateGraph)] else [])
  }

  /** The labels the listing filters on: the configured ones and the lab's. */
  function ListingLabels(s: Settings): seq<string>
  {
    s.labels + ["containerlab=" + s.labName]
  }

  // ---------------------------------------------------------------------------
  // Post-deploy fan-out.

  /** The post-deploy step of each node, each followed by a logged error
      when that node's tasks fail. */
  function PostDeploySteps(nodes: seq<string>, fails: set<string>, w: nat): seq<Step>
  {
    if nodes == [] then []
    else
      [PostDeploy(nodes[0], w)] + (if nodes[0] in fails then [LogError(PostDeploy(nodes[0], w))] else [])
      + PostDeploySteps(nodes[1..], fails, w)
  }

  /** Every node gets a post-deploy step, only nodes do, and a logged error
      appears exactly for the nodes whose tasks fail. */
  lemma {:induction false} PostDeployStepsCover(nodes: seq<string>, fails: set<string>, w: nat)
    ensures forall n :: n in nodes ==> PostDeploy(n, w) in PostDeploySteps(nodes, fails, w)
    ensures forall n :: n in nodes && n in fails ==> LogError(PostDeploy(n, w)) in PostDeploySteps(nodes, fails, w)
    ensures forall n :: LogError(PostDeploy(n, w)) in PostDeploySteps(nodes, fails, w) ==> n in nodes && n in fails
    ensures forall st :: st in PostDeploySteps(nodes, fails, w) && st.PostDeploy? ==> st.node in nodes && st.linkWorkers == w
    ensures forall k :: 0 <= k < |PostDeploySteps(nodes, fails, w)| ==>
      PostDeploySteps(nodes, fails, w)[k].PostDeploy? || PostDeploySteps(nodes, fails, w)[k].LogError?
    decreases |nodes|
  {
    if nodes != [] {
      PostDeployStepsCover(nodes[1..], fails, w);
      forall n | n in nodes
        ensures n == nodes[0] || n in nodes[1..]
      {
        var k :| 0 <= k < |nodes| && nodes[k] == n;
        if k > 0 { assert nodes[1..][k - 1] == n; }
      }
    }
  }

  /** The post-deploy fan-out, run one node after the other: every node's
      tasks run, and a node's failure is logged and swallowed. */
  method PostDeployFanOut(nodes: seq<string>, fails: set<string>, linksMaxWorkers: nat) returns (steps: seq<Step>)
    ensures steps == PostDeploySteps(nodes, fails, linksMaxWorkers)
  {
    steps := [];
    for i := 0 to |nodes|
      invariant steps == PostDeploySteps(nodes[..i], fails, linksMaxWorkers)
    {
      var node := nodes[i];
      PostDeployStepsSnoc(nodes[..i], node, fails, linksMaxWorkers);
      assert nodes[..i + 1] == nodes[..i] + [node];
      steps := steps + [PostDeploy(node, linksMaxWorkers)];
      if node in fails {
        steps := steps + [LogError(PostDeploy(node, linksMaxWorkers))];
      }
    }
    assert nodes[..|nodes|] == nodes;
  }

  lemma {:induction false} PostDeployStepsSnoc(nodes: seq<string>, n: string, fails: set<string>, w: nat)
    ensures PostDeploySteps(nodes + [n], fails, w) ==
      PostDeploySteps(nodes, fails, w) + [PostDeploy(n, w)] + (if n in fails then [LogError(PostDeploy(n, w))] else [])
    decreases |nodes|
  {
    if nodes == [] {
      assert nodes + [n] == [n];
      assert [n][1..] == [];
    } else {
      assert (nodes + [n])[0] == nodes[0];
      assert (nodes + [n])[1..] == nodes[1..] + [n];
      PostDeployStepsSnoc(nodes[1..], n, fails, w);
    }
  }

  // ---------------------------------------------------------------------------
  // The hosts file.

  /** The hosts-file step: an empty bridge name is an error that is only
      logged; no pairs means nothing is written; otherwise a newline and the
      entries are written, and a failed write is only logged. */
  function HostsSteps(containers: seq<GenericContainer>, bridgeName: string, writeFails: bool): (steps: seq<Step>)
    ensures bridgeName == "" ==> steps == [LogHostsFileError]
    ensures bridgeName != "" && HostsOf(containers) == [] ==> steps == []
    ensures bridgeName != "" && HostsOf(containers) != [] ==>
      steps == [WriteHostsFile("\n" + HostsEntries(containers, bridgeName))]
               + (if writeFails then [LogHostsFileError] else [])
    ensures forall k :: 0 <= k < |steps| ==> steps[k].WriteHostsFile? || steps[k] == LogHostsFileError
  {
    match CreateHostsFile(containers, bridgeName)
    case MissingBridgeName => [LogHostsFileError]
    case NothingToWrite => []
    case AppendToHosts(data) => [WriteHostsFile(data)] + (if writeFails then [LogHostsFileError] else [])
  }

  // ---------------------------------------------------------------------------
  // The whole run.

  /** Node creation, the first link pass, the optional graph and the
      listing, with the node and link worker limits. */
  function CreationSteps(s: Settings, o: Outcomes, wn: nat, wl: nat): seq<Step>
  {
    [CreateNodes(wn), CreateLinks(wl, false)] + GraphSteps(s, o) + [ListContainers(ListingLabels(s))]
  }

  /** The post-deploy fan-out, the second link pass, the hosts file and the
      summary. */
  function ConclusionSteps(s: Settings, o: Outcomes, containers: seq<GenericContainer>, wl: nat): seq<Step>
  {
    PostDeploySteps(s.nodes, o.postDeployFails, wl)
    + ([CreateLinks(wl, true)] + HostsSteps(containers, s.mgmtNetwork, o.hostsWriteFails) + [PrintSummary])
  }

  /** Every post-deploy step of `pre + fan + post` lies after the enrichment
      in `pre` and before the second link pass that opens `post`. */
  lemma PostDeployBetween(pre: seq<Step>, fan: seq<Step>, post: seq<Step>, w: nat)
    requires EnrichNodes in pre && NoPostDeploy(pre)
    requires |post| > 0 && post[0] == CreateLinks(w, true) && NoPostDeploy(post)
    ensures forall k :: 0 <= k < |pre + fan + post| && (pre + fan + post)[k].PostDeploy? ==>
      EnrichNodes in (pre + fan + post)[..k] && CreateLinks(w, true) in (pre + fan + post)[k..]
  {
    var t := pre + fan + post;
    forall k | 0 <= k < |t| && t[k].PostDeploy?
      ensures EnrichNodes in t[..k] && CreateLinks(w, true) in t[k..]
    {
      var e :| 0 <= e < |pre| && pre[e] == EnrichNodes;
      assert t[..k][e] == EnrichNodes;
      assert t[k..][|pre| + |fan| - k] == CreateLinks(w, true);
    }
  }

  /** Every node-creation step of `t` uses `w` workers. */
  predicate NodeWorkers(t: seq<Step>, w: nat)
  {
    forall k :: 0 <= k < |t| && t[k].CreateNodes? ==> t[k].workers == w
  }

  lemma NodeWorkersAppend(a: seq<Step>, b: seq<Step>, w: nat)
    requires NodeWorkers(a, w) && NodeWorkers(b, w)
    ensures NodeWorkers(a + b, w)
  {
    forall k | 0 <= k < |a + b| && (a + b)[k].CreateNodes?
      ensures (a + b)[k].workers == w
    {
      if k >= |a| { assert (a + b)[k] == b[k - |a|]; }
    }
  }

  predicate NoPostDeploy(t: seq<Step>)
  {
    forall k :: 0 <= k < |t| ==> !t[k].PostDeploy?
  }

  lemma NoPostDeployAppend(a: seq<Step>, b: seq<Step>)
    requires NoPostDeploy(a) && NoPostDeploy(b)
    ensures NoPostDeploy(a + b)
  {
    forall k | 0 <= k < |a + b|
      ensures !(a + b)[k].PostDeploy?
    {
      if k >= |a| { assert (a + b)[k] == b[k - |a|]; }
    }
  }

  /** The deploy command's phases, in order. Barrier phases abort the run
      with their error; graph generation, each node's post-deploy tasks and
      the hosts file only log their failures. A successful run is the
      setup, node and link creation, the optional graph, the listing,
      enrichment and inventories, the post-deploy fan-out, the second link
      pass, the hosts file and the summary, in that order. */
  method RunE(s: Settings, o: Outcomes) returns (trace: seq<Step>, err: Option<DeployError>)
    ensures |trace| > 0
    ensures err == None <==> BarriersSucceed(s, o)
    ensures err == Some(CouldNotListContainers) <==> ReachesListing(s, o) && o.listing.None?
    ensures err == Some(NoContainersFound) <==> ReachesListing(s, o) && o.listing == Some([])
    ensures err == Some(StepFailed(GenerateInventories)) <==>
      ReachesListing(s, o) && o.listing.Some? && o.listing.value != [] && o.inventoriesFails
    ensures err == Some(NoContainersFound) ==> trace[|trace| - 1].ListContainers?
    ensures !ReachesListing(s, o) ==>
      && trace <= SetupSteps(s.reconfigure)
      && err == Some(StepFailed(trace[|trace| - 1])) && SetupFails(trace[|trace| - 1], o)
      && forall k :: 0 <= k < |trace| - 1 ==> !SetupFails(trace[k], o)
    ensures err == Some(CouldNotListContainers) || err == Some(NoContainersFound) ==>
      var wn, wl := WorkerLimit(s.maxWorkers, |s.nodes|), WorkerLimit(s.maxWorkers, s.numLinks);
      trace == SetupSteps(s.reconfigure) + CreationSteps(s, o, wn, wl)
    ensures err == Some(StepFailed(GenerateInventories)) ==>
      var wn, wl := WorkerLimit(s.maxWorkers, |s.nodes|), WorkerLimit(s.maxWorkers, s.numLinks);
      trace == SetupSteps(s.reconfigure) + CreationSteps(s, o, wn, wl) + [EnrichNodes, GenerateInventories]
    ensures err.Some? ==> NoPostDeploy(trace)
    ensures err == None ==>
      var wn, wl := WorkerLimit(s.maxWorkers, |s.nodes|), WorkerLimit(s.maxWorkers, s.numLinks);
      trace == SetupSteps(s.reconfigure) + CreationSteps(s, o, wn, wl)
               + [EnrichNodes, GenerateInventories] + ConclusionSteps(s, o, o.listing.value, wl)
    ensures err == None ==> forall n :: n in s.nodes ==>
      PostDeploy(n, WorkerLimit(s.maxWorkers, s.numLinks)) in trace
    ensures err == None ==> forall n :: n in s.nodes && n in o.postDeployFails ==>
      LogError(PostDeploy(n, WorkerLimit(s.maxWorkers, s.numLinks))) in trace
    ensures forall k :: 0 <= k < |trace| && trace[k].PostDeploy? ==>
      EnrichNodes in trace[..k] && CreateLinks(WorkerLimit(s.maxWorkers, s.numLinks), true) in trace[k..]
    ensures NodeWorkers(trace, WorkerLimit(s.maxWorkers, |s.nodes|))
  {
    trace, err := Prepare(s, o);
    if err.Some? {
      return;
    }

    var nodesMaxWorkers, linksMaxWorkers := WorkerLimits(s.maxWorkers, |s.nodes|, s.numLinks);
    var create := [CreateNodes(nodesMaxWorkers), CreateLinks(linksMaxWorkers, false)];
    if s.graph {
      create := create + [GenerateGraph];
      if o.graphFails {
        create := create + [LogError(GenerateGraph)];
      }
    }
    create := create + [ListContainers(ListingLabels(s))];
    assert create == CreationSteps(s, o, nodesMaxWorkers, linksMaxWorkers);
    assert NodeWorkers(create, nodesMaxWorkers) && NoPostDeploy(create);
    NodeWorkersAppend(trace, create, nodesMaxWorkers);
    NoPostDeployAppend(trace, create);
    trace := trace + create;
    if o.listing.None? {
      return trace, Some(CouldNotListContainers);
    }
    var containers := o.listing.value;
    if |containers| == 0 {
      return trace, Some(NoContainersFound);
    }

    var enrich := [EnrichNodes, GenerateInventories];
    NodeWorkersAppend(trace, enrich, nodesMaxWorkers);
    NoPostDeployAppend(trace, enrich);
    trace := trace + enrich;
    if o.inventoriesFails {
      return trace, Some(StepFailed(GenerateInventories));
    }
    assert EnrichNodes in trace by {
      assert trace[|trace| - 2] == EnrichNodes;
    }

    trace := Conclude(s, o, containers, nodesMaxWorkers, linksMaxWorkers, trace);
  }

  /** The part of a successful run after the inventories: it extends
      `pre`, which already holds the enrichment, with the post-deploy
      fan-out, the second link pass, the hosts file and the summary. */
  method Conclude(s: Settings, o: Outcomes, containers: seq<GenericContainer>, wn: nat, wl: nat, pre: seq<Step>)
    returns (trace: seq<Step>)
    requires EnrichNodes in pre && NoPostDeploy(pre) && NodeWorkers(pre, wn)
    ensures trace == pre + ConclusionSteps(s, o, containers, wl)
    ensures forall n :: n in s.nodes ==> PostDeploy(n, wl) in trace
    ensures forall n :: n in s.nodes && n in o.postDeployFails ==> LogError(PostDeploy(n, wl)) in trace
    ensures forall k :: 0 <= k < |trace| && trace[k].PostDeploy? ==>
      EnrichNodes in trace[..k] && CreateLinks(wl, true) in trace[k..]
    ensures NodeWorkers(trace, wn)
  {
    var fan := PostDeployFanOut(s.nodes, o.postDeployFails, wl);
    PostDeployStepsCover(s.nodes, o.postDeployFails, wl);
    var hosts := HostsSteps(containers, s.mgmtNetwork, o.hostsWriteFails);
    var post := [CreateLinks(wl, true)] + hosts + [PrintSummary];
    assert fan + post == ConclusionSteps(s, o, containers, wl);
    assert pre + fan + post == pre + (fan + post);
    trace := pre + fan + post;
    ConclusionOrder(pre, fan, hosts, wn, wl);
    ConclusionCovers(pre, s.nodes, o.postDeployFails, post, wl);
  }

  /** The tail keeps post-deploy steps between the enrichment and the
      second link pass, and adds no node creation. */
  lemma ConclusionOrder(pre: seq<Step>, fan: seq<Step>, hosts: seq<Step>, wn: nat, wl: nat)
    requires EnrichNodes in pre && NoPostDeploy(pre) && NodeWorkers(pre, wn)
    requires forall k :: 0 <= k < |fan| ==> fan[k].PostDeploy? || fan[k].LogError?
    requires forall k :: 0 <= k < |hosts| ==> hosts[k].WriteHostsFile? || hosts[k] == LogHostsFileError
    ensures var t := pre + fan + ([CreateLinks(wl, true)] + hosts + [PrintSummary]);
      && (forall k :: 0 <= k < |t| && t[k].PostDeploy? ==>
            EnrichNodes in t[..k] && CreateLinks(wl, true) in t[k..])
      && (forall k :: |pre| <= k < |t| ==> !t[k].CreateNodes?)
      && NodeWorkers(t, wn)
  {
    var post := [CreateLinks(wl, true)] + hosts + [PrintSummary];
    assert NoPostDeploy(hosts);
    assert NodeWorkers(post, wn) by {
      forall k | 0 <= k < |post| ensures !post[k].CreateNodes? {
        if 0 < k < |post| - 1 { assert post[k] == hosts[k - 1]; }
      }
    }
    NoPostDeployAppend([CreateLinks(wl, true)], hosts);
    NoPostDeployAppend([CreateLinks(wl, true)] + hosts, [PrintSummary]);
    PostDeployBetween(pre, fan, post, wl);
    NodeWorkersAppend(pre, fan, wn);
    NodeWorkersAppend(pre + fan, post, wn);
  }

  /** The tail post-deploys every node and logs every failing one. */
  lemma ConclusionCovers(pre: seq<Step>, nodes: seq<string>, fails: set<string>, post: seq<Step>, wl: nat)
    ensures var t := pre + PostDeploySteps(nodes, fails, wl) + post;
      && (forall n :: n in nodes ==> PostDeploy(n, wl) in t)
      && (forall n :: n in nodes && n in fails ==> LogError(PostDeploy(n, wl)) in t)
  {
    var fan := PostDeploySteps(nodes, fails, wl);
    var t := pre + fan + post;
    PostDeployStepsCover(nodes, fails, wl);
    forall n | n in nodes ensures PostDeploy(n, wl) in t {
      var k :| 0 <= k < |fan| && fan[k] == PostDeploy(n, wl);
      assert t[|pre| + k] == fan[k];
    }
    forall n | n in nodes && n in fails ensures LogError(PostDeploy(n, wl)) in t {
      var k :| 0 <= k < |fan| && fan[k] == LogError(PostDeploy(n, wl));
      assert t[|pre| + k] == fan[k];
    }
  }
}
