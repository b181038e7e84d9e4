/** The enrichment pass of the deploy command: every discovered container is
    correlated to its node by the `clab-node-name` label, and the node's
    observed management addresses and container id are written in place. */
module DeployEnrich {
  import opened Types

  /** `strings.ToLower` on ASCII letters; other characters are kept. */
  function ToLower(s: string): string
  {
    seq(|s|, i requires 0 <= i < |s| => if 'A' <= s[i] <= 'Z' then (s[i] as int + 32) as char else s[i])
  }

  /** Nodes that share the host's network stack have no address of their
      own. The mode is compared case-insensitively: each of its four
      letters may be in either case. */
  function IsHostMode(networkMode: string): (b: bool)
    ensures b <==> (|networkMode| == 4 &&
                    forall i :: 0 <= i < 4 ==> networkMode[i] == "host"[i] || networkMode[i] == "HOST"[i])
  {
    ToLower(networkMode) == "host"
  }

  /** Container `c` is correlated to the node object `n`: its label is a key
      of `nodes` that maps to `n`. */
  predicate Targets(c: GenericContainer, nodes: map<string, NodeConfig>, n: NodeConfig)
  {
    NodeNameLabel(c) in nodes && nodes[NodeNameLabel(c)] == n
  }

  /** What one correlated container does to its node. */
  function EnrichStep(st: Observed, c: GenericContainer): Observed
  {
    if IsHostMode(st.networkMode) then st
    else
      var ns := c.networkSettings;
      var withAddrs :=
        if ns.isSet then
          st.(mgmtIPv4Address := ns.ipv4Addr, mgmtIPv4PrefixLength := ns.ipv4PrefixLen,
              mgmtIPv6Address := ns.ipv6Addr, mgmtIPv6PrefixLength := ns.ipv6PrefixLen)
        else st;
      withAddrs.(containerID := c.id)
  }

  /** The observed fields of node object `n`, starting from `st`, after the
      containers `cs` have been processed in order. */
  function Enriched(cs: seq<GenericContainer>, nodes: map<string, NodeConfig>, n: NodeConfig, st: Observed): Observed
    decreases |cs|
  {
    if cs == [] then st
    else
      var prev := Enriched(cs[..|cs| - 1], nodes, n, st);
      if Targets(cs[|cs| - 1], nodes, n) then EnrichStep(prev, cs[|cs| - 1]) else prev
  }

  /** Runs over the containers in order, correlating each to a node by its
      label and writing that node's observed fields; host-network nodes are
      skipped. `name` is the lab-name flag variable, which the loop
      overwrites with every label it reads; its final value is returned. */
  method EnrichNodes(containers: seq<GenericContainer>, nodes: map<string, NodeConfig>, mgmtNet: string, name: string)
    returns (nameAfter: string)
    modifies nodes.Values`mgmtIPv4Address, nodes.Values`mgmtIPv4PrefixLength,
             nodes.Values`mgmtIPv6Address, nodes.Values`mgmtIPv6PrefixLength,
             nodes.Values`containerID
    ensures forall n :: n in nodes.Values ==>
      n.ObservedState() == Enriched(containers, nodes, n, old(n.ObservedState()))
    ensures nameAfter == if containers == [] then name else NodeNameLabel(containers[|containers| - 1])
  {
    nameAfter := name;
    for i := 0 to |containers|
      invariant forall n :: n in nodes.Values ==>
        n.ObservedState() == Enriched(containers[..i], nodes, n, old(n.ObservedState()))
      invariant nameAfter == if i == 0 then name else NodeNameLabel(containers[i - 1])
    {
      var c := containers[i];
      assert containers[..i + 1][..i] == containers[..i];
      nameAfter := NodeNameLabel(c);
      if nameAfter in nodes {
        var node := nodes[nameAfter];
        ghost var before := node.ObservedState();
        if ToLower(node.networkMode) == "host" {
          continue;
        }
        if c.networkSettings.isSet {
          node.mgmtIPv4Address := c.networkSettings.ipv4Addr;
          node.mgmtIPv4PrefixLength := c.networkSettings.ipv4PrefixLen;
          node.mgmtIPv6Address := c.networkSettings.ipv6Addr;
          node.mgmtIPv6PrefixLength := c.networkSettings.ipv6PrefixLen;
        }
        node.containerID := c.id;
        assert node.ObservedState() == EnrichStep(before, c);
      }
    }
    assert containers[..|containers|] == containers;
  }

  // ---------------------------------------------------------------------------
  // Properties of the enrichment.

  /** A node no container is correlated to is left as it was. */
  lemma {:induction false} EnrichedUntargeted(cs: seq<GenericContainer>, nodes: map<string, NodeConfig>,
                                              n: NodeConfig, st: Observed)
    requires forall k :: 0 <= k < |cs| ==> !Targets(cs[k], nodes, n)
    ensures Enriched(cs, nodes, n, st) == st
    decreases |cs|
  {
    if cs != [] {
      EnrichedUntargeted(cs[..|cs| - 1], nodes, n, st);
    }
  }

  /** A host-network node is left completely unchanged, container id
      included. */
  lemma {:induction false} EnrichedHostNode(cs: seq<GenericContainer>, nodes: map<string, NodeConfig>,
                                            n: NodeConfig, st: Observed)
    requires IsHostMode(st.networkMode)
    ensures Enriched(cs, nodes, n, st) == st
    decreases |cs|
  {
    if cs != [] {
      EnrichedHostNode(cs[..|cs| - 1], nodes, n, st);
    }
  }

  /** The last container correlated to `n`, if any. */
  function LastTarget(cs: seq<GenericContainer>, nodes: map<string, NodeConfig>, n: NodeConfig): Option<GenericContainer>
    decreases |cs|
  {
    if cs == [] then None
    else if Targets(cs[|cs| - 1], nodes, n) then Some(cs[|cs| - 1])
    else LastTarget(cs[..|cs| - 1], nodes, n)
  }

  /** The last container correlated to `n` that carries network settings. */
  function LastSetTarget(cs: seq<GenericContainer>, nodes: map<string, NodeConfig>, n: NodeConfig): Option<GenericContainer>
    decreases |cs|
  {
    if cs == [] then None
    else if Targets(cs[|cs| - 1], nodes, n) && cs[|cs| - 1].networkSettings.isSet then Some(cs[|cs| - 1])
    else LastSetTarget(cs[..|cs| - 1], nodes, n)
  }

  /** `st` with the addresses of `lastSet` and the container id of `last`. */
  function Overlay(st: Observed, last: Option<GenericContainer>, lastSet: Option<GenericContainer>): Observed
  {
    var a :=
      if lastSet.Some? then
        var ns := lastSet.value.networkSettings;
        st.(mgmtIPv4Address := ns.ipv4Addr, mgmtIPv4PrefixLength := ns.ipv4PrefixLen,
            mgmtIPv6Address := ns.ipv6Addr, mgmtIPv6PrefixLength := ns.ipv6PrefixLen)
      else st;
    if last.Some? then a.(containerID := last.value.id) else a
  }

  /** Last one wins: a non-host node ends with the container id of the last
      container correlated to it, and with the four address fields of the
      last correlated container whose settings are set; a correlated
      container without settings still overwrites the id. */
  lemma {:induction false} EnrichedLastWins(cs: seq<GenericContainer>, nodes: map<string, NodeConfig>,
                                            n: NodeConfig, st: Observed)
    requires !IsHostMode(st.networkMode)
    ensures Enriched(cs, nodes, n, st) == Overlay(st, LastTarget(cs, nodes, n), LastSetTarget(cs, nodes, n))
    decreases |cs|
  {
    if cs != [] {
      EnrichedLastWins(cs[..|cs| - 1], nodes, n, st);
    }
  }

  /** Running the pass again on the same containers and nodes changes
      nothing. */
  lemma EnrichedIdempotent(cs: seq<GenericContainer>, nodes: map<string, NodeConfig>, n: NodeConfig, st: Observed)
    ensures Enriched(cs, nodes, n, Enriched(cs, nodes, n, st)) == Enriched(cs, nodes, n, st)
  {
    if IsHostMode(st.networkMode) {
      EnrichedHostNode(cs, nodes, n, st);
      EnrichedHostNode(cs, nodes, n, st);
    } else {
      EnrichedLastWins(cs, nodes, n, st);
      var once := Enriched(cs, nodes, n, st);
      assert once.networkMode == st.networkMode;
      EnrichedLastWins(cs, nodes, n, once);
    }
  }
}
