/** Records shared by the deploy command and the node kinds: the container
    snapshot the runtime returns when listing, and the per-node configuration
    that node lifecycle calls and the enrichment pass update in place. */
module Types {

  datatype Option<T> = None | Some(value: T)

  /** Management addresses of a listed container; `isSet` is false when the
      runtime reported no network settings for it. */
  datatype NetworkSettings = NetworkSettings(
    isSet: bool,
    ipv4Addr: string,
    ipv4PrefixLen: int,
    ipv6Addr: string,
    ipv6PrefixLen: int)

  /** A read-only container record returned by a single listing call. */
  datatype GenericContainer = GenericContainer(
    names: seq<string>,
    id: string,
    labels: map<string, string>,
    networkSettings: NetworkSettings)

  /** The management network: its name and its IPv4 and IPv6 subnets. */
  datatype MgmtNet = MgmtNet(network: string, ipv4Subnet: string, ipv6Subnet: string)

  /** Label key that correlates a container back to its topology node. */
  const NodeNameLabelKey: string := "clab-node-name"

  /** A Go map lookup: a missing key reads as the empty string. */
  function NodeNameLabel(c: GenericContainer): string
  {
    if NodeNameLabelKey in c.labels then c.labels[NodeNameLabelKey] else ""
  }

  /** The fields of a node that the enrichment pass reads or writes. */
  datatype Observed = Observed(
    networkMode: string,
    mgmtIPv4Address: string,
    mgmtIPv4PrefixLength: int,
    mgmtIPv6Address: string,
    mgmtIPv6PrefixLength: int,
    containerID: string)

  /** Desired and observed state of one node; the node that owns it and the
      enrichment pass write its fields in place. */
  class NodeConfig {
    var shortName: string
    var longName: string
    var networkMode: string
    var labDir: string
    var env: map<string, string>
    var cmd: string
    var macAddress: string
    var binds: seq<string>
    var resConfig: string
    var containerID: string
    var nsPath: string
    var mgmtIPv4Address: string
    var mgmtIPv4PrefixLength: int
    var mgmtIPv6Address: string
    var mgmtIPv6PrefixLength: int

    constructor (shortName: string, longName: string, networkMode: string, labDir: string,
                 env: map<string, string>, binds: seq<string>)
      ensures this.shortName == shortName && this.longName == longName
      ensures this.networkMode == networkMode && this.labDir == labDir
      ensures this.env == env && this.binds == binds
      ensures cmd == "" && macAddress == "" && resConfig == "" && containerID == "" && nsPath == ""
      ensures ObservedState() == Observed(networkMode, "", 0, "", 0, "")
    {
      this.shortName := shortName;
      this.longName := longName;
      this.networkMode := networkMode;
      this.labDir := labDir;
      this.env := env;
      this.binds := binds;
      cmd, macAddress, resConfig, containerID, nsPath := "", "", "", "", "";
      mgmtIPv4Address, mgmtIPv4PrefixLength := "", 0;
      mgmtIPv6Address, mgmtIPv6PrefixLength := "", 0;
    }

    /** The enrichment-relevant view of this node. */
    function ObservedState(): Observed
      reads this
    {
      Observed(networkMode, mgmtIPv4Address, mgmtIPv4PrefixLength,
               mgmtIPv6Address, mgmtIPv6PrefixLength, containerID)
    }
  }
}
