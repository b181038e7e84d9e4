# containerlab `deploy` and the Arista cEOS node kind

A Dafny model of two parts of containerlab. The first is the `deploy`
command. It applies command-line flag overrides, derives the worker limits
for node and link creation, and runs the deployment phases in a fixed order:
each failing phase either aborts the run or is only logged. It then
correlates the listed containers back to their topology nodes, writing their
management addresses and container ids in place. Finally it builds the
`/etc/hosts` entries for the lab's containers.

The second part is the Arista cEOS node kind:

- `Init` merges the cEOS environment, builds the init command and generates
  a management MAC under Arista's prefix.
- `PreDeploy` writes the flash files. The system MAC is the management MAC
  plus one in its last byte.
- `Deploy` creates the container.
- `PostDeploy` runs the strictly ordered restart: regenerate the
  configuration, force-stop the container, drop the namespace symlink,
  start the container, look up the namespace path and link it. The first
  failing call aborts.

Modules:

- `Types`: listed containers, the management network, and the per-node
  configuration. The configuration is a class whose fields are written in
  place.
- `Runtime`: the container runtime and host helpers, modelled as one
  recorder `Host`. Every call is appended to `trace`. The call made at a
  trace position in `failAt` returns an error.
- `Mac`: the 48-bit part of MAC parsing, and the canonical rendering.
- `DeployHosts`: the hosts entries and the guards of the hosts-file write.
  It also holds a reader for the text, which serves as the round-trip
  partner.
- `DeployEnrich`: the enrichment pass. It is a method over the node
  objects, specified per object by a fold over the containers.
- `Deploy`: the worker limits, the flag overrides, and the command's phase
  order. The phase order is a trace of steps whose outcomes are inputs.
- `Ceos`: the cEOS node kind.

## Model

| member | source | states |
|---|---|---|
| Deploy.WorkerLimit | cmd/deploy.go:103-118 | A maximum of 0 means one worker per item. Otherwise the limit is the smaller of the maximum and the item count. The result never exceeds the count, and is at least 1 whenever there is an item. |
| Deploy.WorkerLimits | cmd/deploy.go:103-118 | The imperative clamp yields exactly `WorkerLimit` for the nodes and for the links. |
| Deploy.SetFlags | cmd/deploy.go:189-202 | Each given flag overrides its configuration field: a non-empty name or network, or a subnet whose rendering is not `<nil>`. Every other field keeps its old value. |
| Deploy.Prepare | cmd/deploy.go:41-101 | The steps taken are a prefix of the setup order: parsing, the wipe (destroy, then directory removal) only when reconfiguring, the topology check, the resource check, the lab directory, the root CA and the network. Every step before the last succeeded. On failure the error names the last step, and that step failed. On success all setup steps were taken. The run reaches node creation exactly when none of the checked steps fails. |
| Deploy.GraphSteps | cmd/deploy.go:123-128 | The graph is generated exactly when asked for. Its error is logged exactly when it was generated and failed. |
| Deploy.PostDeployFanOut | cmd/deploy.go:147-159 | Every node gets its post-deploy step, in order. A node whose tasks fail gets a logged error, and the run continues. |
| Deploy.PostDeployStepsCover | cmd/deploy.go:147-159 | The fan-out covers every node and logs every failing node. Conversely, it contains nothing but post-deploy steps and their logged errors. Every post-deploy step is for a node of the lab, with the link worker limit. Every logged error is for a node of the lab that fails. |
| Deploy.PostDeployStepsSnoc | cmd/deploy.go:149-158 | Visiting one more node appends exactly that node's step and, if it fails, its logged error. |
| Deploy.HostsSteps | cmd/deploy.go:164-168 | An empty bridge name only logs an error. No address/name pairs means no step at all. Otherwise exactly one write of a newline followed by the entries, followed by a logged error exactly when the write fails. |
| Deploy.PostDeployBetween | cmd/deploy.go:140-162 | Every post-deploy step lies after the enrichment and before the second link pass. |
| Deploy.RunE | cmd/deploy.go:41-176 | The run succeeds exactly when every barrier succeeds. "Could not list containers" happens exactly when setup succeeds and the listing fails. "No containers found" happens exactly when the listing is empty, and the listing is then the last step. The inventories' error is returned exactly when they fail after a non-empty listing. A run stopped in setup took a prefix of the setup steps, returns the error of the last one, which failed, and every earlier checked step succeeded. A failed listing, or an empty one, ends the run right after the setup and creation steps; a failed inventory ends it right after enrichment and inventories. A failed run has no post-deploy step. A successful run is exactly, in order: the setup steps, node creation with the node limit, the first link pass, the optional graph, the listing under the lab's label, enrichment, inventories, the post-deploy fan-out, the second link pass, the hosts-file steps and the summary. Every node is post-deployed with the link limit and every failing node is logged. Every post-deploy step lies between the enrichment and the second link pass. Node creation always uses the node worker limit. |
| Deploy.Conclude | cmd/deploy.go:147-175 | After the inventories, the run appends the fan-out, the second link pass, the hosts-file steps and the summary. It post-deploys and logs as `RunE` states. |
| Deploy.ConclusionOrder | cmd/deploy.go:140-175 | The tail keeps every post-deploy step between the enrichment and the second link pass. It adds no node creation, so every node-creation step of the run keeps the node worker limit. |
| Deploy.ConclusionCovers | cmd/deploy.go:147-159 | Whatever precedes and follows the fan-out, every node's post-deploy step and every failing node's logged error are in the run. |
| DeployHosts.TrimLeftSlash | cmd/deploy.go:239 | The result is a suffix of the name. Everything removed is '/'. The result does not start with '/'. |
| DeployHosts.HostsEntriesAppend | cmd/deploy.go:229-251 | Containers are written in input order: the text for a concatenation is the concatenation of the texts. |
| DeployHosts.IneligibleContainerAddsNothing | cmd/deploy.go:231-235 | A container without a name, or without network settings, contributes nothing wherever it stands. |
| DeployHosts.HostsEntriesIgnoresBridge | cmd/deploy.go:229-251 | The bridge name never changes the text. |
| DeployHosts.ContainerEntries | cmd/deploy.go:231-248 | One container's bytes are the rendering of its pairs: nothing without a name or network settings, else its IPv4 pair and then its IPv6 pair, each only when the address is non-empty. |
| DeployHosts.HostsEntries | cmd/deploy.go:229-251 | The text is the rendering of the address/name pairs of all containers, in input order. |
| DeployHosts.ParseRender | cmd/deploy.go:236-247 | Lines of `addr TAB name NEWLINE` read back as the pairs they were rendered from, when the address holds no tab or newline and the name holds no newline. |
| DeployHosts.HostsEntriesReadBack | cmd/deploy.go:229-251 | Reading the text back yields exactly the pairs of the eligible containers. |
| DeployHosts.HostsEntriesEmpty | cmd/deploy.go:208-211 | The text is empty exactly when no container contributes a pair. |
| DeployHosts.CreateHostsFile | cmd/deploy.go:204-226 | An empty bridge name is the error, whatever the containers. With a bridge name, nothing is written exactly when there are no pairs. Otherwise the appended bytes are a newline followed by the entries. |
| DeployHosts.AppendedHostsReadBack | cmd/deploy.go:204-226 | What is appended reads back, after its leading newline, as the eligible containers' pairs. |
| DeployEnrich.IsHostMode | cmd/deploy.go:259 | A node is in host mode exactly when its network mode is the four letters of "host", each in either case. |
| DeployEnrich.EnrichNodes | cmd/deploy.go:253-274 | Each node object ends with the state of the per-container fold over its correlated containers. The lab-name variable ends as the label of the last container, or unchanged when there are none. |
| DeployEnrich.EnrichedUntargeted | cmd/deploy.go:255-256 | A node no container is correlated to is left unchanged. |
| DeployEnrich.EnrichedHostNode | cmd/deploy.go:259-261 | A host-network node is left unchanged, container id included. |
| DeployEnrich.EnrichedLastWins | cmd/deploy.go:254-271 | A non-host node ends with the id of the last container correlated to it, and with the four address fields of the last correlated container whose settings are set. |
| DeployEnrich.EnrichedIdempotent | cmd/deploy.go:253-274 | Running the pass twice gives the same result as running it once. |
| Mac.ParseMac | nodes/ceos/ceos.go:99-102 | A text parses exactly when it is six hex octets with one separator, ':' or '-', used throughout. The result is those six octets. |
| Mac.FormatMac | nodes/ceos/ceos.go:104 | A rendering of n octets is 3n-1 characters long, and empty for no octets. |
| Mac.FormatMacAt | nodes/ceos/ceos.go:104 | Octet i is rendered at position 3i as two lower-case hex digits, high then low, followed by ':' unless it is the last. |
| Mac.FormatThenParse | nodes/ceos/ceos.go:99-104 | Parsing the rendering of any 6-octet address gives the address back. |
| Ceos.InitCmd | nodes/ceos/ceos.go:57-63 | The command is `/sbin/init ` followed by one `systemd.setenv=K=V ` argument per key. The keys appear in some order that lists every key exactly once. |
| Ceos.SegmentsPrefix | nodes/ceos/ceos.go:60-62 | The arguments for the first keys of the order are a prefix of all the arguments. |
| Ceos.SegmentsExport | nodes/ceos/ceos.go:60-62 | Each key's argument appears in the command at the position that follows the arguments of the keys before it. |
| Ceos.SysMac | nodes/ceos/ceos.go:98-103 | The system MAC equals the management MAC in its first five bytes. Its last byte is one more, modulo 256. It always differs from the management MAC. |
| Ceos.SysMacFileReadsBack | nodes/ceos/ceos.go:103-104 | The written system-MAC text parses back to the system MAC, and it differs from the management MAC's text. |
| Ceos.CreateCeosFiles | nodes/ceos/ceos.go:92-106 | The startup-config path is recorded before the MAC is parsed. A MAC that does not parse is the error, and no file is written. Otherwise the system MAC's text is written to `flash/system_mac_address`. |
| Ceos.FirstFailure | nodes/ceos/ceos.go:108-135 | The index of the first failing call: every earlier call succeeds, and the call at that index fails. |
| Ceos.RestartPlan | nodes/ceos/ceos.go:108-135 | The restart has six calls. Configuration generation comes first. The only stop, with timeout 1, is the second call. The only start is the fourth. The link uses the looked-up namespace path. |
| Ceos.Restart | nodes/ceos/ceos.go:109-129 | The first four calls made are the plan's first four, up to and including the first failing one, and that call's error is returned. |
| Ceos.CeosPostDeploy | nodes/ceos/ceos.go:108-135 | The calls made are the plan up to and including the first failing one, and that call's error is returned. The namespace path is untouched before the lookup. When the lookup fails it is the path the runtime returned with the error. Afterwards it is the looked-up path. On success the calls made are a complete restart: configuration first, exactly one stop (second) and one start (fourth) of the node's container, and the linked namespace is the node's recorded path. |
| Ceos.LeftStopped | nodes/ceos/ceos.go:116-129 | Among the restart calls that succeed before the first failure (`FirstFailure`), there is a stop and no start exactly when the symlink removal or the start is the failing call: the container is then left stopped. |
| Ceos.CeosNode.Init | nodes/ceos/ceos.go:49-70 | Keeps the given configuration. The environment is the helper's merge of the cEOS defaults and the node's environment. The command exports the merged environment. The MAC is generated under 00:1c:73. The flash directory is appended to the binds. It never fails. |
| Ceos.CeosNode.Config | nodes/ceos/ceos.go:72 | Returns the configuration given to Init. |
| Ceos.CeosNode.PreDeploy | nodes/ceos/ceos.go:74-77 | Creates the lab directory, then the flash directory, and records the startup-config path. It fails exactly when the management MAC does not parse, with that MAC's error and no file written. Otherwise it writes the system MAC's text to `flash/system_mac_address`. |
| Ceos.CeosNode.Deploy | nodes/ceos/ceos.go:79-81 | One container-creation call for the node's long name; its error is returned. |
| Ceos.CeosNode.PostDeploy | nodes/ceos/ceos.go:83-86 | Exactly the restart of `CeosPostDeploy` on the node's configuration, with the same outcome on success. |
| Ceos.CeosNode.WithMgmtNet | nodes/ceos/ceos.go:88 | Changes nothing. |

## Left out

- Cobra wiring, the `sudo` pre-check, the topology-file flag, logging text, the version check goroutine and the summary table: these are not modelled. They appear in the trace only as steps, or not at all.
- Topology parsing, the checks, the root CA, network creation, node and link creation, graph generation, container listing, inventory generation and each node's post-deploy tasks: these are external collaborators. Their success or failure, and the listing's result, are inputs. The results of `CreateNodes` and `CreateLinks` are not checked by the command, so they cannot fail in the model either.
- Deploy.PostDeployFanOut: the goroutines and the wait group become a sequential loop in node order. Nodes run concurrently in the command, and their logged errors can interleave in any order.
- Deploy.RunE: the global lab-name variable that the enrichment overwrites is returned by `DeployEnrich.EnrichNodes`, but it is not threaded through the trace.
- Deploy.SetFlags: subnet flags are given as their text rendering. IP network parsing is not modelled.
- Deploy.WorkerLimit: Go's `uint` is unbounded here. The counts are `len` of the node map and of the links, never negative, and the clamp only compares them, so no wrap-around can occur.
- DeployHosts.CreateHostsFile: opening `/etc/hosts` and the two writes are not modelled. The model yields the bytes to append, and a failed open or write is one input of `Deploy.HostsSteps`.
- DeployHosts.HostsEntriesReadBack: the read-back partner needs addresses without tabs or newlines and names without newlines, because a line cannot hold those unambiguously.
- DeployEnrich.IsHostMode: only ASCII letters are lowered. Non-ASCII letters never lower to the letters of "host", so the host-mode test is exact.
- Deploy: node names in the settings are distinct (`Deploy.NodeNames`), as keys of the command's node map are.
- Ceos.CeosNode.Init: the only option modelled is the management network (`Ceos.NodeOption`). Init applies arbitrary options; any other option is not part of this model.
- Ceos.CeosPostDeploy: the path a failing namespace lookup returns is an input (`Runtime.Host.nsPathOnError`). What the runtime returns then is not part of this model.
- Mac.ParseMac: the 8- and 20-octet forms and the dotted `xxxx.xxxx.xxxx` form of address parsing are not modelled. They are rejected here. The generated management MAC is always 48-bit.
- Ceos: the helpers that merge maps, generate a MAC and join paths are not part of this model. They are opaque function parameters (`Ceos.Helpers`).
- Ceos: directory creation and file writing return errors that the node ignores. The model lists these as filesystem effects and never fails them.
- Ceos: configuration rendering from the embedded template is the `GenerateConfig` call. Only its path and the two management addresses are recorded.
- Ceos.RestartPlan: the stop timeout is the Go `time.Duration` value 1, that is one nanosecond. How the runtime rounds it is not part of this model.
- Ceos.CeosNode.Init: the order in which the environment is enumerated is left open, as Go's map iteration order is. The contract says some order exists, not which one.
- Node registration in the kind registry and the embedded configuration template are not modelled.

## Notes

The hosts-file guard follows the code in `cmd/deploy.go`. It rejects an
empty bridge name before it computes any entries, so the error occurs even
when there would be nothing to write. It is not limited to the case where
there are entries to write. The deploy command only logs that error.
