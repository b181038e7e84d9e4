/** The collaborators a node calls while it is deployed: the container
    runtime (create, stop, start, namespace path) and the host-side helpers
    that render configuration and manage namespace symlinks. They are one
    recorder here: every call is appended to `trace`, and the call made at
    a position listed in `failAt` returns an error. */
module Runtime {
  import opened Types

  datatype Call =
    | CreateContainer(name: string)
    | GenerateConfig(path: string, mgmtIPv4: string, mgmtIPv6: string)
    | StopContainer(id: string, timeout: int)
    | DeleteNetnsSymlink(name: string)
    | StartContainer(id: string)
    | GetNSPath(id: string)
    | LinkContainerNS(nsPath: string, name: string)

  /** Errors of a node's lifecycle calls: a collaborator call that failed,
      or a MAC address that does not parse. */
  datatype Error = CallFailed(call: Call) | InvalidMac(address: string)

  class Host {
    /** Every call made so far, in order. */
    var trace: seq<Call>
    /** Trace positions whose call fails. */
    const failAt: set<nat>
    /** The namespace path the runtime reports for a container id. */
    const nsPathOf: string -> string
    /** The path a failing namespace lookup returns alongside its error. */
    const nsPathOnError: string -> string

    constructor (failAt: set<nat>, nsPathOf: string -> string, nsPathOnError: string -> string)
      ensures trace == [] && this.failAt == failAt
      ensures this.nsPathOf == nsPathOf && this.nsPathOnError == nsPathOnError
    {
      trace := [];
      this.failAt := failAt;
      this.nsPathOf := nsPathOf;
      this.nsPathOnError := nsPathOnError;
    }

    /** Whether the next call made will fail. */
    predicate NextFails()
      reads this
    {
      |trace| in failAt
    }

    /** Records `c`; it fails exactly when its position is in `failAt`. */
    method Invoke(c: Call) returns (err: Option<Error>)
      modifies this
      ensures trace == old(trace) + [c]
      ensures err == if old(NextFails()) then Some(CallFailed(c)) else None
    {
      err := if NextFails() then Some(CallFailed(c)) else None;
      trace := trace + [c];
    }

    /** The namespace lookup: a path, and an error when the call fails; a
        failing lookup's path is whatever the runtime returns with it. */
    method ResolveNSPath(id: string) returns (path: string, err: Option<Error>)
      modifies this
      ensures trace == old(trace) + [GetNSPath(id)]
      ensures err == if old(NextFails()) then Some(CallFailed(GetNSPath(id))) else None
      ensures path == if err.Some? then nsPathOnError(id) else nsPathOf(id)
    {
      err := Invoke(GetNSPath(id));
      path := if err.Some? then nsPathOnError(id) else nsPathOf(id);
    }
  }
}
