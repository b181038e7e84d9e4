/** The `/etc/hosts` part of the deploy command: the text appended for the
    discovered containers, and the guards that decide whether anything is
    appended at all. The file itself is not opened here; the model yields
    the bytes that would be appended. */
module DeployHosts {
  import opened Types

  /** `strings.TrimLeft(s, "/")`: the cut set is the single character '/',
      so every leading '/' goes, not just one prefix. */
  function TrimLeftSlash(s: string): (r: string)
    ensures |r| <= |s| && r == s[|s| - |r|..]
    ensures forall i :: 0 <= i < |s| - |r| ==> s[i] == '/'
    ensures r == [] || r[0] != '/'
  {
    if s != [] && s[0] == '/' then TrimLeftSlash(s[1..]) else s
  }

  /** One hosts line. */
  function HostLine(addr: string, name: string): string
  {
    addr + "\t" + name + "\n"
  }

  /** The bytes one container contributes: nothing without a name or
      without network settings; else its IPv4 line, then its IPv6 line, each
      only when the address is non-empty. */
  function ContainerEntries(c: GenericContainer): (r: string)
    ensures r == Render(ContainerHosts(c))
  {
    if |c.names| == 0 then ""
    else if !c.networkSettings.isSet then ""
    else
      var name := TrimLeftSlash(c.names[0]);
      var v4, v6 := HostEntry(c.networkSettings.ipv4Addr, name), HostEntry(c.networkSettings.ipv6Addr, name);
      var l4 := if v4.addr != "" then [v4] else [];
      var l6 := if v6.addr != "" then [v6] else [];
      assert ContainerHosts(c) == l4 + l6;
      RenderAppend(l4, l6);
      RenderOne(v4);
      RenderOne(v6);
      (if c.networkSettings.ipv4Addr != "" then HostLine(c.networkSettings.ipv4Addr, name) else "")
      + (if c.networkSettings.ipv6Addr != "" then HostLine(c.networkSettings.ipv6Addr, name) else "")
  }

  /** The text built for `containers`: the first container's bytes, then the
      rest's, as the buffer is appended to in input order. The
      bridge name is accepted and never read. The text is exactly the
      rendering of the pairs the containers should be listed with. */
  function HostsEntries(containers: seq<GenericContainer>, bridgeName: string): (r: string)
    ensures r == Render(HostsOf(containers))
    decreases |containers|
  {
    if containers == [] then ""
    else
      RenderAppend(ContainerHosts(containers[0]), HostsOf(containers[1..]));
      ContainerEntries(containers[0]) + HostsEntries(containers[1..], bridgeName)
  }

  // ---------------------------------------------------------------------------
  // What the text means: the address/name pairs it lists, and a reader for it.

  datatype HostEntry = HostEntry(addr: string, name: string)

  /** Which address/name pairs a container should be listed with. */
  function ContainerHosts(c: GenericContainer): seq<HostEntry>
  {
    if |c.names| == 0 || !c.networkSettings.isSet then []
    else
      var name := TrimLeftSlash(c.names[0]);
      (if c.networkSettings.ipv4Addr != "" then [HostEntry(c.networkSettings.ipv4Addr, name)] else [])
      + (if c.networkSettings.ipv6Addr != "" then [HostEntry(c.networkSettings.ipv6Addr, name)] else [])
  }

  /** The pairs of all containers, in input order. */
  function HostsOf(containers: seq<GenericContainer>): seq<HostEntry>
  {
    if containers == [] then [] else ContainerHosts(containers[0]) + HostsOf(containers[1..])
  }

  function Render(es: seq<HostEntry>): string
  {
    if es == [] then "" else HostLine(es[0].addr, es[0].name) + Render(es[1..])
  }

  /** First position of `c` in `s`, or |s|. */
  function IndexOf(s: string, c: char): (i: nat)
    ensures i <= |s|
    ensures i < |s| ==> s[i] == c
    ensures forall j :: 0 <= j < i ==> s[j] != c
  {
    if s == [] then 0 else if s[0] == c then 0 else 1 + IndexOf(s[1..], c)
  }

  function ParseLine(line: string): HostEntry
  {
    var t := IndexOf(line, '\t');
    HostEntry(line[..t], if t < |line| then line[t + 1..] else "")
  }

  /** Reads hosts text back into address/name pairs, one per line. */
  function ParseHosts(s: string): seq<HostEntry>
    decreases |s|
  {
    if s == [] then []
    else
      var i := IndexOf(s, '\n');
      [ParseLine(s[..i])] + ParseHosts(if i < |s| then s[i + 1..] else "")
  }

  /** A pair can be written as one line and read back. */
  predicate Printable(e: HostEntry)
  {
    && (forall j :: 0 <= j < |e.addr| ==> e.addr[j] != '\t' && e.addr[j] != '\n')
    && (forall j :: 0 <= j < |e.name| ==> e.name[j] != '\n')
  }

  /** Container names and addresses as the runtime reports them: no tab or
      newline in an address, no newline in the first name. */
  predicate PrintableContainer(c: GenericContainer)
  {
    && (forall j :: 0 <= j < |c.networkSettings.ipv4Addr| ==>
          c.networkSettings.ipv4Addr[j] != '\t' && c.networkSettings.ipv4Addr[j] != '\n')
    && (forall j :: 0 <= j < |c.networkSettings.ipv6Addr| ==>
          c.networkSettings.ipv6Addr[j] != '\t' && c.networkSettings.ipv6Addr[j] != '\n')
    && (|c.names| > 0 ==> forall j :: 0 <= j < |c.names[0]| ==> c.names[0][j] != '\n')
  }

  // ---------------------------------------------------------------------------
  // Properties of the text.

  /** Containers are written in input order: the text of a concatenation is
      the concatenation of the texts. */
  lemma {:induction false} HostsEntriesAppend(xs: seq<GenericContainer>, ys: seq<GenericContainer>, b: string)
    ensures HostsEntries(xs + ys, b) == HostsEntries(xs, b) + HostsEntries(ys, b)
  {
    HostsOfAppend(xs, ys);
    RenderAppend(HostsOf(xs), HostsOf(ys));
  }

  lemma {:induction false} HostsOfAppend(xs: seq<GenericContainer>, ys: seq<GenericContainer>)
    ensures HostsOf(xs + ys) == HostsOf(xs) + HostsOf(ys)
    decreases |xs|
  {
    if xs == [] {
      assert xs + ys == ys;
    } else {
      assert (xs + ys)[0] == xs[0];
      assert (xs + ys)[1..] == xs[1..] + ys;
      HostsOfAppend(xs[1..], ys);
    }
  }

  /** A container without a name or without network settings adds no
      bytes, wherever it stands. */
  lemma IneligibleContainerAddsNothing(xs: seq<GenericContainer>, c: GenericContainer,
                                       ys: seq<GenericContainer>, b: string)
    requires |c.names| == 0 || !c.networkSettings.isSet
    ensures HostsEntries(xs + [c] + ys, b) == HostsEntries(xs + ys, b)
  {
    assert [c][1..] == [];
    assert HostsEntries([c], b) == HostsEntries([], b) + ContainerEntries(c) == "";
    HostsEntriesAppend(xs + [c], ys, b);
    HostsEntriesAppend(xs, [c], b);
    HostsEntriesAppend(xs, ys, b);
  }

  /** The bridge name never affects the text. */
  lemma {:induction false} HostsEntriesIgnoresBridge(cs: seq<GenericContainer>, b1: string, b2: string)
    ensures HostsEntries(cs, b1) == HostsEntries(cs, b2)
    decreases |cs|
  {
    if cs != [] {
      HostsEntriesIgnoresBridge(cs[1..], b1, b2);
    }
  }

  lemma {:induction false} RenderAppend(xs: seq<HostEntry>, ys: seq<HostEntry>)
    ensures Render(xs + ys) == Render(xs) + Render(ys)
    decreases |xs|
  {
    if xs == [] {
      assert xs + ys == ys;
    } else {
      assert (xs + ys)[0] == xs[0];
      assert (xs + ys)[1..] == xs[1..] + ys;
      RenderAppend(xs[1..], ys);
    }
  }

  lemma RenderOne(e: HostEntry)
    ensures Render([e]) == HostLine(e.addr, e.name)
  {
    assert [e][1..] == [];
  }

  lemma ParseHostLine(e: HostEntry, rest: string)
    requires Printable(e)
    ensures ParseHosts(HostLine(e.addr, e.name) + rest) == [e] + ParseHosts(rest)
  {
    var s := HostLine(e.addr, e.name) + rest;
    var p := |e.addr| + 1 + |e.name|;
    assert s[p] == '\n';
    assert forall j :: 0 <= j < p ==> s[j] != '\n' by {
      forall j | 0 <= j < p ensures s[j] != '\n' {
        if j < |e.addr| { assert s[j] == e.addr[j]; }
        else if j == |e.addr| { assert s[j] == '\t'; }
        else { assert s[j] == e.name[j - |e.addr| - 1]; }
      }
    }
    var i := IndexOf(s, '\n');
    assert i == p;
    var line := s[..i];
    assert line == e.addr + "\t" + e.name;
    var t := IndexOf(line, '\t');
    assert line[|e.addr|] == '\t';
    assert forall j :: 0 <= j < |e.addr| ==> line[j] != '\t' by {
      forall j | 0 <= j < |e.addr| ensures line[j] != '\t' { assert line[j] == e.addr[j]; }
    }
    assert t == |e.addr|;
    assert line[..t] == e.addr;
    assert line[t + 1..] == e.name;
    assert s[i + 1..] == rest;
  }

  /** Reading back rendered pairs gives the same pairs. */
  lemma {:induction false} ParseRender(es: seq<HostEntry>)
    requires forall k :: 0 <= k < |es| ==> Printable(es[k])
    ensures ParseHosts(Render(es)) == es
    decreases |es|
  {
    if es != [] {
      ParseHostLine(es[0], Render(es[1..]));
      ParseRender(es[1..]);
    }
  }

  lemma {:induction false} HostsOfPrintable(cs: seq<GenericContainer>)
    requires forall k :: 0 <= k < |cs| ==> PrintableContainer(cs[k])
    ensures forall k :: 0 <= k < |HostsOf(cs)| ==> Printable(HostsOf(cs)[k])
    decreases |cs|
  {
    if cs != [] {
      HostsOfPrintable(cs[1..]);
      ContainerHostsPrintable(cs[0]);
      var head, tail := ContainerHosts(cs[0]), HostsOf(cs[1..]);
      assert HostsOf(cs) == head + tail;
      forall k | 0 <= k < |head + tail| ensures Printable((head + tail)[k]) {
        if k < |head| { assert (head + tail)[k] == head[k]; }
        else { assert (head + tail)[k] == tail[k - |head|]; }
      }
    }
  }

  lemma ContainerHostsPrintable(c: GenericContainer)
    requires PrintableContainer(c)
    ensures forall k :: 0 <= k < |ContainerHosts(c)| ==> Printable(ContainerHosts(c)[k])
  {
    if |c.names| > 0 && c.networkSettings.isSet {
      var name := TrimLeftSlash(c.names[0]);
      TrimLeftSlashKeepsNoNewline(c.names[0]);
      assert Printable(HostEntry(c.networkSettings.ipv4Addr, name));
      assert Printable(HostEntry(c.networkSettings.ipv6Addr, name));
    }
  }

  lemma TrimLeftSlashKeepsNoNewline(s: string)
    requires forall j :: 0 <= j < |s| ==> s[j] != '\n'
    ensures forall j :: 0 <= j < |TrimLeftSlash(s)| ==> TrimLeftSlash(s)[j] != '\n'
  {
    var r := TrimLeftSlash(s);
    forall j | 0 <= j < |r| ensures r[j] != '\n' {
      assert r[j] == s[|s| - |r| + j];
    }
  }

  /** Round trip: the hosts text reads back as exactly one (address, name)
      pair per non-empty address of every eligible container, IPv4 before
      IPv6, containers in input order, names without leading slashes. */
  lemma HostsEntriesReadBack(cs: seq<GenericContainer>, b: string)
    requires forall k :: 0 <= k < |cs| ==> PrintableContainer(cs[k])
    ensures ParseHosts(HostsEntries(cs, b)) == HostsOf(cs)
  {
    HostsOfPrintable(cs);
    ParseRender(HostsOf(cs));
  }

  /** The text is empty exactly when no container has a pair to list. */
  lemma {:induction false} HostsEntriesEmpty(cs: seq<GenericContainer>, b: string)
    ensures HostsEntries(cs, b) == "" <==> HostsOf(cs) == []
  {
    var es := HostsOf(cs);
    if es != [] {
      assert |Render(es)| >= |HostLine(es[0].addr, es[0].name)| > 0;
    }
  }

  // ---------------------------------------------------------------------------
  // The guards of the hosts-file write.

  datatype HostsFileAction =
    | MissingBridgeName                 // returned as an error
    | NothingToWrite                    // success; the file is not opened
    | AppendToHosts(data: string)       // bytes appended to /etc/hosts

  /** An empty bridge name is an error before any entry is computed; empty
      entries mean nothing is written; otherwise a newline and then the
      entries are appended. */
  function CreateHostsFile(containers: seq<GenericContainer>, bridgeName: string): (r: HostsFileAction)
    ensures bridgeName == "" <==> r == MissingBridgeName
    ensures r == NothingToWrite <==> bridgeName != "" && HostsOf(containers) == []
    ensures r.AppendToHosts? ==> r.data == "\n" + HostsEntries(containers, bridgeName)
  {
    HostsEntriesEmpty(containers, bridgeName);
    if bridgeName == "" then MissingBridgeName
    else
      var data := HostsEntries(containers, bridgeName);
      if |data| == 0 then NothingToWrite
      else
        AppendToHosts("\n" + data)
  }

  /** What is appended reads back, after its leading newline, as the pairs
      of the eligible containers. */
  lemma AppendedHostsReadBack(containers: seq<GenericContainer>, bridgeName: string)
    requires forall k :: 0 <= k < |containers| ==> PrintableContainer(containers[k])
    requires CreateHostsFile(containers, bridgeName).AppendToHosts?
    ensures ParseHosts(CreateHostsFile(containers, bridgeName).data[1..]) == HostsOf(containers)
  {
    var data := HostsEntries(containers, bridgeName);
    assert ("\n" + data)[1..] == data;
    HostsEntriesReadBack(containers, bridgeName);
  }
}
