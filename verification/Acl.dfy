/** Access control: compiling the configured lists, and what the compiled checks decide. */
module Acl {
  import opened Basics
  import opened Cidr

  /** The configured lists. An empty list restricts nothing. */
  datatype ACL = ACL(allowedCIDRs: seq<string>, allowedUsers: seq<string>, allowedDatabases: seq<string>)

  /** A `None` list imposes no restriction. */
  datatype CompiledACL = CompiledACL(
    cidrs: seq<IPNet>,
    allowedUsers: Option<map<string, bool>>,
    allowedDatabases: Option<map<string, bool>>)

  /** What the `net` package's parsers make of a text. */
  datatype NetParsers = NetParsers(
    parseCIDR: string -> Option<Prefix>,
    parseIP: string -> Option<Address>,
    splitHostPort: string -> Option<string>)

  /** The outcome of `compileACL`; `Compiled(None)` when there is nothing to check. */
  datatype CompileResult = Compiled(acl: Option<CompiledACL>) | InvalidEntry(entry: string)

  /** A CIDR block, or failing that a bare address. */
  function EntryNet(net: NetParsers, entry: string): Option<IPNet> {
    match net.parseCIDR(entry)
    case Some(p) => Some(PrefixNet(p))
    case None =>
      match net.parseIP(entry)
      case Some(ip) => Some(HostNet(ip))
      case None => None
  }

  ghost predicate IsLookup(names: seq<string>, table: Option<map<string, bool>>) {
    if names == [] then table.None?
    else table.Some? && table.value.Keys == (set n | n in names) && forall n <- table.value.Keys :: table.value[n]
  }

  ghost predicate IsCompiled(net: NetParsers, acl: ACL, c: CompiledACL) {
    && |c.cidrs| == |acl.allowedCIDRs|
    && (forall i | 0 <= i < |c.cidrs| :: EntryNet(net, acl.allowedCIDRs[i]) == Some(c.cidrs[i]))
    && IsLookup(acl.allowedUsers, c.allowedUsers)
    && IsLookup(acl.allowedDatabases, c.allowedDatabases)
  }

  predicate IsReadable(net: NetParsers, entry: string) {
    net.parseCIDR(entry).Some? || net.parseIP(entry).Some?
  }

  ghost predicate IsFirstInvalid(net: NetParsers, entries: seq<string>, entry: string) {
    exists i | 0 <= i < |entries| ::
      && entries[i] == entry
      && !IsReadable(net, entry)
      && forall j | 0 <= j < i :: IsReadable(net, entries[j])
  }

  method CompileACL(net: NetParsers, acl: Option<ACL>) returns (r: CompileResult)
    ensures acl.None? ==> r == Compiled(None)
    ensures acl.Some? && r.Compiled? ==> r.acl.Some? && IsCompiled(net, acl.value, r.acl.value)
    ensures r.InvalidEntry? ==> acl.Some? && IsFirstInvalid(net, acl.value.allowedCIDRs, r.entry)
  {
    if acl.None? {
      return Compiled(None);
    }
    var entries := acl.value.allowedCIDRs;
    var cidrs: seq<IPNet> := [];
    for i := 0 to |entries|
      invariant |cidrs| == i
      invariant forall j | 0 <= j < i :: EntryNet(net, entries[j]) == Some(cidrs[j])
    {
      var ipnet := EntryNet(net, entries[i]);
      if ipnet.None? {
        return InvalidEntry(entries[i]);
      }
      cidrs := cidrs + [ipnet.value];
    }
    var users := CompileNames(acl.value.allowedUsers);
    var databases := CompileNames(acl.value.allowedDatabases);
    return Compiled(Some(CompiledACL(cidrs, users, databases)));
  }

  method CompileNames(names: seq<string>) returns (table: Option<map<string, bool>>)
    ensures IsLookup(names, table)
  {
    if |names| == 0 {
      return None;
    }
    var m: map<string, bool> := map[];
    for i := 0 to |names|
      invariant m.Keys == set j | 0 <= j < i :: names[j]
      invariant forall n <- m.Keys :: m[n]
    {
      m := m[names[i] := true];
    }
    return Some(m);
  }

  /** The address behind a remote address; a unix socket's has none. */
  function RemoteIP(net: NetParsers, remote: string): Option<Address> {
    match net.splitHostPort(remote)
    case Some(host) => net.parseIP(host)
    case None => net.parseIP(remote)
  }

  method CheckAddr(net: NetParsers, c: Option<CompiledACL>, remote: string) returns (ok: bool)
    ensures ok <==> AddrOK(net, c, remote)
  {
    if c.None? || |c.value.cidrs| == 0 {
      return true;
    }
    var split := net.splitHostPort(remote);
    var host := if split.Some? then split.value else remote;
    var ip := net.parseIP(host);
    if ip.None? {
      return true;
    }
    for i := 0 to |c.value.cidrs|
      invariant forall j | 0 <= j < i :: !Contains(c.value.cidrs[j], ip.value)
    {
      if Contains(c.value.cidrs[i], ip.value) {
        return true;
      }
    }
    return false;
  }

  predicate AddrOK(net: NetParsers, c: Option<CompiledACL>, remote: string) {
    || c.None? || c.value.cidrs == [] || RemoteIP(net, remote).None?
    || exists n <- c.value.cidrs :: Contains(n, RemoteIP(net, remote).value)
  }

  predicate NameOK(table: Option<map<string, bool>>, name: string) {
    table.Some? ==> name in table.value && table.value[name]
  }

  predicate UserOK(c: Option<CompiledACL>, user: string) {
    c.Some? ==> NameOK(c.value.allowedUsers, user)
  }

  predicate DatabaseOK(c: Option<CompiledACL>, database: string) {
    c.Some? ==> NameOK(c.value.allowedDatabases, database)
  }

  // ---------------------------------------------------------------- what the lists mean

  /** The addresses that a list entry stands for. */
  function EntryRange(net: NetParsers, entry: string): Option<Range> {
    match net.parseCIDR(entry)
    case Some(p) => Some(PrefixRange(p))
    case None =>
      match net.parseIP(entry)
      case Some(ip) => Some(HostRange(ip))
      case None => None
  }

  /** A client with an address is let in just when its address lies in the range of some entry;
      an empty list, or a client without an address, is not restricted. */
  ghost predicate AddressPermitted(net: NetParsers, acl: ACL, remote: string) {
    || acl.allowedCIDRs == [] || RemoteIP(net, remote).None?
    || exists e <- acl.allowedCIDRs ::
         EntryRange(net, e).Some? && InRange(EntryRange(net, e).value, RemoteIP(net, remote).value)
  }

  ghost predicate NamePermitted(names: seq<string>, name: string) {
    names == [] || name in names
  }

  lemma EntryContains(net: NetParsers, entry: string, ip: Address)
    requires EntryNet(net, entry).Some?
    ensures EntryRange(net, entry).Some?
    ensures Contains(EntryNet(net, entry).value, ip) <==> InRange(EntryRange(net, entry).value, ip)
  {
    match net.parseCIDR(entry)
    case Some(p) => PrefixContains(p, ip);
    case None => HostContains(net.parseIP(entry).value, ip);
  }

  lemma CompiledAddrCheck(net: NetParsers, acl: ACL, c: CompiledACL, remote: string)
    requires IsCompiled(net, acl, c)
    ensures AddrOK(net, Some(c), remote) <==> AddressPermitted(net, acl, remote)
  {
    if acl.allowedCIDRs != [] && RemoteIP(net, remote).Some? {
      var ip := RemoteIP(net, remote).value;
      if n :| n in c.cidrs && Contains(n, ip) {
        var i :| 0 <= i < |c.cidrs| && c.cidrs[i] == n;
        EntryContains(net, acl.allowedCIDRs[i], ip);
        assert acl.allowedCIDRs[i] in acl.allowedCIDRs;
      }
      if e :| e in acl.allowedCIDRs && EntryRange(net, e).Some? && InRange(EntryRange(net, e).value, ip) {
        var i :| 0 <= i < |c.cidrs| && acl.allowedCIDRs[i] == e;
        EntryContains(net, e, ip);
        assert c.cidrs[i] in c.cidrs;
      }
    }
  }

  /** The entry is a block that covers the address, or failing a block the address itself. */
  ghost predicate Admits(net: NetParsers, entry: string, ip: Address) {
    match net.parseCIDR(entry)
    case Some(p) => Covers(p, ip)
    case None => net.parseIP(entry) == Some(ip)
  }

  lemma EntryAdmits(net: NetParsers, entry: string, ip: Address)
    requires EntryNet(net, entry).Some?
    ensures Contains(EntryNet(net, entry).value, ip) <==> Admits(net, entry, ip)
  {
    match net.parseCIDR(entry)
    case Some(p) => PrefixCovers(p, ip);
    case None => HostIsItself(net.parseIP(entry).value, ip);
  }

  /** The text that is read as the client's address: the host of host and port, or else all of it. */
  predicate IsHostOf(net: NetParsers, remote: string, host: string) {
    net.splitHostPort(remote) == Some(host) || (net.splitHostPort(remote).None? && host == remote)
  }

  /** The verdict in terms of the parsers alone: an address, whatever port stands behind it, is let
      in just if there is no list or some entry admits it; a host that is no address is let in. */
  lemma AddressVerdict(net: NetParsers, acl: ACL, c: CompiledACL, remote: string, host: string)
    requires IsCompiled(net, acl, c) && IsHostOf(net, remote, host)
    ensures net.parseIP(host).None? ==> AddrOK(net, Some(c), remote)
    ensures net.parseIP(host).Some? ==>
              (AddrOK(net, Some(c), remote) <==>
               acl.allowedCIDRs == [] || exists e <- acl.allowedCIDRs :: Admits(net, e, net.parseIP(host).value))
  {
    if acl.allowedCIDRs != [] && net.parseIP(host).Some? {
      var ip := net.parseIP(host).value;
      if n :| n in c.cidrs && Contains(n, ip) {
        var i :| 0 <= i < |c.cidrs| && c.cidrs[i] == n;
        EntryAdmits(net, acl.allowedCIDRs[i], ip);
        assert acl.allowedCIDRs[i] in acl.allowedCIDRs;
      }
      if e :| e in acl.allowedCIDRs && Admits(net, e, ip) {
        var i :| 0 <= i < |c.cidrs| && acl.allowedCIDRs[i] == e;
        EntryAdmits(net, e, ip);
        assert c.cidrs[i] in c.cidrs;
      }
    }
  }

  /** The compiled checks decide membership in every list that is not empty. */
  lemma CompiledChecks(net: NetParsers, acl: ACL, c: CompiledACL, remote: string, user: string, database: string)
    requires IsCompiled(net, acl, c)
    ensures AddrOK(net, Some(c), remote) <==> AddressPermitted(net, acl, remote)
    ensures UserOK(Some(c), user) <==> NamePermitted(acl.allowedUsers, user)
    ensures DatabaseOK(Some(c), database) <==> NamePermitted(acl.allowedDatabases, database)
  {
    CompiledAddrCheck(net, acl, c, remote);
  }
}
