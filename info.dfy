/**
 * The /info handler of internal/info/info.go: the primary-IP choice over the
 * host's interfaces and the fields fixed when the handler is built. The
 * network library's answers (interface flags, address lists, `IsLoopback`,
 * `To4`) are inputs.
 */
module Info {
  import opened Wrappers
  import opened Records
  import Text

  /** An IP as the library reports it: loopback or not, and its IPv4 text if `To4` succeeds. */
  datatype IP = IP(loopback: bool, v4: Option<string>)

  /** An address of an interface; None when it yields no IP (nil, or neither IPNet nor IPAddr). */
  datatype Addr = Addr(ip: Option<IP>)

  /** An interface: its up and loopback flags and its address list, None when listing fails. */
  datatype Iface = Iface(up: bool, loopback: bool, addrs: Option<seq<Addr>>)

  const Unknown: string := "unknown"

  /** The interfaces the search looks into: up, not loopback, with a readable address list. */
  predicate UsableIface(iface: Iface) {
    iface.up && !iface.loopback && iface.addrs.Some?
  }

  /** The addresses that qualify: a non-nil, non-loopback IP with an IPv4 form. */
  predicate UsableAddr(a: Addr) {
    a.ip.Some? && !a.ip.value.loopback && a.ip.value.v4.Some?
  }

  /** The first qualifying address of a list, as text. */
  function FirstInAddrs(addrs: seq<Addr>): Option<string> {
    if addrs == [] then None
    else if UsableAddr(addrs[0]) then Some(addrs[0].ip.value.v4.value)
    else FirstInAddrs(addrs[1..])
  }

  /** The first qualifying address in interface order, then address order. */
  function FirstIPv4(ifaces: seq<Iface>): Option<string> {
    if ifaces == [] then None
    else if UsableIface(ifaces[0]) && FirstInAddrs(ifaces[0].addrs.value).Some?
    then FirstInAddrs(ifaces[0].addrs.value)
    else FirstIPv4(ifaces[1..])
  }

  /** Address `j` of interface `i` qualifies. */
  ghost predicate Qualifies(ifaces: seq<Iface>, i: int, j: int) {
    && 0 <= i < |ifaces| && UsableIface(ifaces[i])
    && 0 <= j < |ifaces[i].addrs.value| && UsableAddr(ifaces[i].addrs.value[j])
  }

  /** The text of a qualifying address. */
  function AddrText(ifaces: seq<Iface>, i: int, j: int): string
    requires 0 <= i < |ifaces| && UsableIface(ifaces[i])
    requires 0 <= j < |ifaces[i].addrs.value| && UsableAddr(ifaces[i].addrs.value[j])
  {
    ifaces[i].addrs.value[j].ip.value.v4.value
  }

  lemma {:induction false} FirstInAddrsIsFirst(addrs: seq<Addr>)
    ensures FirstInAddrs(addrs).None? <==> forall j :: 0 <= j < |addrs| ==> !UsableAddr(addrs[j])
    ensures FirstInAddrs(addrs).Some? ==>
              exists j :: 0 <= j < |addrs| && UsableAddr(addrs[j]) && FirstInAddrs(addrs) == Some(addrs[j].ip.value.v4.value)
                       && forall j' :: 0 <= j' < j ==> !UsableAddr(addrs[j'])
  {
    if addrs != [] && !UsableAddr(addrs[0]) {
      FirstInAddrsIsFirst(addrs[1..]);
      if FirstInAddrs(addrs).Some? {
        var j :| 0 <= j < |addrs[1..]| && UsableAddr(addrs[1..][j])
                 && FirstInAddrs(addrs[1..]) == Some(addrs[1..][j].ip.value.v4.value)
                 && forall j' :: 0 <= j' < j ==> !UsableAddr(addrs[1..][j']);
        assert forall j' :: 0 <= j' < j + 1 ==> !UsableAddr(addrs[j']) by {
          forall j' | 0 <= j' < j + 1 ensures !UsableAddr(addrs[j']) {
            if j' > 0 { assert addrs[j'] == addrs[1..][j' - 1]; }
          }
        }
      } else {
        forall j | 0 <= j < |addrs| ensures !UsableAddr(addrs[j]) {
          if j > 0 { assert addrs[j] == addrs[1..][j - 1]; }
        }
      }
    }
  }

  /**
   * The choice is first-match: if there is an answer it is the text of a
   * qualifying address at `(i, j)` and nothing qualifies at an earlier
   * interface, or earlier in the same interface.
   */
  lemma {:induction false} FirstIPv4IsFirst(ifaces: seq<Iface>) returns (i: int, j: int)
    requires FirstIPv4(ifaces).Some?
    ensures Qualifies(ifaces, i, j) && FirstIPv4(ifaces) == Some(AddrText(ifaces, i, j))
    ensures forall i', j' :: 0 <= i' < i && 0 <= j' ==> !Qualifies(ifaces, i', j')
    ensures forall j' :: 0 <= j' < j ==> !Qualifies(ifaces, i, j')
  {
    if UsableIface(ifaces[0]) && FirstInAddrs(ifaces[0].addrs.value).Some? {
      FirstInAddrsIsFirst(ifaces[0].addrs.value);
      var addrs := ifaces[0].addrs.value;
      i := 0;
      j :| 0 <= j < |addrs| && UsableAddr(addrs[j]) && FirstInAddrs(addrs) == Some(addrs[j].ip.value.v4.value)
           && forall j' :: 0 <= j' < j ==> !UsableAddr(addrs[j']);
    } else {
      if UsableIface(ifaces[0]) {
        FirstInAddrsIsFirst(ifaces[0].addrs.value);
      }
      var i1, j1 := FirstIPv4IsFirst(ifaces[1..]);
      i, j := i1 + 1, j1;
      assert ifaces[i] == ifaces[1..][i1];
      forall j' | 0 <= j' < j ensures !Qualifies(ifaces, i, j') {
        assert !Qualifies(ifaces[1..], i1, j');
      }
      forall i', j' | 0 <= i' < i && 0 <= j' ensures !Qualifies(ifaces, i', j') {
        if i' > 0 {
          assert ifaces[i'] == ifaces[1..][i' - 1];
          assert !Qualifies(ifaces[1..], i' - 1, j');
        }
      }
    }
  }

  /** No answer means no address of any interface qualifies. */
  lemma {:induction false} FirstIPv4None(ifaces: seq<Iface>)
    requires FirstIPv4(ifaces).None?
    ensures forall i, j :: !Qualifies(ifaces, i, j)
  {
    if ifaces != [] {
      if UsableIface(ifaces[0]) {
        FirstInAddrsIsFirst(ifaces[0].addrs.value);
      }
      FirstIPv4None(ifaces[1..]);
      forall i, j | Qualifies(ifaces, i, j) ensures false {
        if i > 0 {
          assert Qualifies(ifaces[1..], i - 1, j);
        }
      }
    }
  }

  /**
   * `getPrimaryIP`: walk the interfaces, skipping those down, loopback or
   * without an address list, and return the first non-loopback IPv4
   * address; "unknown" when listing the interfaces fails or nothing qualifies.
   */
  method PrimaryIP(ifaces: Option<seq<Iface>>) returns (ip: string)
    ensures ifaces.None? ==> ip == Unknown
    ensures ifaces.Some? ==> ip == FirstIPv4(ifaces.value).GetOr(Unknown)
  {
    if ifaces.None? {
      return Unknown;
    }
    var all := ifaces.value;
    for i := 0 to |all|
      invariant FirstIPv4(all) == FirstIPv4(all[i..])
    {
      assert all[i..][1..] == all[i + 1..];
      var iface := all[i];
      if !iface.up || iface.loopback {
        continue;
      }
      if iface.addrs.None? {
        continue;
      }
      var addrs := iface.addrs.value;
      for j := 0 to |addrs|
        invariant FirstInAddrs(addrs) == FirstInAddrs(addrs[j..])
      {
        assert addrs[j..][1..] == addrs[j + 1..];
        var addr := addrs[j];
        if addr.ip.None? || addr.ip.value.loopback {
          continue;
        }
        if addr.ip.value.v4.None? {
          continue;
        }
        return addr.ip.value.v4.value;
      }
      assert addrs[|addrs|..] == [];
    }
    assert all[|all|..] == [];
    ip := Unknown;
  }

  /** What `Handler()` computes once, when the server wires it up. */
  datatype InfoHandler = InfoHandler(hostname: string, ip: string)

  /**
   * The response fields this model covers; memory and disk are the used and
   * total byte counts the handler renders as gigabytes.
   */
  datatype InfoBody = InfoBody(
    hostname: string, ip: string, os: string, arch: string, cpu: string,
    memUsed: nat, memTotal: nat, diskUsed: nat, diskTotal: nat)

  /**
   * One request's outcome: the body, or the panic of dereferencing a memory
   * or disk read that failed, which gin's recovery turns into a 500.
   */
  datatype InfoResponse = InfoPanicked | InfoOk(body: InfoBody)

  /** `Handler()`: the hostname, "unknown" when it cannot be read, and the primary IP. */
  method NewHandler(hostname: Option<string>, ifaces: Option<seq<Iface>>) returns (h: InfoHandler)
    ensures h.hostname == hostname.GetOr(Unknown)
    ensures ifaces.None? ==> h.ip == Unknown
    ensures ifaces.Some? ==> h.ip == FirstIPv4(ifaces.value).GetOr(Unknown)
  {
    var name := if hostname.Some? then hostname.value else Unknown;
    var ip := PrimaryIP(ifaces);
    h := InfoHandler(name, ip);
  }

  /** "<n> cores", as `fmt.Sprintf("%d cores", n)` writes it. */
  function CoresText(n: nat): (s: string)
    ensures |s| > 6 && s[|s| - 6..] == " cores"
    ensures var digits := s[..|s| - 6];
            && (forall i :: 0 <= i < |digits| ==> Text.IsDigit(digits[i]))
            && (|digits| > 1 ==> digits[0] != '0')
            && Text.ParseDecimal(digits) == n
  {
    var digits := Text.Decimal(n);
    Text.DecimalRoundTrip(n);
    assert (digits + " cores")[..|digits|] == digits;
    digits + " cores"
  }

  /**
   * One request: the hostname and IP are those fixed when the handler was
   * built, whatever this request's host readings are. The memory and disk
   * errors are discarded, so a failed read is used as a nil result.
   */
  function Serve(h: InfoHandler, cpuCount: nat, goos: string, goarch: string, vm: Option<MemStat>, disk: Option<DiskStat>): (r: InfoResponse)
    ensures r.InfoPanicked? <==> vm.None? || disk.None?
    ensures r.InfoOk? ==>
              && r.body.hostname == h.hostname && r.body.ip == h.ip
              && r.body.os == goos && r.body.arch == goarch && r.body.cpu == CoresText(cpuCount)
              && r.body.memUsed == vm.value.used && r.body.memTotal == vm.value.total
              && r.body.diskUsed == disk.value.used && r.body.diskTotal == disk.value.total
  {
    if vm.None? || disk.None? then InfoPanicked
    else InfoOk(InfoBody(h.hostname, h.ip, goos, goarch, CoresText(cpuCount),
                         vm.value.used, vm.value.total, disk.value.used, disk.value.total))
  }
}
