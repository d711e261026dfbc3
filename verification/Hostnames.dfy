/** The host table that the inventory builder makes from an earlier one and its arguments. */
module Hostnames {
  import opened Options
  import opened OrderedDict
  import opened Text

  /** The variables of one host. */
  type Opts = Dict<string>

  predicate IsLetter(c: char) { 'a' <= c <= 'z' || 'A' <= c <= 'Z' }

  /** get_ip_from_opts; None is the ValueError. */
  function IpOf(opts: Opts): Option<string> { Find(opts, "ip") }

  /** exists_ip; None is the ValueError of a host without an address, met before a match. */
  function ExistsIp(hosts: Dict<Opts>, ip: string): Option<bool> {
    if hosts == [] then Some(false)
    else match IpOf(hosts[0].1)
      case None => None
      case Some(x) => if x == ip then Some(true) else ExistsIp(hosts[1..], ip)
  }

  /** The first host with the address. */
  function HostWithIp(hosts: Dict<Opts>, ip: string): Option<string> {
    if hosts == [] then None
    else match IpOf(hosts[0].1)
      case None => None
      case Some(x) => if x == ip then Some(hosts[0].0) else HostWithIp(hosts[1..], ip)
  }

  /** delete_host_by_ip; None is the ValueError. */
  method DeleteHostByIp(hosts: Dict<Opts>, ip: string) returns (r: Option<Dict<Opts>>)
    ensures r == match HostWithIp(hosts, ip) case None => None case Some(name) => Some(Delete(hosts, name))
  {
    for n := 0 to |hosts|
      invariant HostWithIp(hosts, ip) == HostWithIp(hosts[n..], ip)
    {
      match IpOf(hosts[n].1)
      case None =>
        return None;
      case Some(x) =>
        if x == ip {
          return Some(Delete(hosts, hosts[n].0));
        }
    }
    return None;
  }

  // ---------------------------------------------------------------- Host numbers

  /** The longest run of digits at the end. */
  function TrailingDigits(s: string): (r: string)
    ensures AllDigits(r)
  {
    if s != [] && IsDigit(s[|s| - 1]) then TrailingDigits(s[..|s| - 1]) + [s[|s| - 1]] else ""
  }

  /** get_host_id: the number at the end of the short host name; None is the ValueError. */
  function HostId(host: string): Option<nat> {
    var digits := TrailingDigits(Split(host, '.')[0]);
    if digits == "" then None else Some(NumberOf(digits))
  }

  function Max(a: nat, b: nat): nat { if a < b then b else a }

  /** The highest number among the first `n` hosts that carry the prefix; None if one has no number. */
  function Highest(hosts: Dict<Opts>, n: nat, prefix: string): Option<nat>
    requires n <= |hosts|
  {
    if n == 0 then Some(0)
    else match Highest(hosts, n - 1, prefix)
      case None => None
      case Some(h) =>
        if !(prefix <= hosts[n - 1].0) then Some(h)
        else match HostId(hosts[n - 1].0) case None => None case Some(id) => Some(Max(h, id))
  }

  lemma {:induction false} HighestFailureStays(hosts: Dict<Opts>, n: nat, prefix: string)
    requires n <= |hosts|
    ensures Highest(hosts, n, prefix).None? ==> Highest(hosts, |hosts|, prefix).None?
    decreases |hosts| - n
  {
    if n < |hosts| {
      HighestFailureStays(hosts, n + 1, prefix);
    }
  }

  // ---------------------------------------------------------------- Arguments

  /** `ip` or `ip,access_ip`; None is the ValueError. */
  function AddressOf(arg: string): Option<(string, string)> {
    if ',' !in arg then Some((arg, arg))
    else
      var parts := Split(arg, ',');
      if |parts| == 2 then Some((parts[0], parts[1])) else None
  }

  /** `hostname,ip` or `hostname,ip,access_ip`; None is the ValueError. */
  function NamedOf(arg: string): Option<(string, (string, string))> {
    var parts := Split(arg, ',');
    if |parts| == 3 then Some((parts[0], (parts[1], parts[2])))
    else if |parts| == 2 then Some((parts[0], (parts[1], parts[1])))
    else None
  }

  function NewOpts(address: (string, string)): Opts {
    [("ansible_host", address.1), ("ip", address.0), ("access_ip", address.1)]
  }

  /** The local variables of the loop over the arguments. A variable that no argument has set yet is
      None; one set by an earlier argument keeps its value. */
  datatype Building = Building(hosts: Dict<Opts>, next: nat, hostname: Option<string>,
                               address: Option<(string, string)>)

  /** One argument; None is an exception. */
  function Handle(b: Building, arg: string, prefix: string): Option<Building> {
    if arg == "" then None
    else if arg[0] == '-' then HandleDelete(b, arg[1..])
    else if IsDigit(arg[0]) then HandleAddress(b, arg, prefix)
    else if IsLetter(arg[0]) then HandleNamed(b, arg)
    else Some(b)
  }

  function HandleDelete(b: Building, target: string): Option<Building> {
    if Has(b.hosts, target) then Some(b.(hosts := Delete(b.hosts, target)))
    else match ExistsIp(b.hosts, target)
      case None => None
      case Some(false) => Some(b)
      case Some(true) =>
        match HostWithIp(b.hosts, target) case None => None case Some(name) => Some(b.(hosts := Delete(b.hosts, name)))
  }

  function HandleAddress(b: Building, arg: string, prefix: string): Option<Building> {
    match AddressOf(arg)
    case None => None
    case Some(a) =>
      var b' := b.(address := Some(a));
      if Has(b.hosts, arg) then Some(b')
      else match ExistsIp(b.hosts, a.0)
        case None => None
        case Some(true) => Some(b')
        case Some(false) =>
          Some(b'.(hosts := Put(b.hosts, prefix + Numeral(b.next), NewOpts(a)), next := b.next + 1))
  }

  /** What the variables hold once a named argument has been taken apart; without a comma, what an
      earlier argument left in them. */
  function TakeApart(b: Building, arg: string): Option<Building> {
    if ',' !in arg then Some(b)
    else match NamedOf(arg)
      case None => None
      case Some((h, a)) => Some(b.(hostname := Some(h), address := Some(a)))
  }

  function HandleNamed(b: Building, arg: string): Option<Building> {
    match TakeApart(b, arg)
    case None => None
    case Some(b') =>
      if Has(b.hosts, arg) then Some(b')
      else if b'.address.None? then None
      else match ExistsIp(b.hosts, b'.address.value.0)
        case None => None
        case Some(true) => Some(b')
        case Some(false) =>
          if b'.hostname.None? then None
          else Some(b'.(hosts := Put(b.hosts, b'.hostname.value, NewOpts(b'.address.value))))
  }

  function Handled(start: Building, args: seq<string>, n: nat, prefix: string): Option<Building>
    requires n <= |args|
  {
    if n == 0 then Some(start)
    else match Handled(start, args, n - 1, prefix)
      case None => None
      case Some(b) => Handle(b, args[n - 1], prefix)
  }

  lemma {:induction false} HandledFailureStays(start: Building, args: seq<string>, n: nat, prefix: string)
    requires n <= |args|
    ensures Handled(start, args, n, prefix).None? ==> Handled(start, args, |args|, prefix).None?
    decreases |args| - n
  {
    if n < |args| {
      HandledFailureStays(start, args, n + 1, prefix);
    }
  }

  function Start(previous: Dict<Opts>, prefix: string): Option<Building> {
    match Highest(previous, |previous|, prefix)
    case None => None
    case Some(h) => Some(Building(previous, h + 1, None, None))
  }

  function Built(previous: Dict<Opts>, args: seq<string>, prefix: string): Option<Dict<Opts>> {
    match Start(previous, prefix)
    case None => None
    case Some(start) => match Handled(start, args, |args|, prefix) case None => None case Some(b) => Some(b.hosts)
  }

  // ---------------------------------------------------------------- The loops

  method HighestHostId(existing: Dict<Opts>, prefix: string) returns (highest: Option<nat>)
    ensures highest == Highest(existing, |existing|, prefix)
  {
    var top := 0;
    for n := 0 to |existing|
      invariant Highest(existing, n, prefix) == Some(top)
    {
      HighestFailureStays(existing, n + 1, prefix);
      if prefix <= existing[n].0 {
        var id := HostId(existing[n].0);
        if id.None? {
          return None;
        }
        if id.value > top {
          top := id.value;
        }
      }
    }
    return Some(top);
  }

  /** build_hostnames */
  method BuildHostnames(existing: Dict<Opts>, args: seq<string>, prefix: string) returns (r: Option<Dict<Opts>>)
    ensures r == Built(existing, args, prefix)
  {
    var highest := HighestHostId(existing, prefix);
    if highest.None? {
      return None;
    }
    var allHosts, nextHostId := existing, highest.value + 1;
    var hostname: Option<string>, address: Option<(string, string)> := None, None;
    ghost var start := Building(existing, nextHostId, None, None);
    for n := 0 to |args|
      invariant Handled(start, args, n, prefix) == Some(Building(allHosts, nextHostId, hostname, address))
    {
      HandledFailureStays(start, args, n + 1, prefix);
      var host := args[n];
      if host == "" {
        return None;
      }
      if host[0] == '-' {
        var realhost := host[1..];
        if Has(allHosts, realhost) {
          allHosts := Delete(allHosts, realhost);
        } else {
          var found := ExistsIp(allHosts, realhost);
          if found.None? {
            return None;
          }
          if found.value {
            var rest := DeleteHostByIp(allHosts, realhost);
            if rest.None? {
              return None;
            }
            allHosts := rest.value;
          }
        }
      } else if IsDigit(host[0]) {
        address := AddressOf(host);
        if address.None? {
          return None;
        }
        if Has(allHosts, host) {
          continue;
        }
        var found := ExistsIp(allHosts, address.value.0);
        if found.None? {
          return None;
        }
        if found.value {
          continue;
        }
        allHosts := Put(allHosts, prefix + Numeral(nextHostId), NewOpts(address.value));
        nextHostId := nextHostId + 1;
      } else if IsLetter(host[0]) {
        if ',' in host {
          var parts := NamedOf(host);
          if parts.None? {
            return None;
          }
          hostname, address := Some(parts.value.0), Some(parts.value.1);
        }
        if Has(allHosts, host) {
          continue;
        }
        if address.None? {
          return None;
        }
        var found := ExistsIp(allHosts, address.value.0);
        if found.None? {
          return None;
        }
        if found.value {
          continue;
        }
        if hostname.None? {
          return None;
        }
        allHosts := Put(allHosts, hostname.value, NewOpts(address.value));
      }
    }
    return Some(allHosts);
  }
}
