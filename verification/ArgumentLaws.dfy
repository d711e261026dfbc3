/** What each kind of argument does to the host table. */
module ArgumentLaws {
  import opened Options
  import opened OrderedDict
  import opened Text
  import opened Hostnames
  import opened HostnameLaws

  // ---------------------------------------------------------------- New hosts

  /** Exactly these variables. */
  ghost predicate IsStoredAs(opts: Opts, ip: string, access: string) {
    && IpOf(opts) == Some(ip) && Find(opts, "access_ip") == Some(access) && Find(opts, "ansible_host") == Some(access)
    && Keys(opts) == {"ansible_host", "ip", "access_ip"} && |opts| == 3
  }

  lemma NewOptsAreStored(a: (string, string))
    ensures IsStoredAs(NewOpts(a), a.0, a.1)
  {
    IpOfNew(a);
    var opts := NewOpts(a);
    assert |opts[0].0| == 12 && |opts[1].0| == 2 && |"access_ip"| == 9;
    assert opts[1..][0] == ("ip", a.0) && opts[1..][1..] == [("access_ip", a.1)];
    assert Find(opts, "access_ip") == Find(opts[1..], "access_ip") == Find(opts[1..][1..], "access_ip");
    forall k ensures k in Keys(opts) <==> k in {"ansible_host", "ip", "access_ip"} {
      HasKeys(opts, k);
      assert Has(opts, k) <==> k == opts[0].0 || k == opts[1].0 || k == opts[2].0;
    }
  }

  /** `d` is `b` with one more or one replaced host, of that address and access address. */
  ghost predicate AddsHost(b: Dict<Opts>, d: Dict<Opts>, name: string, a: (string, string)) {
    forall x :: if x == name then Find(d, x).Some? && IsStoredAs(Find(d, x).value, a.0, a.1)
                else Find(d, x) == Find(b, x)
  }

  lemma PutAddsHost(b: Dict<Opts>, name: string, a: (string, string))
    ensures AddsHost(b, Put(b, name, NewOpts(a)), name, a)
  {
    NewOptsAreStored(a);
    forall x ensures Find(Put(b, name, NewOpts(a)), x) == if x == name then Some(NewOpts(a)) else Find(b, x) {
      FindPut(b, name, NewOpts(a), x);
    }
  }

  /** The table takes in a host, unless its address is taken. */
  ghost predicate TakesIn(b: Dict<Opts>, d: Dict<Opts>, name: string, a: (string, string)) {
    if ExistsIp(b, a.0) == Some(true) then d == b else AddsHost(b, d, name, a)
  }

  // ---------------------------------------------------------------- Addresses

  /** An address argument without a comma, with one, and with more. */
  lemma AddressOfExactly(ip: string, access: string)
    requires ',' !in ip && ',' !in access
    ensures AddressOf(ip) == Some((ip, ip))
    ensures AddressOf(ip + "," + access) == Some((ip, access))
    ensures forall arg :: AddressOf(arg).None? <==> Count(arg, ',') > 1
  {
    SplitPair(ip, access, ',');
    assert (ip + "," + access)[|ip|] == ',';
    forall arg ensures AddressOf(arg).None? <==> Count(arg, ',') > 1 {
      SplitCount(arg, ',');
      CountNone(arg, ',');
    }
  }

  /** An argument that begins with a digit: it is stored under the next generated name, unless its address is
      taken or it is itself the name of a host, and the number goes up only if it is stored. It fails exactly
      if it cannot be taken apart, or if a host without an address is met before one with this address. */
  lemma AddressHandled(b: Building, arg: string, prefix: string)
    requires arg != "" && IsDigit(arg[0])
    ensures var a, r := AddressOf(arg), Handle(b, arg, prefix);
            && (r.Some? <==> a.Some? && (Has(b.hosts, arg) || ExistsIp(b.hosts, a.value.0).Some?))
            && (r.Some? ==>
                  && r.value.hostname == b.hostname && r.value.address == a
                  && if Has(b.hosts, arg) || ExistsIp(b.hosts, a.value.0) == Some(true)
                     then r.value.hosts == b.hosts && r.value.next == b.next
                     else AddsHost(b.hosts, r.value.hosts, prefix + Numeral(b.next), a.value)
                          && r.value.next == b.next + 1)
  {
    if AddressOf(arg).Some? {
      PutAddsHost(b.hosts, prefix + Numeral(b.next), AddressOf(arg).value);
    }
    hide AddressOf, ExistsIp, Has, Put, NewOpts;
  }

  /** "ip,access_ip" stores a host under the next generated name, unless the address is taken. */
  lemma AddressIsAdded(b: Building, ip: string, access: string, prefix: string)
    requires ip != "" && IsDigit(ip[0]) && ',' !in ip && ',' !in access
    requires !Has(b.hosts, ip + "," + access) && ExistsIp(b.hosts, ip).Some?
    ensures var r := Handle(b, ip + "," + access, prefix);
            && r.Some? && TakesIn(b.hosts, r.value.hosts, prefix + Numeral(b.next), (ip, access))
            && r.value.next == if ExistsIp(b.hosts, ip) == Some(true) then b.next else b.next + 1
  {
    AddressOfExactly(ip, access);
    AddressHandled(b, ip + "," + access, prefix);
    assert (ip + "," + access)[0] == ip[0];
    hide AddressOf, ExistsIp, Handle, AddsHost;
  }

  // ---------------------------------------------------------------- Named hosts

  /** A named argument with two parts, with three, and with another number of parts. */
  lemma NamedOfExactly(name: string, ip: string, access: string)
    requires ',' !in name && ',' !in ip && ',' !in access
    ensures NamedOf(name + "," + ip) == Some((name, (ip, ip)))
    ensures NamedOf(name + "," + (ip + "," + access)) == Some((name, (ip, access)))
    ensures forall arg :: NamedOf(arg).None? <==> !(1 <= Count(arg, ',') <= 2)
  {
    SplitPair(name, ip, ',');
    SplitPair(ip, access, ',');
    SplitAtFirst(name, ip + "," + access, ',');
    assert name + "," + (ip + "," + access) == name + [','] + (ip + "," + access);
    assert Split(name + "," + (ip + "," + access), ',') == [name, ip, access];
    forall arg ensures NamedOf(arg).None? <==> !(1 <= Count(arg, ',') <= 2) {
      SplitCount(arg, ',');
    }
  }

  lemma LetterIsName(b: Building, arg: string, prefix: string)
    requires arg != "" && IsLetter(arg[0])
    ensures Handle(b, arg, prefix) == HandleNamed(b, arg)
  {
    hide HandleNamed, HandleAddress, HandleDelete;
  }

  /** An argument that begins with a letter. With a comma it says which name and address it means; without one
      it means those that earlier arguments have left behind. It is stored under that name, unless the address
      is taken or the whole argument is the name of a host. */
  lemma NamedHandled(b: Building, arg: string, prefix: string)
    requires arg != "" && IsLetter(arg[0])
    ensures var parts := NamedOf(arg);
            var hostname := if ',' !in arg then b.hostname else if parts.Some? then Some(parts.value.0) else None;
            var a := if ',' !in arg then b.address else if parts.Some? then Some(parts.value.1) else None;
            var r := Handle(b, arg, prefix);
            && (r.Some? <==>
                  && (',' in arg ==> parts.Some?)
                  && (Has(b.hosts, arg)
                      || (a.Some? && ExistsIp(b.hosts, a.value.0).Some?
                          && (ExistsIp(b.hosts, a.value.0).value || hostname.Some?))))
            && (r.Some? ==>
                  && r.value.next == b.next && r.value.hostname == hostname && r.value.address == a
                  && if Has(b.hosts, arg) then r.value.hosts == b.hosts
                     else if ExistsIp(b.hosts, a.value.0).value then r.value.hosts == b.hosts
                     else AddsHost(b.hosts, r.value.hosts, hostname.value, a.value))
  {
    LetterIsName(b, arg, prefix);
    var t := TakeApart(b, arg);
    if t.Some? && t.value.hostname.Some? && t.value.address.Some? {
      PutAddsHost(b.hosts, t.value.hostname.value, t.value.address.value);
    }
    hide Handle, NamedOf, ExistsIp, Has, Put, NewOpts;
  }

  /** "hostname,ip,access_ip" stores a host under that name, replacing one that has it, unless the
      address is taken. */
  lemma NamedIsAdded(b: Building, name: string, ip: string, access: string, prefix: string)
    requires name != "" && IsLetter(name[0]) && ',' !in name && ',' !in ip && ',' !in access
    requires !Has(b.hosts, name + "," + (ip + "," + access)) && ExistsIp(b.hosts, ip).Some?
    ensures var r := Handle(b, name + "," + (ip + "," + access), prefix);
            && r.Some? && r.value.next == b.next && TakesIn(b.hosts, r.value.hosts, name, (ip, access))
  {
    var arg := name + "," + (ip + "," + access);
    NamedOfExactly(name, ip, access);
    NamedHandled(b, arg, prefix);
    assert arg[0] == name[0] && arg[|name|] == ',';
    hide NamedOf, ExistsIp, Handle, AddsHost;
  }

  // ---------------------------------------------------------------- Other arguments

  /** An empty argument fails; one that begins neither with a minus sign nor with a digit or letter is passed
      over. */
  lemma OthersHandled(b: Building, arg: string, prefix: string)
    requires arg == "" || (arg[0] != '-' && !IsDigit(arg[0]) && !IsLetter(arg[0]))
    ensures Handle(b, arg, prefix) == if arg == "" then None else Some(b)
  {
  }
}
