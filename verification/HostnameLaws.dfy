/** What building the host table keeps, and when generated names are new. */
module HostnameLaws {
  import opened Options
  import opened OrderedDict
  import opened Text
  import opened Hostnames

  // ---------------------------------------------------------------- Addresses stay distinct

  function IpAt(d: Dict<Opts>, name: string): Option<string> {
    match Find(d, name) case None => None case Some(opts) => IpOf(opts)
  }

  /** No two hosts have the same address. */
  ghost predicate IpsDistinct(d: Dict<Opts>) {
    forall x, y | x != y && IpAt(d, x).Some? :: IpAt(d, x) != IpAt(d, y)
  }

  lemma {:induction false} NotFound(d: Dict<Opts>, ip: string, name: string)
    requires ExistsIp(d, ip) == Some(false)
    ensures IpAt(d, name) != Some(ip)
  {
    if d != [] {
      NotFound(d[1..], ip, name);
    }
  }

  lemma {:induction false} FoundAt(d: Dict<Opts>, ip: string)
    requires ExistsIp(d, ip) == Some(true) && Unique(d)
    ensures HostWithIp(d, ip).Some? && Has(d, HostWithIp(d, ip).value)
    ensures IpAt(d, HostWithIp(d, ip).value) == Some(ip)
  {
    if IpOf(d[0].1) != Some(ip) {
      FoundAt(d[1..], ip);
      HasTail(d, HostWithIp(d, ip).value);
      var i :| 0 <= i < |d[1..]| && d[1..][i].0 == HostWithIp(d, ip).value;
      assert d[i + 1].0 != d[0].0;
    }
  }

  /** Host `i` is the first with the address, and no host before it lacks one. */
  predicate FirstWithIp(d: Dict<Opts>, ip: string, i: nat) {
    && i < |d| && IpOf(d[i].1) == Some(ip)
    && forall j | 0 <= j < i :: IpOf(d[j].1).Some? && IpOf(d[j].1) != Some(ip)
  }

  /** The search finds the first host with the address; it misses it only if all hosts have other ones. */
  lemma {:induction false} ExistsIpExactly(d: Dict<Opts>, ip: string)
    ensures ExistsIp(d, ip) == Some(true) <==> exists i: nat :: FirstWithIp(d, ip, i)
    ensures ExistsIp(d, ip) == Some(false) <==>
              forall i | 0 <= i < |d| :: IpOf(d[i].1).Some? && IpOf(d[i].1) != Some(ip)
    ensures forall i: nat | FirstWithIp(d, ip, i) :: HostWithIp(d, ip) == Some(d[i].0)
  {
    if d != [] {
      ExistsIpExactly(d[1..], ip);
      if IpOf(d[0].1) == Some(ip) {
        assert FirstWithIp(d, ip, 0);
      } else if IpOf(d[0].1).Some? {
        forall i: nat ensures FirstWithIp(d, ip, i + 1) <==> FirstWithIp(d[1..], ip, i) {
          assert i + 1 < |d| ==> d[1..][i] == d[i + 1];
          assert forall j | 0 <= j < i && j + 1 < |d| :: d[1..][j] == d[j + 1];
          assert FirstWithIp(d, ip, i + 1) ==> forall j | 0 <= j < i :: d[j + 1] == d[1..][j];
        }
        assert !FirstWithIp(d, ip, 0);
        forall i: nat | FirstWithIp(d, ip, i) ensures i > 0 && FirstWithIp(d[1..], ip, i - 1) {
          assert FirstWithIp(d, ip, i - 1 + 1);
        }
      }
    }
  }

  lemma IpOfNew(a: (string, string))
    ensures IpOf(NewOpts(a)) == Some(a.0)
  {
    var opts := NewOpts(a);
    assert |opts[0].0| == 12;
    assert opts[1..][0] == ("ip", a.0);
    assert Find(opts, "ip") == Find(opts[1..], "ip");
  }

  lemma PutKeepsDistinct(d: Dict<Opts>, k: string, a: (string, string))
    requires IpsDistinct(d) && ExistsIp(d, a.0) == Some(false)
    ensures IpsDistinct(Put(d, k, NewOpts(a)))
  {
    IpOfNew(a);
    forall x ensures IpAt(Put(d, k, NewOpts(a)), x) == if x == k then Some(a.0) else IpAt(d, x) {
      FindPut(d, k, NewOpts(a), x);
    }
    forall x ensures IpAt(d, x) != Some(a.0) {
      NotFound(d, a.0, x);
    }
  }

  lemma DeleteKeepsDistinct(d: Dict<Opts>, k: string)
    requires IpsDistinct(d) && Unique(d)
    ensures IpsDistinct(Delete(d, k)) && Unique(Delete(d, k))
  {
    DeleteAt(d, k);
    forall x ensures IpAt(Delete(d, k), x) == if x == k then None else IpAt(d, x) {
      assert x != k ==> Find(Delete(d, k), x) == Find(d, x);
    }
  }

  ghost predicate Tidy(d: Dict<Opts>) {
    Unique(d) && IpsDistinct(d)
  }

  lemma HandleKeepsTidy(b: Building, arg: string, prefix: string)
    requires Tidy(b.hosts) && Handle(b, arg, prefix).Some?
    ensures Tidy(Handle(b, arg, prefix).value.hosts)
  {
    var b' := Handle(b, arg, prefix).value;
    if b'.hosts != b.hosts {
      if arg[0] == '-' {
        var k := if Has(b.hosts, arg[1..]) then arg[1..] else HostWithIp(b.hosts, arg[1..]).value;
        DeleteKeepsDistinct(b.hosts, k);
      } else if IsDigit(arg[0]) {
        var a := AddressOf(arg).value;
        PutAt(b.hosts, prefix + Numeral(b.next), NewOpts(a));
        PutKeepsDistinct(b.hosts, prefix + Numeral(b.next), a);
      } else {
        var t := TakeApart(b, arg).value;
        PutAt(b.hosts, t.hostname.value, NewOpts(t.address.value));
        PutKeepsDistinct(b.hosts, t.hostname.value, t.address.value);
      }
    }
  }

  /** Whatever the arguments: if the addresses were pairwise distinct, they stay so. */
  lemma {:induction false} IpsStayDistinct(start: Building, args: seq<string>, n: nat, prefix: string)
    requires n <= |args| && Handled(start, args, n, prefix).Some? && Tidy(start.hosts)
    ensures Tidy(Handled(start, args, n, prefix).value.hosts)
  {
    if n > 0 {
      IpsStayDistinct(start, args, n - 1, prefix);
      HandleKeepsTidy(Handled(start, args, n - 1, prefix).value, args[n - 1], prefix);
    }
  }

  /** The host of that name or, if there is none, a host of that address. */
  predicate IsTarget(hosts: Dict<Opts>, target: string, x: string) {
    if Has(hosts, target) then x == target else IpAt(hosts, x) == Some(target)
  }

  /** "-x" fails exactly if there is no host called x and a host without an address is met before one with
      the address x. It changes the table and nothing else. */
  lemma DeletionSucceeds(b: Building, target: string, prefix: string)
    requires Unique(b.hosts)
    ensures Handle(b, "-" + target, prefix).Some? <==> Has(b.hosts, target) || ExistsIp(b.hosts, target).Some?
    ensures Handle(b, "-" + target, prefix).Some? ==>
              Handle(b, "-" + target, prefix).value == b.(hosts := Handle(b, "-" + target, prefix).value.hosts)
  {
    var arg := "-" + target;
    assert arg[1..] == target;
    if ExistsIp(b.hosts, target) == Some(true) {
      FoundAt(b.hosts, target);
    }
  }

  /** "-x" takes away the host called x or, if there is none, every host with the address x; it
      changes no other host. */
  lemma DeletedIsGone(b: Building, target: string, prefix: string)
    requires Tidy(b.hosts) && (Has(b.hosts, target) || ExistsIp(b.hosts, target).Some?)
    ensures Handle(b, "-" + target, prefix).Some?
    ensures var d := Handle(b, "-" + target, prefix).value.hosts;
            forall x :: Find(d, x) == if IsTarget(b.hosts, target, x) then None else Find(b.hosts, x)
  {
    DeletionSucceeds(b, target, prefix);
    var arg := "-" + target;
    assert arg[1..] == target;
    if Has(b.hosts, target) {
      DeleteAt(b.hosts, target);
    } else if ExistsIp(b.hosts, target) == Some(true) {
      FoundAt(b.hosts, target);
      DeleteAt(b.hosts, HostWithIp(b.hosts, target).value);
    } else {
      forall x ensures IpAt(b.hosts, x) != Some(target) {
        NotFound(b.hosts, target, x);
      }
    }
  }

  // ---------------------------------------------------------------- Numbers in names

  lemma {:induction false} TrailingConcat(a: string, b: string)
    requires AllDigits(b)
    ensures TrailingDigits(a + b) == TrailingDigits(a) + b
  {
    if b == "" {
      assert a + b == a && TrailingDigits(a) + b == TrailingDigits(a);
    } else {
      var n := |b| - 1;
      TrailingConcat(a, b[..n]);
      assert (a + b)[..|a + b| - 1] == a + b[..n] && b == b[..n] + [b[n]];
      assert TrailingDigits(a) + b[..n] + [b[n]] == TrailingDigits(a) + b;
    }
  }

  /** `s` does not end in a digit. */
  predicate EndsPlain(s: string) {
    s == "" || !IsDigit(s[|s| - 1])
  }

  lemma ShortName(short: string, domain: string)
    requires '.' !in short && (domain == "" || domain[0] == '.')
    ensures Split(short + domain, '.')[0] == short
  {
    hide SplitOnce;
    if domain == "" {
      assert short + domain == short;
    } else {
      assert short + domain == short + ['.'] + domain[1..];
      SplitAtFirst(short, domain[1..], '.');
    }
  }

  /** The number of a host is what the last digits before its first dot denote; without any it has none. */
  lemma HostIdExactly(stem: string, digits: string, domain: string)
    requires '.' !in stem && EndsPlain(stem) && AllDigits(digits) && (domain == "" || domain[0] == '.')
    ensures HostId(stem + digits + domain) == if digits == "" then None else Some(NumberOf(digits))
  {
    ShortName(stem + digits, domain);
    TrailingConcat(stem, digits);
    assert "" + digits == digits;
  }

  /** The number of a generated name is the one it was generated from; only digits at the end of the prefix
      make it larger. */
  lemma IdOfGenerated(prefix: string, k: nat)
    requires '.' !in prefix
    ensures HostId(prefix + Numeral(k)) == Some(NumberOf(TrailingDigits(prefix) + Numeral(k)))
    ensures k <= HostId(prefix + Numeral(k)).value
    ensures EndsPlain(prefix) ==> HostId(prefix + Numeral(k)) == Some(k)
  {
    var name := prefix + Numeral(k);
    assert '.' !in name;
    assert Split(name, '.')[0] == name;
    TrailingConcat(prefix, Numeral(k));
    LongerIsLarger(TrailingDigits(prefix), Numeral(k));
    NumeralDenotes(k);
    assert "" + Numeral(k) == Numeral(k);
  }

  lemma {:induction false} HighestIsHighest(hosts: Dict<Opts>, n: nat, i: nat, prefix: string)
    requires i < n <= |hosts| && prefix <= hosts[i].0 && Highest(hosts, n, prefix).Some?
    ensures HostId(hosts[i].0).Some? && HostId(hosts[i].0).value <= Highest(hosts, n, prefix).value
  {
    if i < n - 1 {
      HighestIsHighest(hosts, n - 1, i, prefix);
    }
  }

  /** The highest number is zero, or that of a host with the prefix. */
  lemma {:induction false} HighestIsAttained(hosts: Dict<Opts>, n: nat, prefix: string)
    requires n <= |hosts| && Highest(hosts, n, prefix).Some?
    ensures Highest(hosts, n, prefix).value == 0
         || exists i | 0 <= i < n :: HasNumber(hosts[i].0, prefix, Highest(hosts, n, prefix).value)
  {
    if n > 0 {
      HighestIsAttained(hosts, n - 1, prefix);
      assert prefix <= hosts[n - 1].0 ==> HasNumber(hosts[n - 1].0, prefix, HostId(hosts[n - 1].0).value);
    }
  }

  predicate HasNumber(name: string, prefix: string, k: nat) {
    prefix <= name && HostId(name) == Some(k)
  }

  /** Loading fails exactly if some host has the prefix and no number. */
  lemma {:induction false} HighestFailsExactly(hosts: Dict<Opts>, n: nat, prefix: string)
    requires n <= |hosts|
    ensures Highest(hosts, n, prefix).None? <==>
              exists i | 0 <= i < n :: prefix <= hosts[i].0 && HostId(hosts[i].0).None?
  {
    if n > 0 {
      HighestFailsExactly(hosts, n - 1, prefix);
    }
  }

  /** The first number to be used is one more than the highest. */
  lemma StartsAbove(hosts: Dict<Opts>, prefix: string)
    requires Start(hosts, prefix).Some?
    ensures var start := Start(hosts, prefix).value;
            && start.hosts == hosts && start.next > 0
            && (forall i | 0 <= i < |hosts| && prefix <= hosts[i].0 ::
                  HostId(hosts[i].0).Some? && HostId(hosts[i].0).value < start.next)
            && (start.next == 1 || exists i | 0 <= i < |hosts| :: HasNumber(hosts[i].0, prefix, start.next - 1))
  {
    HighestIsAttained(hosts, |hosts|, prefix);
    forall i | 0 <= i < |hosts| && prefix <= hosts[i].0
      ensures HostId(hosts[i].0).Some? && HostId(hosts[i].0).value < Start(hosts, prefix).value.next
    {
      HighestIsHighest(hosts, |hosts|, i, prefix);
    }
  }

  /** The number of a host is looked for before the first dot. The prefix is safe if it has no dot, or
      if what comes before its first dot does not end in a digit. */
  predicate IsSafePrefix(prefix: string) {
    '.' !in prefix || TrailingDigits(Split(prefix, '.')[0]) == ""
  }

  /** With a dot in the prefix all names that start with it have the same number, or none. */
  lemma IdUnderDot(prefix: string, name: string)
    requires '.' in prefix && prefix <= name
    ensures Split(name, '.')[0] == Split(prefix, '.')[0] && HostId(name) == HostId(prefix)
  {
    var (a, b) := SplitOnce(prefix, '.').value;
    var tail := name[|prefix|..];
    SplitAtFirst(a, b + tail, '.');
    assert name == a + ['.'] + (b + tail);
  }

  /** No earlier host has the name that number `k` would generate. */
  lemma UnusedNumber(previous: Dict<Opts>, prefix: string, k: nat)
    requires IsSafePrefix(prefix) && Highest(previous, |previous|, prefix).Some?
    requires k > Highest(previous, |previous|, prefix).value
    ensures !Has(previous, prefix + Numeral(k))
  {
    var x := prefix + Numeral(k);
    if Has(previous, x) {
      var i :| 0 <= i < |previous| && previous[i].0 == x;
      HighestIsHighest(previous, |previous|, i, prefix);
      if '.' in prefix {
        IdUnderDot(prefix, x);
      } else {
        IdOfGenerated(prefix, k);
      }
    }
  }

  /** A table with one host, whose name will be generated next. */
  lemma UnsafePrefixClashes(prefix: string, opts: Opts) returns (k: nat)
    requires !IsSafePrefix(prefix)
    ensures Start([(prefix + Numeral(k), opts)], prefix) == Some(Building([(prefix + Numeral(k), opts)], k, None, None))
  {
    k := HostId(prefix).value + 1;
    var hosts := [(prefix + Numeral(k), opts)];
    IdUnderDot(prefix, prefix + Numeral(k));
    assert Highest(hosts, 0, prefix) == Some(0);
    assert Highest(hosts, 1, prefix) == Some(HostId(prefix).value);
  }

  ghost predicate NextIsFree(previous: Dict<Opts>, prefix: string) {
    Start(previous, prefix).Some? ==> !Has(previous, prefix + Numeral(Start(previous, prefix).value.next))
  }

  /** The next generated name is free, whatever hosts there are, if and only if the prefix is safe. */
  lemma NextIsFreeExactly(prefix: string)
    ensures (forall previous | Unique(previous) :: NextIsFree(previous, prefix)) <==> IsSafePrefix(prefix)
  {
    if IsSafePrefix(prefix) {
      forall previous | Unique(previous) ensures NextIsFree(previous, prefix) {
        if Start(previous, prefix).Some? {
          UnusedNumber(previous, prefix, Start(previous, prefix).value.next);
        }
      }
    } else {
      var k := UnsafePrefixClashes(prefix, []);
      var hosts: Dict<Opts> := [(prefix + Numeral(k), [])];
      assert Unique(hosts) && hosts[0].0 == prefix + Numeral(k);
      assert !NextIsFree(hosts, prefix);
    }
  }

  /** A safe prefix with a dot is of use once: as soon as a host has it, no inventory can be loaded. */
  lemma DottedPrefixStops(previous: Dict<Opts>, prefix: string)
    requires '.' in prefix && IsSafePrefix(prefix)
    ensures Start(previous, prefix).Some? <==> forall i | 0 <= i < |previous| :: !(prefix <= previous[i].0)
  {
    DottedHighest(previous, |previous|, prefix);
  }

  lemma {:induction false} DottedHighest(previous: Dict<Opts>, n: nat, prefix: string)
    requires '.' in prefix && IsSafePrefix(prefix) && n <= |previous|
    ensures Highest(previous, n, prefix).Some? <==> forall i | 0 <= i < n :: !(prefix <= previous[i].0)
  {
    if n > 0 {
      DottedHighest(previous, n - 1, prefix);
      if prefix <= previous[n - 1].0 {
        IdUnderDot(prefix, previous[n - 1].0);
      }
    }
  }

  // ---------------------------------------------------------------- Where names come from

  /** The name under which a named argument stores a host, if it stores one. */
  function NameWritten(b: Building, arg: string): Option<string> {
    if arg != "" && IsLetter(arg[0]) && !Has(b.hosts, arg) && TakeApart(b, arg).Some? then
      var t := TakeApart(b, arg).value;
      if t.address.Some? && ExistsIp(b.hosts, t.address.value.0) == Some(false) then t.hostname else None
    else None
  }

  /** Argument `m` stores a host under the explicit name `x`. */
  ghost predicate WritesName(start: Building, args: seq<string>, m: nat, prefix: string, x: string) {
    m < |args| && Handled(start, args, m, prefix).Some?
    && NameWritten(Handled(start, args, m, prefix).value, args[m]) == Some(x)
  }

  ghost predicate WrittenBefore(start: Building, args: seq<string>, n: nat, prefix: string, x: string) {
    exists m: nat | m < n :: WritesName(start, args, m, prefix, x)
  }

  ghost predicate Generated(x: string, prefix: string, low: nat, high: nat) {
    exists k: nat | low <= k < high :: x == prefix + Numeral(k)
  }

  lemma HandleNames(b: Building, arg: string, prefix: string, x: string)
    requires Handle(b, arg, prefix).Some? && Unique(b.hosts)
    ensures var b' := Handle(b, arg, prefix).value;
            && b.next <= b'.next && Unique(b'.hosts)
            && (Has(b'.hosts, x) ==> Has(b.hosts, x) || NameWritten(b, arg) == Some(x)
                                     || (b'.next == b.next + 1 && x == prefix + Numeral(b.next)))
            && (NameWritten(b, arg) == Some(x) ==> Has(b'.hosts, x))
  {
    var b' := Handle(b, arg, prefix).value;
    if arg[0] == '-' {
      var k := if Has(b.hosts, arg[1..]) then arg[1..] else
                 match HostWithIp(b.hosts, arg[1..]) case None => "" case Some(name) => name;
      DeleteAt(b.hosts, k);
      assert Find(Delete(b.hosts, k), x).Some? ==> x != k && Find(b.hosts, x).Some?;
    } else if IsDigit(arg[0]) {
      var a := AddressOf(arg).value;
      PutAt(b.hosts, prefix + Numeral(b.next), NewOpts(a));
      HasPut(b.hosts, prefix + Numeral(b.next), NewOpts(a), x);
    } else if IsLetter(arg[0]) {
      var t := TakeApart(b, arg).value;
      if t.hostname.Some? && t.address.Some? {
        PutAt(b.hosts, t.hostname.value, NewOpts(t.address.value));
        HasPut(b.hosts, t.hostname.value, NewOpts(t.address.value), x);
      }
    }
  }

  /** A host comes from the earlier table, from an explicit name, or from a number. */
  lemma {:induction false} Provenance(start: Building, args: seq<string>, n: nat, prefix: string, x: string)
    requires n <= |args| && Handled(start, args, n, prefix).Some? && Unique(start.hosts)
    ensures var b := Handled(start, args, n, prefix).value;
            && start.next <= b.next && Unique(b.hosts)
            && (Has(b.hosts, x) ==> Has(start.hosts, x) || WrittenBefore(start, args, n, prefix, x)
                                    || Generated(x, prefix, start.next, b.next))
  {
    if n > 0 {
      Provenance(start, args, n - 1, prefix, x);
      var b, b' := Handled(start, args, n - 1, prefix).value, Handled(start, args, n, prefix).value;
      HandleNames(b, args[n - 1], prefix, x);
      assert NameWritten(b, args[n - 1]) == Some(x) ==> WritesName(start, args, n - 1, prefix, x);
    }
  }

  ghost predicate InUse(start: Building, args: seq<string>, m: nat, prefix: string, x: string) {
    m <= |args| && Handled(start, args, m, prefix).Some? && Has(Handled(start, args, m, prefix).value.hosts, x)
  }

  lemma {:induction false} PrefixSucceeds(start: Building, args: seq<string>, m: nat, n: nat, prefix: string)
    requires m <= n <= |args| && Handled(start, args, n, prefix).Some? && Unique(start.hosts)
    ensures Handled(start, args, m, prefix).Some?
    ensures Handled(start, args, m, prefix).value.next <= Handled(start, args, n, prefix).value.next
  {
    if m < n {
      PrefixSucceeds(start, args, m, n - 1, prefix);
      Provenance(start, args, n - 1, prefix, "");
      HandleNames(Handled(start, args, n - 1, prefix).value, args[n - 1], prefix, "");
    }
  }

  lemma NumberNotYetUsed(start: Building, args: seq<string>, m: nat, n: nat, prefix: string)
    requires m <= n <= |args| && Handled(start, args, n, prefix).Some? && Unique(start.hosts)
    ensures Handled(start, args, m, prefix).Some?
    ensures var x := prefix + Numeral(Handled(start, args, n, prefix).value.next);
            !Generated(x, prefix, start.next, Handled(start, args, m, prefix).value.next)
  {
    PrefixSucceeds(start, args, m, n, prefix);
    var k := Handled(start, args, n, prefix).value.next;
    forall j: nat | start.next <= j < Handled(start, args, m, prefix).value.next
      ensures prefix + Numeral(k) != prefix + Numeral(j)
    {
      assert (prefix + Numeral(k))[|prefix|..] == Numeral(k) && (prefix + Numeral(j))[|prefix|..] == Numeral(j);
      if Numeral(j) == Numeral(k) {
        NumeralInjective(j, k);
      }
    }
  }

  /** The next name to be generated was in use at some earlier point of the call (even if deleted
      since) exactly when an earlier argument stored a host under that very name explicitly. */
  lemma GeneratedIsNewExactly(previous: Dict<Opts>, args: seq<string>, n: nat, prefix: string)
    requires IsSafePrefix(prefix) && Unique(previous) && Start(previous, prefix).Some?
    requires n <= |args| && Handled(Start(previous, prefix).value, args, n, prefix).Some?
    ensures var start := Start(previous, prefix).value;
            var x := prefix + Numeral(Handled(start, args, n, prefix).value.next);
            (exists m: nat | m <= n :: InUse(start, args, m, prefix, x)) <==> WrittenBefore(start, args, n, prefix, x)
  {
    var start := Start(previous, prefix).value;
    var k := Handled(start, args, n, prefix).value.next;
    var x := prefix + Numeral(k);
    forall m: nat | m <= n && InUse(start, args, m, prefix, x) ensures WrittenBefore(start, args, n, prefix, x) {
      Provenance(start, args, m, prefix, x);
      Provenance(start, args, n, prefix, x);
      NumberNotYetUsed(start, args, m, n, prefix);
      UnusedNumber(previous, prefix, k);
      var w: nat :| w < m && WritesName(start, args, w, prefix, x);
    }
    if WrittenBefore(start, args, n, prefix, x) {
      var m: nat :| m < n && WritesName(start, args, m, prefix, x);
      PrefixSucceeds(start, args, m, n, prefix);
      PrefixSucceeds(start, args, m + 1, n, prefix);
      Provenance(start, args, m, prefix, x);
      HandleNames(Handled(start, args, m, prefix).value, args[m], prefix, x);
      assert InUse(start, args, m + 1, prefix, x);
    }
  }

  /** The host name that an argument spells out. */
  function ExplicitName(arg: string): Option<string> {
    if arg != "" && IsLetter(arg[0]) && ',' in arg && NamedOf(arg).Some? then Some(NamedOf(arg).value.0) else None
  }

  /** One of the first `n` arguments spells out the name. */
  ghost predicate SpelledOut(args: seq<string>, n: nat, name: string) {
    exists m | 0 <= m < n && m < |args| :: ExplicitName(args[m]) == Some(name)
  }

  lemma {:induction false} HostnameIsSpelledOut(start: Building, args: seq<string>, n: nat, prefix: string)
    requires n <= |args| && Handled(start, args, n, prefix).Some? && start.hostname.None?
    ensures var h := Handled(start, args, n, prefix).value.hostname; h.Some? ==> SpelledOut(args, n, h.value)
  {
    if n > 0 {
      HostnameIsSpelledOut(start, args, n - 1, prefix);
      var h := Handled(start, args, n, prefix).value.hostname;
      assert ExplicitName(args[n - 1]).Some? || h == Handled(start, args, n - 1, prefix).value.hostname;
      assert ExplicitName(args[n - 1]) == h && h.Some? ==> SpelledOut(args, n, h.value);
    }
  }

  lemma WrittenIsSpelledOut(start: Building, args: seq<string>, m: nat, prefix: string, x: string)
    requires WritesName(start, args, m, prefix, x) && start.hostname.None?
    ensures SpelledOut(args, |args|, x)
  {
    HostnameIsSpelledOut(start, args, m, prefix);
    assert ExplicitName(args[m]) == Some(x) ==> SpelledOut(args, |args|, x);
  }

  ghost predicate NoExplicitPrefix(args: seq<string>, prefix: string) {
    forall m | 0 <= m < |args| :: ExplicitName(args[m]).Some? ==> !(prefix <= ExplicitName(args[m]).value)
  }

  /** When no explicit name starts with the prefix, the next generated name is new: no host has it,
      and no host deleted by an earlier argument had it. */
  lemma GeneratedIsNew(previous: Dict<Opts>, args: seq<string>, n: nat, prefix: string)
    requires IsSafePrefix(prefix) && Unique(previous) && Start(previous, prefix).Some?
    requires n <= |args| && Handled(Start(previous, prefix).value, args, n, prefix).Some?
    requires NoExplicitPrefix(args, prefix)
    ensures var start := Start(previous, prefix).value;
            var x := prefix + Numeral(Handled(start, args, n, prefix).value.next);
            forall m: nat | m <= n :: !InUse(start, args, m, prefix, x)
  {
    var start := Start(previous, prefix).value;
    var x := prefix + Numeral(Handled(start, args, n, prefix).value.next);
    GeneratedIsNewExactly(previous, args, n, prefix);
    forall m: nat | m < n ensures !WritesName(start, args, m, prefix, x) {
      if WritesName(start, args, m, prefix, x) {
        WrittenIsSpelledOut(start, args, m, prefix, x);
      }
    }
  }
}
