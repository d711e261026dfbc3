/** Addresses and deletions leave the other hosts alone; explicit names need not. */
module Survivors {
  import opened Options
  import opened OrderedDict
  import opened Text
  import opened Hostnames
  import opened HostnameLaws

  /** Arguments that are no explicit names. */
  ghost predicate OnlyAddressesAndDeletions(args: seq<string>) {
    forall m | 0 <= m < |args| :: args[m] == "" || !IsLetter(args[m][0])
  }

  ghost predicate AllGenerated(d: Dict<Opts>, prefix: string, low: nat, high: nat) {
    forall i | 0 <= i < |d| :: Generated(d[i].0, prefix, low, high)
  }

  /** `hosts` begins with what is left of `previous`, in order and unchanged; the rest is generated. */
  ghost predicate Keeps(previous: Dict<Opts>, hosts: Dict<Opts>, prefix: string, low: nat, high: nat) {
    var left := Restrict(previous, Keys(hosts));
    left <= hosts && AllGenerated(hosts[|left|..], prefix, low, high)
  }

  lemma DeleteKeeps(previous: Dict<Opts>, hosts: Dict<Opts>, prefix: string, low: nat, high: nat, k: string)
    requires Unique(previous) && Unique(hosts) && Keeps(previous, hosts, prefix, low, high)
    ensures Keeps(previous, Delete(hosts, k), prefix, low, high)
  {
    var left := Restrict(previous, Keys(hosts));
    var rest := hosts[|left|..];
    assert hosts == left + rest;
    DeleteConcat(left, rest, k);
    DeleteAt(hosts, k);
    DeleteRestrict(previous, Keys(hosts), k);
    DeletePart(rest, k);
    if Has(left, k) {
      assert (Delete(left, k) + rest)[|Delete(left, k)|..] == rest;
    } else {
      DeleteMissing(left, k);
      assert (left + Delete(rest, k))[|left|..] == Delete(rest, k);
    }
  }

  lemma AppendKeeps(previous: Dict<Opts>, hosts: Dict<Opts>, prefix: string, low: nat, next: nat, opts: Opts)
    requires Keeps(previous, hosts, prefix, low, next) && low <= next
    requires !Has(hosts, prefix + Numeral(next)) && !Has(previous, prefix + Numeral(next))
    ensures Keeps(previous, Put(hosts, prefix + Numeral(next), opts), prefix, low, next + 1)
  {
    var x := prefix + Numeral(next);
    var left := Restrict(previous, Keys(hosts));
    PutAt(hosts, x, opts);
    var after := hosts + [(x, opts)];
    assert Keys(after) == Keys(hosts) + {x} by {
      assert after[|hosts|].0 == x;
      assert forall i | 0 <= i < |hosts| :: after[i] == hosts[i];
    }
    RestrictIgnores(previous, Keys(hosts), x);
    assert Generated(x, prefix, low, next + 1);
    forall i | 0 <= i < |after[|left|..]| ensures Generated(after[|left|..][i].0, prefix, low, next + 1) {
      if |left| + i < |hosts| {
        assert after[|left|..][i] == hosts[|left|..][i];
      }
    }
  }

  lemma HandleKeeps(previous: Dict<Opts>, b: Building, arg: string, prefix: string, low: nat)
    requires Unique(previous) && Unique(b.hosts) && Keeps(previous, b.hosts, prefix, low, b.next) && low <= b.next
    requires Handle(b, arg, prefix).Some? && !IsLetter(arg[0])
    requires !Has(b.hosts, prefix + Numeral(b.next)) && !Has(previous, prefix + Numeral(b.next))
    ensures var b' := Handle(b, arg, prefix).value; Keeps(previous, b'.hosts, prefix, low, b'.next)
  {
    if arg[0] == '-' {
      var k := if Has(b.hosts, arg[1..]) then arg[1..] else
                 match HostWithIp(b.hosts, arg[1..]) case None => "" case Some(name) => name;
      DeleteKeeps(previous, b.hosts, prefix, low, b.next, k);
    } else if IsDigit(arg[0]) {
      AppendKeeps(previous, b.hosts, prefix, low, b.next, NewOpts(AddressOf(arg).value));
    }
  }

  /** After addresses and deletions only, the table begins with the surviving hosts, in their old
      order and with their old options, and continues with generated names. */
  lemma {:induction false} SurvivorsStay(previous: Dict<Opts>, args: seq<string>, n: nat, prefix: string)
    requires IsSafePrefix(prefix) && Unique(previous) && Start(previous, prefix).Some?
    requires n <= |args| && Handled(Start(previous, prefix).value, args, n, prefix).Some?
    requires OnlyAddressesAndDeletions(args)
    ensures var start := Start(previous, prefix).value;
            var b := Handled(start, args, n, prefix).value;
            Keeps(previous, b.hosts, prefix, start.next, b.next)
  {
    var start := Start(previous, prefix).value;
    if n == 0 {
      RestrictAll(previous, Keys(previous));
    } else {
      SurvivorsStay(previous, args, n - 1, prefix);
      var b := Handled(start, args, n - 1, prefix).value;
      Provenance(start, args, n - 1, prefix, "");
      GeneratedIsNew(previous, args, n - 1, prefix);
      assert !InUse(start, args, n - 1, prefix, prefix + Numeral(b.next));
      UnusedNumber(previous, prefix, b.next);
      HandleKeeps(previous, b, args[n - 1], prefix, start.next);
    }
  }

  // ---------------------------------------------------------------- Names that clash

  /** An explicit name can be overwritten by a generated one: of the hosts `<prefix>1` at address `a`
      and a host at address `b`, only the second is left. */
  lemma ExplicitNameIsOverwritten(prefix: string, a: string, b: string)
    requires prefix != "" && IsLetter(prefix[0]) && ',' !in prefix
    requires ',' !in a && ',' !in b && b != "" && IsDigit(b[0]) && a != b
    ensures Built([], [prefix + "1" + "," + a, b], prefix) == Some([(prefix + "1", NewOpts((b, b)))])
  {
    var name := prefix + "1";
    var args := [name + "," + a, b];
    var start := Building([], 1, None, None);
    var first := Building([(name, NewOpts((a, a)))], 1, Some(name), Some((a, a)));
    NamedIsStored(prefix, a);
    assert Handled(start, args, 1, prefix) == Some(first);
    AddressIsStored(prefix, a, b);
    assert Start([], prefix) == Some(start);
    assert Handled(start, args, 2, prefix) == Handle(first, b, prefix);
  }

  lemma NamedIsStored(prefix: string, a: string)
    requires prefix != "" && IsLetter(prefix[0]) && ',' !in prefix && ',' !in a
    ensures Handle(Building([], 1, None, None), prefix + "1" + "," + a, prefix)
         == Some(Building([(prefix + "1", NewOpts((a, a)))], 1, Some(prefix + "1"), Some((a, a))))
  {
    var name, arg := prefix + "1", prefix + "1" + "," + a;
    SplitPair(name, a, ',');
    assert arg[0] == prefix[0] && arg[|name|] == ',';
    assert NamedOf(arg) == Some((name, (a, a)));
  }

  lemma AddressIsStored(prefix: string, a: string, b: string)
    requires prefix != "" && IsLetter(prefix[0]) && ',' !in b && b != "" && IsDigit(b[0]) && a != b
    ensures Handle(Building([(prefix + "1", NewOpts((a, a)))], 1, Some(prefix + "1"), Some((a, a))), b, prefix)
         == Some(Building([(prefix + "1", NewOpts((b, b)))], 2, Some(prefix + "1"), Some((b, b))))
  {
    var name := prefix + "1";
    var hosts := [(name, NewOpts((a, a)))];
    IpOfNew((a, a));
    assert Numeral(1) == "1";
    assert !Has(hosts, b) by {
      assert b[0] != name[0];
    }
    assert hosts[1..] == [];
    assert ExistsIp(hosts, b) == Some(false);
    assert Put(hosts, name, NewOpts((b, b))) == [(name, NewOpts((b, b)))];
  }

  /** With any prefix that is not safe, a new address can overwrite a generated host. */
  lemma UnsafePrefixOverwrites(prefix: string, opts: Opts, c: string) returns (k: nat)
    requires !IsSafePrefix(prefix) && c != "" && IsDigit(c[0]) && ',' !in c && !(prefix <= c)
    requires IpOf(opts).Some? && IpOf(opts) != Some(c)
    ensures Built([(prefix + Numeral(k), opts)], [c], prefix) == Some([(prefix + Numeral(k), NewOpts((c, c)))])
  {
    k := UnsafePrefixClashes(prefix, opts);
    var name := prefix + Numeral(k);
    var hosts := [(name, opts)];
    var start := Building(hosts, k, None, None);
    assert !Has(hosts, c) by {
      assert hosts[0].0 == name && prefix <= name;
    }
    assert hosts[1..] == [];
    assert ExistsIp(hosts, c) == Some(false);
    assert Put(hosts, name, NewOpts((c, c))) == [(name, NewOpts((c, c)))];
    assert Handled(start, [c], 0, prefix) == Some(start);
    assert Handled(start, [c], 1, prefix) == Handle(start, c, prefix);
  }
}
