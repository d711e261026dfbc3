/** Any sequence of runs of the inventory builder on one file. */
module InventoryRuns {
  import opened Options
  import opened OrderedDict
  import opened Text
  import opened Hostnames
  import opened HostnameLaws
  import opened Inventory
  import opened InventoryLaws

  /** One invocation: whether it says "add", and its other arguments. */
  datatype Command = Command(add: bool, args: seq<string>)

  /** The file after the first `n` invocations; a failed one leaves it alone. */
  function FileAfter(file: Config, commands: seq<Command>, n: nat, env: Env): Config
    requires n <= |commands|
  {
    if n == 0 then file
    else
      var before := FileAfter(file, commands, n - 1, env);
      match Updated(before, commands[n - 1].add, commands[n - 1].args, env)
      case None => before
      case Some(written) => written
  }

  function Previous(file: Config, add: bool, args: seq<string>): Config
    requires args != [] && args[0] != ""
  {
    var c := if add || args[0][0] == '-' then file else Config([], map[]);
    Config(c.hosts, WithGroups(c.groups, PROTECTED - {"all"}))
  }

  lemma WithGroupsIsIntegral(c: Config, names: set<string>)
    requires Integral(c)
    ensures Integral(Config(c.hosts, WithGroups(c.groups, names)))
  {
    var groups := WithGroups(c.groups, names);
    forall g ensures Members(groups, g) == Members(c.groups, g) {
    }
    forall h | h in Keys(c.hosts) ensures IsCovered(groups, h) {
      assert IsCovered(c.groups, h);
    }
  }

  /** The groups of the file that an invocation writes: the required ones and those of the file it started from,
      which lose what was neither built nor protected. */
  lemma WrittenGroups(file: Config, add: bool, args: seq<string>, env: Env, g: string)
    requires Updated(file, add, args, env).Some?
    ensures var from := if add || args[0][0] == '-' then file else Config([], map[]);
            var built, groups := Built(from.hosts, args, env.prefix), Updated(file, add, args, env).value.groups;
            && groups.Keys == from.groups.Keys + {"kube_control_plane", "kube_node", "etcd", "k8s_cluster", "calico_rr"}
            && groups["k8s_cluster"] == Subgroups({"kube_control_plane", "kube_node"})
            && built.Some?
            && (g !in PROTECTED && ListsHosts(from.groups, g) ==>
                  groups[g] == Hosts(from.groups[g].members * (Keys(built.value) + PROTECTED)))
  {
    var previous := Previous(file, add, args);
    var built := Built(previous.hosts, args, env.prefix).value;
    KeptGroups(previous, built, env);
    hide Keys, Built, Assign, Restrict;
  }

  lemma KeptGroups(c: Config, built: Dict<Opts>, env: Env)
    requires PROTECTED - {"all"} <= c.groups.Keys
    ensures var groups := Regrouped(c, built, env).groups;
            && groups.Keys == c.groups.Keys && groups["k8s_cluster"] == CLUSTER
            && forall g | g in c.groups && g !in PROTECTED ::
                 groups[g] == PurgedGroup(g, c.groups[g], Keys(built) + PROTECTED)
  {
    hide Keys, Assign, Restrict, Elements, Workers;
  }

  lemma UpdateStaysIntegral(file: Config, add: bool, args: seq<string>, env: Env)
    requires Integral(file) && Updated(file, add, args, env).Some?
    ensures Integral(Updated(file, add, args, env).value)
  {
    var previous := Previous(file, add, args);
    assert Integral(Config([], map[]));
    WithGroupsIsIntegral(if add || args[0][0] == '-' then file else Config([], map[]), PROTECTED - {"all"});
    AfterIsIntegral(previous, Built(previous.hosts, args, env.prefix).value, env);
  }

  /** After any sequence of invocations, groups hold only hosts of the inventory and every host is a
      worker, an etcd member or a control plane host. */
  lemma {:induction false} RunsStayIntegral(file: Config, commands: seq<Command>, n: nat, env: Env)
    requires Integral(file) && n <= |commands|
    ensures Integral(FileAfter(file, commands, n, env))
  {
    hide Updated, Integral;
    if n > 0 {
      RunsStayIntegral(file, commands, n - 1, env);
      var before, c := FileAfter(file, commands, n - 1, env), commands[n - 1];
      if Updated(before, c.add, c.args, env).Some? {
        UpdateStaysIntegral(before, c.add, c.args, env);
      }
    }
  }

  // ---------------------------------------------------------------- Without protected names

  /** Distinct names, distinct addresses, and no host called like a group. */
  ghost predicate Clean(hosts: Dict<Opts>) {
    Tidy(hosts) && forall h | h in PROTECTED :: !Has(hosts, h)
  }

  ghost predicate SpellsNoProtected(args: seq<string>) {
    forall m | 0 <= m < |args| :: ExplicitName(args[m]).Some? ==> ExplicitName(args[m]).value !in PROTECTED
  }

  lemma ProtectedEndsInLetter(x: string)
    requires x in PROTECTED
    ensures x != "" && !IsDigit(x[|x| - 1])
  {
  }

  lemma GeneratedIsNotProtected(x: string, prefix: string, low: nat, high: nat)
    requires Generated(x, prefix, low, high)
    ensures x !in PROTECTED
  {
    var k: nat :| low <= k < high && x == prefix + Numeral(k);
    assert x[|x| - 1] == Numeral(k)[|Numeral(k)| - 1];
    if x in PROTECTED {
      ProtectedEndsInLetter(x);
    }
  }

  lemma BuiltIsClean(previous: Dict<Opts>, args: seq<string>, prefix: string)
    requires Clean(previous) && SpellsNoProtected(args) && Built(previous, args, prefix).Some?
    ensures Clean(Built(previous, args, prefix).value)
  {
    var start, built := Start(previous, prefix).value, Built(previous, args, prefix).value;
    IpsStayDistinct(start, args, |args|, prefix);
    forall h | h in PROTECTED ensures !Has(built, h) {
      Provenance(start, args, |args|, prefix, h);
      if Generated(h, prefix, start.next, Handled(start, args, |args|, prefix).value.next) {
        GeneratedIsNotProtected(h, prefix, start.next, Handled(start, args, |args|, prefix).value.next);
      }
      if WrittenBefore(start, args, |args|, prefix, h) {
        var m: nat :| m < |args| && WritesName(start, args, m, prefix, h);
        WrittenIsSpelledOut(start, args, m, prefix, h);
      }
    }
  }

  /** An invocation that writes the file writes exactly the hosts it has built, when no host is called
      like a group. */
  lemma UpdateWritesWhatIsBuilt(file: Config, add: bool, args: seq<string>, env: Env, h: string)
    requires Clean(file.hosts) && SpellsNoProtected(args) && Updated(file, add, args, env).Some?
    ensures var built := Built(Previous(file, add, args).hosts, args, env.prefix);
            built.Some? && Clean(built.value)
            && Find(Updated(file, add, args, env).value.hosts, h) == Find(built.value, h)
  {
    var previous := Previous(file, add, args);
    assert Clean([]);
    BuiltIsClean(previous.hosts, args, env.prefix);
    var built := Built(previous.hosts, args, env.prefix).value;
    OptionsAfter(previous, built, env, h);
  }

  lemma UpdateStaysClean(file: Config, add: bool, args: seq<string>, env: Env)
    requires Clean(file.hosts) && SpellsNoProtected(args) && Updated(file, add, args, env).Some?
    ensures Clean(Updated(file, add, args, env).value.hosts)
  {
    var hosts := Updated(file, add, args, env).value.hosts;
    var previous := Previous(file, add, args);
    var built := Built(previous.hosts, args, env.prefix).value;
    assert Clean([]);
    forall h ensures Find(hosts, h) == Find(built, h) {
      UpdateWritesWhatIsBuilt(file, add, args, env, h);
    }
    UpdateWritesWhatIsBuilt(file, add, args, env, "");
    HostsAfter(previous, built, env);
    SameFindsStayClean(hosts, built);
  }

  lemma SameFindsStayClean(d: Dict<Opts>, e: Dict<Opts>)
    requires Unique(d) && Clean(e) && forall h :: Find(d, h) == Find(e, h)
    ensures Clean(d)
  {
    forall h ensures IpAt(d, h) == IpAt(e, h) {
    }
    forall h | h in PROTECTED ensures !Has(d, h) {
      assert Find(d, h) == Find(e, h);
    }
  }

  /** Addresses stay pairwise distinct over any sequence of invocations that name no host like a group. */
  lemma {:induction false} RunsStayClean(file: Config, commands: seq<Command>, n: nat, env: Env)
    requires Clean(file.hosts) && n <= |commands|
    requires forall c | c in commands :: SpellsNoProtected(c.args)
    ensures Clean(FileAfter(file, commands, n, env).hosts)
  {
    hide Updated, Clean, SpellsNoProtected;
    if n > 0 {
      RunsStayClean(file, commands, n - 1, env);
      var before, c := FileAfter(file, commands, n - 1, env), commands[n - 1];
      if Updated(before, c.add, c.args, env).Some? {
        UpdateStaysClean(before, c.add, c.args, env);
      }
    }
  }

  // ---------------------------------------------------------------- Numbered hosts

  /** An argument that is one address. */
  predicate IsAddress(x: string) {
    x != "" && IsDigit(x[0]) && ',' !in x
  }

  function GeneratedHost(prefix: string, k: nat, ip: string): (string, Opts) {
    (prefix + Numeral(k), NewOpts((ip, ip)))
  }

  /** A prefix that starts with a letter and has no dot. */
  predicate IsPlain(prefix: string) {
    prefix != "" && IsLetter(prefix[0]) && '.' !in prefix
  }

  /** All names come from numbers below `next`. */
  ghost predicate NumbersBelow(hosts: Dict<Opts>, prefix: string, next: nat) {
    forall i | 0 <= i < |hosts| :: Generated(hosts[i].0, prefix, 1, next)
  }

  lemma NumberIsFree(x: string, prefix: string, next: nat)
    requires Generated(x, prefix, 1, next)
    ensures x != prefix + Numeral(next) && prefix <= x
  {
    var k: nat :| 1 <= k < next && x == prefix + Numeral(k);
    assert (prefix + Numeral(k))[|prefix|..] == Numeral(k);
    assert (prefix + Numeral(next))[|prefix|..] == Numeral(next);
    if Numeral(k) == Numeral(next) {
      NumeralInjective(k, next);
    }
  }

  /** A new address is stored under the next number. */
  lemma AddressIsAppended(b: Building, ip: string, prefix: string)
    requires IsAddress(ip) && IsPlain(prefix) && ExistsIp(b.hosts, ip) == Some(false)
    requires NumbersBelow(b.hosts, prefix, b.next)
    ensures Handle(b, ip, prefix)
         == Some(Building(b.hosts + [GeneratedHost(prefix, b.next, ip)], b.next + 1, b.hostname, Some((ip, ip))))
  {
    forall i | 0 <= i < |b.hosts| ensures b.hosts[i].0 != ip && b.hosts[i].0 != prefix + Numeral(b.next) {
      NumberIsFree(b.hosts[i].0, prefix, b.next);
      assert b.hosts[i].0[0] == prefix[0];
    }
    PutAt(b.hosts, prefix + Numeral(b.next), NewOpts((ip, ip)));
  }

  /** The table of addresses given to a new inventory, numbered from 1. */
  function Numbered(ips: seq<string>, prefix: string): (r: Dict<Opts>)
    ensures |r| == |ips| && forall i | 0 <= i < |ips| :: r[i] == GeneratedHost(prefix, i + 1, ips[i])
  {
    seq(|ips|, i requires 0 <= i < |ips| => GeneratedHost(prefix, i + 1, ips[i]))
  }

  lemma {:induction false} AddressIsFree(ips: seq<string>, ip: string, hosts: Dict<Opts>)
    requires |hosts| == |ips| && ip !in ips && forall i | 0 <= i < |ips| :: hosts[i].1 == NewOpts((ips[i], ips[i]))
    ensures ExistsIp(hosts, ip) == Some(false)
  {
    if hosts != [] {
      IpOfNew((ips[0], ips[0]));
      assert hosts[0].1 == NewOpts((ips[0], ips[0]));
      AddressIsFree(ips[1..], ip, hosts[1..]);
    }
  }

  /** Distinct addresses. */
  ghost predicate AreAddresses(ips: seq<string>) {
    (forall i | 0 <= i < |ips| :: IsAddress(ips[i])) && forall i, j | 0 <= i < j < |ips| :: ips[i] != ips[j]
  }

  lemma NumberedNext(ips: seq<string>, n: nat, prefix: string)
    requires n < |ips|
    ensures Numbered(ips[..n + 1], prefix) == Numbered(ips[..n], prefix) + [GeneratedHost(prefix, n + 1, ips[n])]
    ensures NumbersBelow(Numbered(ips[..n], prefix), prefix, n + 1)
  {
    var hosts := Numbered(ips[..n], prefix);
    forall i | 0 <= i < |hosts| ensures Generated(hosts[i].0, prefix, 1, n + 1) {
      assert hosts[i].0 == prefix + Numeral(i + 1);
    }
  }

  /** What is built after the first `n` addresses. */
  function NumberedUpTo(ips: seq<string>, n: nat, prefix: string): Building
    requires n <= |ips|
  {
    Building(Numbered(ips[..n], prefix), n + 1, None, if n == 0 then None else Some((ips[n - 1], ips[n - 1])))
  }

  lemma NumberedStep(ips: seq<string>, n: nat, prefix: string)
    requires n < |ips| && IsPlain(prefix) && AreAddresses(ips)
    ensures Handle(NumberedUpTo(ips, n, prefix), ips[n], prefix) == Some(NumberedUpTo(ips, n + 1, prefix))
  {
    var b := NumberedUpTo(ips, n, prefix);
    AddressIsFree(ips[..n], ips[n], b.hosts);
    NumberedNext(ips, n, prefix);
    hide *;
    AddressIsAppended(b, ips[n], prefix);
  }

  /** A new inventory numbers distinct addresses in the order in which they are given. */
  lemma {:induction false} AddressesAreNumbered(ips: seq<string>, n: nat, prefix: string)
    requires n <= |ips| && IsPlain(prefix) && AreAddresses(ips)
    ensures Handled(NumberedUpTo(ips, 0, prefix), ips, n, prefix) == Some(NumberedUpTo(ips, n, prefix))
  {
    if n > 0 {
      AddressesAreNumbered(ips, n - 1, prefix);
      hide NumberedUpTo, Handle, AreAddresses;
      NumberedStep(ips, n - 1, prefix);
    }
  }

  lemma BuiltIsNumbered(ips: seq<string>, prefix: string)
    requires IsPlain(prefix) && AreAddresses(ips)
    ensures Built([], ips, prefix) == Some(Numbered(ips, prefix))
  {
    AddressesAreNumbered(ips, |ips|, prefix);
    NumberedStart(ips, prefix);
    hide Handled, Start, AreAddresses, IsPlain, Numbered;
    assert ips[..|ips|] == ips;
  }

  lemma NumberedStart(ips: seq<string>, prefix: string)
    ensures Start([], prefix) == Some(NumberedUpTo(ips, 0, prefix))
  {
    assert Numbered(ips[..0], prefix) == [];
  }

  /** Without "add" and without a leading deletion, the file is written anew. */
  lemma CreateIsFresh(file: Config, args: seq<string>, env: Env)
    requires args != [] && args[0] != "" && args[0][0] != '-'
    ensures Updated(file, false, args, env)
         == match Built([], args, env.prefix) case None => None case Some(built) => Some(Fresh(built, env))
  {
    hide Regrouped, Built;
  }

  lemma CreateIsNumbered(file: Config, ips: seq<string>, env: Env)
    requires ips != [] && IsPlain(env.prefix) && AreAddresses(ips)
    ensures Updated(file, false, ips, env) == Some(Fresh(Numbered(ips, env.prefix), env))
  {
    assert IsAddress(ips[0]);
    hide Updated, Fresh, Built, Numbered, AreAddresses;
    CreateIsFresh(file, ips, env);
    BuiltIsNumbered(ips, env.prefix);
  }

  lemma {:induction false} NumberedHaveIds(hosts: Dict<Opts>, n: nat, prefix: string)
    requires n <= |hosts| && IsPlain(prefix)
    requires forall i | 0 <= i < |hosts| :: hosts[i].0 == prefix + Numeral(i + 1)
    ensures Highest(hosts, n, prefix).Some?
  {
    if n > 0 {
      NumberedHaveIds(hosts, n - 1, prefix);
      IdOfGenerated(prefix, n);
    }
  }

  lemma NumberedUnique(ips: seq<string>, prefix: string)
    ensures Unique(Numbered(ips, prefix))
  {
    var hosts := Numbered(ips, prefix);
    forall i, j | 0 <= i < j < |hosts| ensures hosts[i].0 != hosts[j].0 {
      assert hosts[i].0[|prefix|..] == Numeral(i + 1) && hosts[j].0[|prefix|..] == Numeral(j + 1);
      if Numeral(i + 1) == Numeral(j + 1) {
        NumeralInjective(i + 1, j + 1);
      }
    }
  }

  // ---------------------------------------------------------------- Adding to numbered hosts

  lemma NumberedIds(ips: seq<string>, prefix: string, i: nat)
    requires IsPlain(prefix) && EndsPlain(prefix) && i < |ips|
    ensures prefix <= Numbered(ips, prefix)[i].0 && HostId(Numbered(ips, prefix)[i].0) == Some(i + 1)
  {
    assert Numbered(ips, prefix)[i].0 == prefix + Numeral(i + 1);
    IdOfGenerated(prefix, i + 1);
  }

  lemma NumberedStartsAbove(ips: seq<string>, prefix: string)
    requires IsPlain(prefix) && EndsPlain(prefix)
    ensures Start(Numbered(ips, prefix), prefix) == Some(Building(Numbered(ips, prefix), |ips| + 1, None, None))
  {
    var hosts := Numbered(ips, prefix);
    NumberedHaveIds(hosts, |hosts|, prefix);
    assert Start(hosts, prefix).Some?;
    StartIsBuilding(hosts, prefix);
    StartsAbove(hosts, prefix);
    hide *;
    var next := Start(hosts, prefix).value.next;
    if next > 1 {
      var i :| 0 <= i < |hosts| && HasNumber(hosts[i].0, prefix, next - 1);
      NumberedIds(ips, prefix, i);
      NumberOnce(hosts[i].0, prefix, next - 1);
    }
    if |hosts| > 0 {
      NumberedIds(ips, prefix, |hosts| - 1);
    }
  }

  lemma NumberOnce(name: string, prefix: string, k: nat)
    requires HasNumber(name, prefix, k)
    ensures HostId(name) == Some(k)
  {
  }

  lemma StartIsBuilding(hosts: Dict<Opts>, prefix: string)
    requires Start(hosts, prefix).Some?
    ensures Start(hosts, prefix) == Some(Building(hosts, Start(hosts, prefix).value.next, None, None))
  {
  }

  /** A free address is stored behind hosts 1 to n as host n + 1. */
  lemma NextIsNumbered(ips: seq<string>, ip: string, prefix: string)
    requires IsPlain(prefix) && EndsPlain(prefix) && AreAddresses(ips + [ip])
    ensures Built(Numbered(ips, prefix), [ip], prefix) == Some(Numbered(ips + [ip], prefix))
  {
    var all, start := ips + [ip], Building(Numbered(ips, prefix), |ips| + 1, None, None);
    NumberedStartsAbove(ips, prefix);
    assert all[..|ips|] == ips && all[..|ips| + 1] == all && all[|ips|] == ip;
    assert ip !in ips by {
      forall i | 0 <= i < |ips| ensures ips[i] != ip {
        assert all[i] != all[|ips|];
      }
    }
    AddressIsFree(ips, ip, start.hosts);
    NumberedNext(all, |ips|, prefix);
    AddressIsAppended(start, ip, prefix);
    assert Handled(start, [ip], 0, prefix) == Some(start);
    assert Handled(start, [ip], 1, prefix) == Handle(start, ip, prefix);
  }

  lemma {:induction false} AssignSelf<V>(d: Dict<V>, n: nat)
    requires Unique(d) && n <= |d|
    ensures Assign(d, d[..n]) == d
  {
    if n > 0 {
      AssignSelf(d, n - 1);
      assert d[..n][..n - 1] == d[..n - 1];
      PutSame(d, n - 1);
    }
  }

  lemma PutSame<V>(d: Dict<V>, i: nat)
    requires Unique(d) && i < |d|
    ensures Put(d, d[i].0, d[i].1) == d
  {
    PutAt(d, d[i].0, d[i].1);
    assert Has(d, d[i].0);
    forall j | 0 <= j < |d| ensures Put(d, d[i].0, d[i].1)[j] == d[j] {
      assert j != i ==> d[j].0 != d[i].0;
    }
  }

  lemma AddedHosts(hosts: Dict<Opts>, e: (string, Opts), env: Env)
    requires Unique(hosts + [e])
    ensures Regrouped(Previous(Fresh(hosts, env), true, ["0"]), hosts + [e], env).hosts == hosts + [e]
  {
    assert Unique(hosts) by {
      forall i, j | 0 <= i < j < |hosts| ensures hosts[i].0 != hosts[j].0 {
        assert (hosts + [e])[i].0 != (hosts + [e])[j].0;
      }
    }
    FreshHosts(hosts, env);
    assert Keys(hosts) <= Keys(hosts + [e]) by {
      forall i | 0 <= i < |hosts| ensures hosts[i].0 in Keys(hosts + [e]) {
        assert (hosts + [e])[i] == hosts[i];
      }
    }
    RestrictAll(hosts, Keys(hosts + [e]) + PROTECTED);
    AssignSelf(hosts, |hosts|);
    assert hosts[..|hosts|] == hosts;
    AssignConcat(hosts, hosts, [e]);
    assert !Has(hosts, e.0) by {
      forall i | 0 <= i < |hosts| ensures hosts[i].0 != e.0 {
        assert (hosts + [e])[i].0 != (hosts + [e])[|hosts|].0;
      }
    }
    PutAt(hosts, e.0, e.1);
    assert Assign(hosts, [e]) == hosts + [e];
  }

  lemma AddingUpdates(file: Config, arg: string, built: Dict<Opts>, env: Env)
    requires arg != "" && Built(file.hosts, [arg], env.prefix) == Some(built)
    ensures Updated(file, true, [arg], env) == Some(Regrouped(Previous(file, true, ["0"]), built, env))
  {
    hide Regrouped, Built;
  }

  /** An invocation that adds a free address to a new inventory of hosts 1 to n leaves hosts 1 to n + 1. */
  lemma AddIsNumbered(ips: seq<string>, ip: string, env: Env)
    requires IsPlain(env.prefix) && EndsPlain(env.prefix) && AreAddresses(ips + [ip])
    ensures var added := Updated(Fresh(Numbered(ips, env.prefix), env), true, [ip], env);
            added.Some? && added.value.hosts == Numbered(ips + [ip], env.prefix)
  {
    var all, prefix := ips + [ip], env.prefix;
    assert IsAddress(all[|ips|]);
    assert all[..|ips|] == ips && all[..|ips| + 1] == all;
    hide Regrouped, Fresh, Built, Numbered, Updated, AreAddresses, IsPlain, EndsPlain;
    NumberedUnique(ips, prefix);
    NumberedUnique(all, prefix);
    FreshHosts(Numbered(ips, prefix), env);
    NextIsNumbered(ips, ip, prefix);
    NumberedNext(all, |ips|, prefix);
    AddedHosts(Numbered(ips, prefix), GeneratedHost(prefix, |ips| + 1, ip), env);
    AddingUpdates(Fresh(Numbered(ips, prefix), env), ip, Numbered(all, prefix), env);
  }

  // ---------------------------------------------------------------- Deleting from numbered hosts

  /** Deleting the first host of a new inventory leaves the others. */
  lemma FirstIsDeleted(ips: seq<string>, prefix: string)
    requires ips != [] && IsPlain(prefix)
    ensures Built(Numbered(ips, prefix), ["-" + (prefix + Numeral(1))], prefix) == Some(Numbered(ips, prefix)[1..])
  {
    var hosts, arg := Numbered(ips, prefix), "-" + (prefix + Numeral(1));
    NumberedHaveIds(hosts, |hosts|, prefix);
    var start := Start(hosts, prefix).value;
    assert arg[1..] == prefix + Numeral(1) == hosts[0].0 && Has(hosts, arg[1..]);
    assert Handled(start, [arg], 0, prefix) == Some(start);
    assert Handled(start, [arg], 1, prefix) == Handle(start, arg, prefix);
  }

  lemma DeleteIsAfter(hosts: Dict<Opts>, left: Dict<Opts>, arg: string, env: Env)
    requires arg != "" && arg[0] == '-' && Unique(hosts) && Built(hosts, [arg], env.prefix) == Some(left)
    ensures Updated(Fresh(hosts, env), false, [arg], env)
         == Some(Regrouped(Previous(Fresh(hosts, env), false, [arg]), left, env))
  {
    FreshHosts(hosts, env);
    hide Regrouped;
  }

  /** Three addresses are made into a new inventory, and the first host is deleted: etcd keeps both of
      the others, although a new inventory of these two has one etcd member. */
  lemma EtcdKeepsTwo(file: Config, x: string, y: string, z: string, env: Env)
    requires IsPlain(env.prefix) && AreAddresses([x, y, z])
    ensures var created := Updated(file, false, [x, y, z], env);
            && created.Some?
            && var deleted := Updated(created.value, false, ["-" + (env.prefix + Numeral(1))], env);
            && deleted.Some?
            && Members(deleted.value.groups, "etcd") == {env.prefix + Numeral(2), env.prefix + Numeral(3)}
    ensures Members(Fresh([GeneratedHost(env.prefix, 2, y), GeneratedHost(env.prefix, 3, z)], env).groups, "etcd")
         == {env.prefix + Numeral(2)}
  {
    var ips, prefix := [x, y, z], env.prefix;
    var arg := "-" + (prefix + Numeral(1));
    var hosts := Numbered(ips, prefix);
    CreateIsNumbered(file, ips, env);
    FirstIsDeleted(ips, prefix);
    NumberedUnique(ips, prefix);
    ThreeNumbered(x, y, z, prefix);
    hide Updated, Regrouped, Fresh, Members, Previous, Unique, Built, Numbered, AreAddresses;
    DeleteIsAfter(hosts, hosts[1..], arg, env);
    EtcdOfPrevious(hosts, arg, env);
    TwoOfThreeStay(Previous(Fresh(hosts, env), false, [arg]), hosts[0], hosts[1], hosts[2], env);
  }

  lemma ThreeNumbered(x: string, y: string, z: string, prefix: string)
    requires AreAddresses([x, y, z])
    ensures var hosts := Numbered([x, y, z], prefix);
            && hosts == [GeneratedHost(prefix, 1, x), GeneratedHost(prefix, 2, y), GeneratedHost(prefix, 3, z)]
            && hosts == [hosts[0], hosts[1], hosts[2]] && hosts[1..] == [hosts[1], hosts[2]]
            && hosts[0].0 !in PROTECTED && Unique([hosts[0], hosts[1], hosts[2]])
            && hosts[0].0 != hosts[1].0 && hosts[0].0 != hosts[2].0 && hosts[1].0 != hosts[2].0
  {
    var hosts := Numbered([x, y, z], prefix);
    NumberedUnique([x, y, z], prefix);
    assert hosts[0].0 == prefix + Numeral(1);
    assert Generated(hosts[0].0, prefix, 1, 2);
    GeneratedIsNotProtected(hosts[0].0, prefix, 1, 2);
  }

  lemma EtcdOfPrevious(hosts: Dict<Opts>, arg: string, env: Env)
    requires arg != "" && arg[0] == '-' && Unique(hosts)
    ensures Members(Previous(Fresh(hosts, env), false, [arg]).groups, "etcd") == Elements(EtcdHosts(hosts))
  {
    FreshMembers(hosts, env);
    hide Fresh;
  }
}
