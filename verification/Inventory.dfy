/** The groups of an inventory, and the run of the builder that rewrites an inventory file. */
module Inventory {
  import opened Options
  import opened OrderedDict
  import opened Hostnames

  const ROLES: seq<string> := ["all", "kube_control_plane", "kube_node", "etcd", "k8s_cluster", "calico_rr"]
  const PROTECTED: set<string> := {"all", "kube_control_plane", "kube_node", "etcd", "k8s_cluster", "calico_rr"}

  /** The shell variables; the host prefix, the number of control plane hosts and the two thresholds. */
  datatype Env = Env(prefix: string, controlHosts: nat, scale: int, massive: int)

  datatype Group = Hosts(members: set<string>) | Subgroups(names: set<string>)

  /** The content of an inventory file: `all.hosts` and the groups below `all.children`. */
  datatype Config = Config(hosts: Dict<Opts>, groups: map<string, Group>)

  predicate ListsHosts(groups: map<string, Group>, g: string) {
    g in groups && groups[g].Hosts?
  }

  function Members(groups: map<string, Group>, g: string): set<string> {
    if ListsHosts(groups, g) then groups[g].members else {}
  }

  /** Every group but k8s_cluster lists hosts. */
  predicate WellFormed(groups: map<string, Group>) {
    forall g | g in groups && g != "k8s_cluster" :: groups[g].Hosts?
  }

  // ---------------------------------------------------------------- What a run does to a file

  function WithGroups(groups: map<string, Group>, names: set<string>): map<string, Group> {
    map g | g in groups.Keys + names :: if g in groups then groups[g] else Hosts({})
  }

  function Purged(groups: map<string, Group>, allowed: set<string>): map<string, Group> {
    map g | g in groups :: PurgedGroup(g, groups[g], allowed)
  }

  function PurgedGroup(g: string, group: Group, allowed: set<string>): Group {
    if g == "k8s_cluster" || group.Subgroups? then group else Hosts(group.members * allowed)
  }

  function Names(hosts: Dict<Opts>): (r: seq<string>)
    ensures |r| == |hosts| && forall i | 0 <= i < |r| :: r[i] == hosts[i].0
  {
    seq(|hosts|, i requires 0 <= i < |hosts| => hosts[i].0)
  }

  function Min(a: nat, b: nat): nat { if a < b then a else b }

  /** s[low:high] */
  function Slice(s: seq<string>, low: nat, high: nat): seq<string>
    requires low <= high
  {
    s[Min(low, |s|)..Min(high, |s|)]
  }

  function Elements(s: seq<string>): set<string> { set x | x in s }

  function EtcdCount(built: Dict<Opts>): nat { if |built| >= 3 then 3 else 1 }

  function EtcdHosts(built: Dict<Opts>): seq<string> {
    Slice(Names(built), 0, EtcdCount(built))
  }

  function ControlHosts(built: Dict<Opts>, env: Env): seq<string> {
    var first := if |built| >= env.scale then EtcdCount(built) else 0;
    Slice(Names(built), first, first + env.controlHosts)
  }

  function Workers(names: set<string>, groups: map<string, Group>, count: nat, env: Env): set<string> {
    names - (if count >= env.scale then Members(groups, "etcd") else {})
          - (if count >= env.massive then Members(groups, "kube_control_plane") else {})
  }

  /** The host itself is compared with the keys of a group, of which there is only "hosts". */
  function RouteReflectors(names: set<string>): set<string> { names - {"hosts"} }

  function Join(groups: map<string, Group>, g: string, more: set<string>): map<string, Group> {
    groups[g := Hosts(Members(groups, g) + more)]
  }

  const CLUSTER := Subgroups({"kube_control_plane", "kube_node"})

  /** etcd and the control plane, next to what was kept of them. */
  function Leaders(groups: map<string, Group>, built: Dict<Opts>, env: Env): map<string, Group> {
    Join(Join(groups, "etcd", Elements(EtcdHosts(built))), "kube_control_plane", Elements(ControlHosts(built, env)))
  }

  function Followers(groups: map<string, Group>, built: Dict<Opts>, count: nat, env: Env): map<string, Group> {
    var working := Join(groups, "kube_node", Workers(Keys(built), groups, count, env));
    if |built| >= env.scale then Join(working, "calico_rr", RouteReflectors(Elements(EtcdHosts(built)))) else working
  }

  /** The inventory after the hosts have been built: who is in which group. */
  function Regrouped(c: Config, built: Dict<Opts>, env: Env): Config {
    var allowed := Keys(built) + PROTECTED;
    var hosts := Assign(Restrict(c.hosts, allowed), built);
    var kept := Purged(c.groups, allowed)["k8s_cluster" := CLUSTER];
    Config(hosts, Followers(Leaders(kept, built, env), built, |hosts|, env))
  }

  /** What a run writes; None when it ends without writing. */
  function Updated(file: Config, add: bool, args: seq<string>, env: Env): Option<Config> {
    if args == [] || args[0] == "" then None
    else
      var previous := if add || args[0][0] == '-' then file else Config([], map[]);
      match Built(previous.hosts, args, env.prefix)
      case None => None
      case Some(built) =>
        var grouped := WithGroups(previous.groups, PROTECTED - {"all"});
        Some(Regrouped(Config(previous.hosts, grouped), built, env))
  }

  // ---------------------------------------------------------------- The builder

  lemma {:induction false} RestrictAgrees<V>(d: Dict<V>, a: set<string>, b: set<string>)
    requires forall i | 0 <= i < |d| :: d[i].0 in a <==> d[i].0 in b
    ensures Restrict(d, a) == Restrict(d, b)
  {
    if d != [] {
      assert forall i | 0 <= i < |d[1..]| :: d[1..][i] == d[i + 1];
      RestrictAgrees(d[1..], a, b);
    }
  }

  lemma JoinNothing(groups: map<string, Group>, g: string)
    requires ListsHosts(groups, g)
    ensures Join(groups, g, {}) == groups
  {
    assert groups[g].members + {} == groups[g].members;
  }

  lemma JoinTwice(groups: map<string, Group>, g: string, a: set<string>, b: set<string>)
    ensures Join(Join(groups, g, a), g, b) == Join(groups, g, a + b)
  {
    assert Members(groups, g) + a + b == Members(groups, g) + (a + b);
  }

  lemma ElementsNext(s: seq<string>, n: nat)
    requires n < |s|
    ensures Elements(s[..n + 1]) == Elements(s[..n]) + {s[n]}
  {
    assert s[..n + 1] == s[..n] + [s[n]];
  }

  lemma WorkersNext(names: set<string>, host: string, groups: map<string, Group>, count: nat, env: Env)
    ensures Workers(names + {host}, groups, count, env)
         == if count >= env.scale && host in Members(groups, "etcd") then Workers(names, groups, count, env)
            else if count >= env.massive && host in Members(groups, "kube_control_plane") then
              Workers(names, groups, count, env)
            else Workers(names, groups, count, env) + {host}
  {
  }

  class Inventory {
    var hosts: Dict<Opts>
    var groups: map<string, Group>

    constructor (file: Config)
      ensures hosts == file.hosts && groups == file.groups
    {
      hosts, groups := file.hosts, file.groups;
    }

    /** ensure_required_groups */
    method EnsureRequiredGroups(roles: seq<string>)
      modifies this`groups
      ensures groups == WithGroups(old(groups), Elements(roles) - {"all"})
    {
      assert Elements(roles[..0]) - {"all"} == {};
      assert WithGroups(groups, {}) == groups;
      for n := 0 to |roles|
        invariant groups == WithGroups(old(groups), Elements(roles[..n]) - {"all"})
      {
        ElementsNext(roles, n);
        if roles[n] != "all" && roles[n] !in groups {
          groups := groups[roles[n] := Hosts({})];
        }
      }
      assert roles[..|roles|] == roles;
    }

    method PurgeRole(role: string, hostnames: set<string>, protectedNames: set<string>)
      requires ListsHosts(groups, role)
      modifies this`groups
      ensures groups == old(groups)[role := Hosts(old(groups[role]).members * (hostnames + protectedNames))]
    {
      var all := groups[role].members;
      ghost var before := all;
      assert before * (hostnames + protectedNames + before) == before;
      while all != {}
        invariant all <= before
        invariant groups == old(groups)[role := Hosts(before * (hostnames + protectedNames + all))]
      {
        assert (forall h :: h !in all) ==> all == {};
        var host :| host in all;
        if host !in hostnames && host !in protectedNames {
          groups := groups[role := Hosts(groups[role].members - {host})];
        }
        all := all - {host};
        assert groups[role].members == before * (hostnames + protectedNames + all);
      }
      assert before * (hostnames + protectedNames + {}) == before * (hostnames + protectedNames);
    }

    method PurgeAll(hostnames: set<string>, protectedNames: set<string>)
      requires Unique(hosts)
      modifies this`hosts
      ensures hosts == Restrict(old(hosts), hostnames + protectedNames)
    {
      var all := hosts;
      ghost var kept := Keys(all);
      RestrictAll(all, kept);
      for n := 0 to |all|
        invariant hosts == Restrict(all, kept)
        invariant forall i | 0 <= i < n :: all[i].0 in kept <==> all[i].0 in hostnames + protectedNames
        invariant forall i | n <= i < |all| :: all[i].0 in kept
      {
        if all[n].0 !in hostnames && all[n].0 !in protectedNames {
          DeleteRestrict(all, kept, all[n].0);
          hosts := Delete(hosts, all[n].0);
          kept := kept - {all[n].0};
        }
      }
      RestrictAgrees(all, kept, hostnames + protectedNames);
    }

    /** purge_invalid_hosts */
    method PurgeInvalidHosts(hostnames: set<string>, protectedNames: set<string>)
      requires Unique(hosts) && WellFormed(groups)
      modifies this
      ensures hosts == Restrict(old(hosts), hostnames + protectedNames)
      ensures groups == Purged(old(groups), hostnames + protectedNames)
    {
      ghost var allowed := hostnames + protectedNames;
      var roles := groups.Keys;
      while roles != {}
        invariant hosts == old(hosts) && roles <= groups.Keys && groups.Keys == old(groups).Keys
        invariant forall g | g in groups ::
                    groups[g] == if g in roles then old(groups)[g] else PurgedGroup(g, old(groups)[g], allowed)
      {
        assert (forall g :: g !in roles) ==> roles == {};
        var role :| role in roles;
        if role != "k8s_cluster" && groups[role].members != {} {
          PurgeRole(role, hostnames, protectedNames);
        } else if role != "k8s_cluster" {
          assert groups[role].members * allowed == {};
        }
        roles := roles - {role};
      }
      PurgeAll(hostnames, protectedNames);
    }

    /** add_host_to_group */
    method AddHostToGroup(group: string, host: string, opts: Opts)
      requires group == "all" || ListsHosts(groups, group)
      modifies this
      ensures group == "all" ==> hosts == Put(old(hosts), host, opts) && groups == old(groups)
      ensures group != "all" ==> hosts == old(hosts) && groups == Join(old(groups), group, {host})
    {
      if group == "all" {
        hosts := Put(hosts, host, opts);
      } else {
        groups := groups[group := Hosts(groups[group].members + {host})];
      }
    }

    /** set_all */
    method SetAll(built: Dict<Opts>)
      modifies this
      ensures hosts == Assign(old(hosts), built) && groups == old(groups)
    {
      assert Assign(hosts, []) == hosts;
      for n := 0 to |built|
        invariant hosts == Assign(old(hosts), built[..n]) && groups == old(groups)
      {
        assert built[..n + 1][..n] == built[..n];
        AddHostToGroup("all", built[n].0, built[n].1);
      }
      assert built[..|built|] == built;
    }

    /** set_k8s_cluster */
    method SetK8sCluster()
      modifies this`groups
      ensures groups == old(groups)["k8s_cluster" := CLUSTER]
    {
      groups := groups["k8s_cluster" := Subgroups({"kube_control_plane", "kube_node"})];
    }

    /** set_etcd and set_kube_control_plane */
    method AddAll(group: string, names: seq<string>)
      requires group != "all" && ListsHosts(groups, group)
      modifies this
      ensures hosts == old(hosts) && groups == Join(old(groups), group, Elements(names))
    {
      JoinNothing(groups, group);
      assert Elements(names[..0]) == {};
      for n := 0 to |names|
        invariant hosts == old(hosts) && groups == Join(old(groups), group, Elements(names[..n]))
      {
        ElementsNext(names, n);
        JoinTwice(old(groups), group, Elements(names[..n]), {names[n]});
        AddHostToGroup(group, names[n], []);
      }
      assert names[..|names|] == names;
    }

    /** set_kube_node */
    method SetKubeNode(names: seq<string>, env: Env)
      requires ListsHosts(groups, "kube_node")
      modifies this
      ensures hosts == old(hosts)
      ensures groups == Join(old(groups), "kube_node", Workers(Elements(names), old(groups), |hosts|, env))
    {
      JoinNothing(groups, "kube_node");
      assert Workers(Elements(names[..0]), groups, |hosts|, env) == {};
      for n := 0 to |names|
        invariant hosts == old(hosts)
        invariant groups == Join(old(groups), "kube_node", Workers(Elements(names[..n]), old(groups), |hosts|, env))
      {
        ElementsNext(names, n);
        WorkersNext(Elements(names[..n]), names[n], old(groups), |hosts|, env);
        JoinTwice(old(groups), "kube_node", Workers(Elements(names[..n]), old(groups), |hosts|, env), {names[n]});
        assert Members(groups, "etcd") == Members(old(groups), "etcd");
        assert Members(groups, "kube_control_plane") == Members(old(groups), "kube_control_plane");
        if |hosts| >= env.scale && names[n] in Members(groups, "etcd") {
          continue;
        }
        if |hosts| >= env.massive && names[n] in Members(groups, "kube_control_plane") {
          continue;
        }
        AddHostToGroup("kube_node", names[n], []);
      }
      assert names[..|names|] == names;
    }

    /** set_calico_rr */
    method SetCalicoRr(names: seq<string>)
      requires ListsHosts(groups, "calico_rr")
      modifies this
      ensures hosts == old(hosts) && groups == Join(old(groups), "calico_rr", RouteReflectors(Elements(names)))
    {
      JoinNothing(groups, "calico_rr");
      assert RouteReflectors(Elements(names[..0])) == {};
      for n := 0 to |names|
        invariant hosts == old(hosts)
        invariant groups == Join(old(groups), "calico_rr", RouteReflectors(Elements(names[..n])))
      {
        ElementsNext(names, n);
        assert RouteReflectors(Elements(names[..n + 1]))
            == if names[n] != "hosts" then RouteReflectors(Elements(names[..n])) + {names[n]}
               else RouteReflectors(Elements(names[..n]));
        JoinTwice(old(groups), "calico_rr", RouteReflectors(Elements(names[..n])), {names[n]});
        if names[n] != "hosts" {
          AddHostToGroup("calico_rr", names[n], []);
        }
      }
      assert names[..|names|] == names;
    }

    method SetLeaders(built: Dict<Opts>, env: Env)
      requires ListsHosts(groups, "etcd") && ListsHosts(groups, "kube_control_plane")
      modifies this
      ensures hosts == old(hosts) && groups == Leaders(old(groups), built, env)
    {
      var names := Names(built);
      var count := if |names| >= 3 then 3 else 1;
      AddAll("etcd", Slice(names, 0, count));
      if |built| >= env.scale {
        AddAll("kube_control_plane", Slice(names, count, count + env.controlHosts));
      } else {
        AddAll("kube_control_plane", Slice(names, 0, env.controlHosts));
      }
    }

    method SetFollowers(built: Dict<Opts>, env: Env)
      requires ListsHosts(groups, "kube_node") && ListsHosts(groups, "calico_rr")
      modifies this
      ensures hosts == old(hosts) && groups == Followers(old(groups), built, |hosts|, env)
    {
      NamesAreKeys(built);
      SetKubeNode(Names(built), env);
      if |built| >= env.scale {
        SetCalicoRr(EtcdHosts(built));
      }
    }

    /** What the constructor of the builder does once the hosts are built. */
    method AssignRoles(built: Dict<Opts>, env: Env)
      requires Unique(hosts) && WellFormed(groups) && PROTECTED - {"all"} <= groups.Keys
      modifies this
      ensures Config(hosts, groups) == Regrouped(old(Config(hosts, groups)), built, env)
    {
      PurgeInvalidHosts(Keys(built), PROTECTED);
      assert ListsHosts(groups, "etcd") && ListsHosts(groups, "kube_control_plane");
      assert ListsHosts(groups, "kube_node") && ListsHosts(groups, "calico_rr");
      SetAll(built);
      SetK8sCluster();
      assert ListsHosts(groups, "kube_node") && ListsHosts(groups, "calico_rr");
      SetLeaders(built, env);
      SetFollowers(built, env);
    }
  }

  lemma NamesAreKeys(built: Dict<Opts>)
    ensures Elements(Names(built)) == Keys(built)
  {
    forall k | k in Keys(built) ensures k in Names(built) {
      var i :| 0 <= i < |built| && built[i].0 == k;
      assert Names(built)[i] == k;
    }
  }

  /** One run of the builder on a file. */
  method RunBuilder(file: Config, add: bool, args: seq<string>, env: Env) returns (written: Option<Config>)
    requires Unique(file.hosts) && WellFormed(file.groups)
    ensures written == Updated(file, add, args, env)
  {
    if args == [] || args[0] == "" {
      return None;
    }
    var load := add || args[0][0] == '-';
    var inventory := new Inventory(if load then file else Config([], map[]));
    inventory.EnsureRequiredGroups(ROLES);
    assert Elements(ROLES) - {"all"} == PROTECTED - {"all"};
    var built := BuildHostnames(inventory.hosts, args, env.prefix);
    if built.None? {
      return None;
    }
    inventory.AssignRoles(built.value, env);
    return Some(Config(inventory.hosts, inventory.groups));
  }
}
