/** What every inventory file satisfies, after any sequence of runs of the builder. */
module InventoryLaws {
  import opened Options
  import opened OrderedDict
  import opened Hostnames
  import opened Inventory

  // ---------------------------------------------------------------- Referential integrity

  ghost predicate IsCovered(groups: map<string, Group>, h: string) {
    || h in Members(groups, "kube_node")
    || h in Members(groups, "etcd")
    || h in Members(groups, "kube_control_plane")
  }

  /** Groups hold only hosts of the inventory, and every host has a role. */
  ghost predicate Integral(c: Config) {
    && Unique(c.hosts) && WellFormed(c.groups)
    && (forall g :: Members(c.groups, g) <= Keys(c.hosts))
    && (forall h | h in Keys(c.hosts) :: IsCovered(c.groups, h))
  }

  lemma KeysAssign<V>(d: Dict<V>, pairs: Dict<V>)
    ensures Keys(Assign(d, pairs)) == Keys(d) + Keys(pairs)
  {
    forall k ensures k in Keys(Assign(d, pairs)) <==> k in Keys(d) + Keys(pairs) {
      HasAssign(d, pairs, k);
      HasKeys(d, k);
      HasKeys(pairs, k);
      HasKeys(Assign(d, pairs), k);
    }
  }

  /** The hosts of the new file: those that were built, and earlier ones with a protected name. */
  lemma HostsAfter(c: Config, built: Dict<Opts>, env: Env)
    requires Unique(c.hosts)
    ensures Unique(Regrouped(c, built, env).hosts)
    ensures Keys(Regrouped(c, built, env).hosts) == Keys(built) + Keys(c.hosts) * PROTECTED
  {
    var allowed := Keys(built) + PROTECTED;
    RestrictKeys(c.hosts, allowed);
    RestrictUnique(c.hosts, allowed);
    KeysAssign(Restrict(c.hosts, allowed), built);
    AssignUnique(Restrict(c.hosts, allowed), built);
  }

  lemma PurgedMembers(groups: map<string, Group>, allowed: set<string>, g: string)
    requires g != "k8s_cluster"
    ensures Members(Purged(groups, allowed), g) == Members(groups, g) * allowed
  {
  }

  lemma NewHostsAreBuilt(built: Dict<Opts>, env: Env)
    ensures Elements(EtcdHosts(built)) <= Keys(built)
    ensures Elements(ControlHosts(built, env)) <= Keys(built)
  {
    NamesAreKeys(built);
  }

  /** The members of a group in the new file: those kept of the earlier ones, and the new ones. */
  lemma MembersAfter(c: Config, built: Dict<Opts>, env: Env, g: string)
    ensures var after, kept := Regrouped(c, built, env), Members(c.groups, g) * (Keys(built) + PROTECTED);
            var groups := after.groups;
            Members(groups, g) ==
              if g == "k8s_cluster" then {}
              else if g == "etcd" then kept + Elements(EtcdHosts(built))
              else if g == "kube_control_plane" then kept + Elements(ControlHosts(built, env))
              else if g == "kube_node" then kept + Workers(Keys(built), groups, |after.hosts|, env)
              else if g == "calico_rr" && |built| >= env.scale then kept + RouteReflectors(Elements(EtcdHosts(built)))
              else kept
  {
    var allowed := Keys(built) + PROTECTED;
    var kept := Purged(c.groups, allowed)["k8s_cluster" := CLUSTER];
    if g != "k8s_cluster" {
      PurgedMembers(c.groups, allowed, g);
    }
    LeadersMembers(kept, built, env, g);
    FollowersMembers(Leaders(kept, built, env), built, |Regrouped(c, built, env).hosts|, env, g);
    SameWorkers(Leaders(kept, built, env), built, |Regrouped(c, built, env).hosts|, env);
  }

  lemma JoinMembers(groups: map<string, Group>, g: string, more: set<string>, x: string)
    ensures Members(Join(groups, g, more), x) == if x == g then Members(groups, g) + more else Members(groups, x)
  {
  }

  lemma LeadersMembers(groups: map<string, Group>, built: Dict<Opts>, env: Env, g: string)
    ensures Members(Leaders(groups, built, env), g)
         == if g == "etcd" then Members(groups, g) + Elements(EtcdHosts(built))
            else if g == "kube_control_plane" then Members(groups, g) + Elements(ControlHosts(built, env))
            else Members(groups, g)
  {
    var e := Elements(EtcdHosts(built));
    JoinMembers(groups, "etcd", e, g);
    JoinMembers(Join(groups, "etcd", e), "kube_control_plane", Elements(ControlHosts(built, env)), g);
  }

  lemma FollowersMembers(groups: map<string, Group>, built: Dict<Opts>, count: nat, env: Env, g: string)
    ensures Members(Followers(groups, built, count, env), g)
         == if g == "kube_node" then Members(groups, g) + Workers(Keys(built), groups, count, env)
            else if g == "calico_rr" && |built| >= env.scale then
              Members(groups, g) + RouteReflectors(Elements(EtcdHosts(built)))
            else Members(groups, g)
  {
    var w := Workers(Keys(built), groups, count, env);
    JoinMembers(groups, "kube_node", w, g);
    JoinMembers(Join(groups, "kube_node", w), "calico_rr", RouteReflectors(Elements(EtcdHosts(built))), g);
  }

  lemma SameWorkers(groups: map<string, Group>, built: Dict<Opts>, count: nat, env: Env)
    ensures Workers(Keys(built), Followers(groups, built, count, env), count, env)
         == Workers(Keys(built), groups, count, env)
  {
    FollowersMembers(groups, built, count, env, "etcd");
    FollowersMembers(groups, built, count, env, "kube_control_plane");
  }

  lemma AfterIsIntegral(c: Config, built: Dict<Opts>, env: Env)
    requires Integral(c)
    ensures Integral(Regrouped(c, built, env))
  {
    var after := Regrouped(c, built, env);
    HostsAfter(c, built, env);
    NewHostsAreBuilt(built, env);
    forall g ensures Members(after.groups, g) <= Keys(after.hosts) {
      MembersAfter(c, built, env, g);
    }
    forall h | h in Keys(after.hosts) ensures IsCovered(after.groups, h) {
      CoveredAfter(c, built, env, h);
    }
    AfterIsWellFormed(c, built, env);
  }

  lemma AfterIsWellFormed(c: Config, built: Dict<Opts>, env: Env)
    requires WellFormed(c.groups)
    ensures WellFormed(Regrouped(c, built, env).groups)
  {
    var kept := Purged(c.groups, Keys(built) + PROTECTED)["k8s_cluster" := CLUSTER];
    assert WellFormed(kept);
  }

  lemma CoveredAfter(c: Config, built: Dict<Opts>, env: Env, h: string)
    requires Integral(c) && h in Keys(built) + Keys(c.hosts) * PROTECTED
    ensures IsCovered(Regrouped(c, built, env).groups, h)
  {
    MembersAfter(c, built, env, "kube_node");
    MembersAfter(c, built, env, "etcd");
    MembersAfter(c, built, env, "kube_control_plane");
    if h !in Keys(built) {
      assert IsCovered(c.groups, h);
    }
  }

  /** A host that was built has the options it was built with; of the others, only those with a
      protected name are left, as they were. */
  lemma OptionsAfter(c: Config, built: Dict<Opts>, env: Env, h: string)
    requires Unique(built)
    ensures Find(Regrouped(c, built, env).hosts, h)
         == if Has(built, h) then Find(built, h) else if h in PROTECTED then Find(c.hosts, h) else None
  {
    var allowed := Keys(built) + PROTECTED;
    FindAssigned(Restrict(c.hosts, allowed), built, h);
    FindRestrict(c.hosts, allowed, h);
    HasKeys(built, h);
  }

  lemma {:induction false} FindAssigned<V>(d: Dict<V>, w: Dict<V>, x: string)
    requires Unique(w)
    ensures Find(Assign(d, w), x) == if Has(w, x) then Find(w, x) else Find(d, x)
  {
    if w != [] {
      var n := |w| - 1;
      var last := w[n];
      FindAssigned(d, w[..n], x);
      FindPut(Assign(d, w[..n]), last.0, last.1, x);
      assert w == w[..n] + [last];
      FindAppended(w[..n], last, x);
    }
  }

  lemma {:induction false} FindAppended<V>(d: Dict<V>, e: (string, V), x: string)
    requires forall i | 0 <= i < |d| :: d[i].0 != e.0
    ensures Find(d + [e], x) == if x == e.0 then Some(e.1) else Find(d, x)
  {
    if d == [] {
      HasCons(e, [], x);
      assert [] + [e] == [e] + [];
    } else {
      FindAppended(d[1..], e, x);
      assert d + [e] == [d[0]] + (d[1..] + [e]);
      HasCons(d[0], d[1..] + [e], x);
    }
  }

  /** The inventory holds exactly the hosts that were built, if and only if no earlier host that is
      not built again has a protected name. */
  lemma AllIsBuiltExactly(c: Config, built: Dict<Opts>, env: Env)
    requires Unique(c.hosts)
    ensures Keys(Regrouped(c, built, env).hosts) == Keys(built)
       <==> forall h | h in PROTECTED && Has(c.hosts, h) :: Has(built, h)
  {
    HostsAfter(c, built, env);
    forall h ensures Has(c.hosts, h) <==> h in Keys(c.hosts) { HasKeys(c.hosts, h); }
    forall h ensures Has(built, h) <==> h in Keys(built) { HasKeys(built, h); }
    if forall h | h in PROTECTED && Has(c.hosts, h) :: Has(built, h) {
      assert Keys(c.hosts) * PROTECTED <= Keys(built);
    } else {
      var h :| h in PROTECTED && Has(c.hosts, h) && !Has(built, h);
      assert h in Keys(Regrouped(c, built, env).hosts);
    }
  }

  // ---------------------------------------------------------------- Roles in a new inventory

  function Fresh(built: Dict<Opts>, env: Env): Config {
    Regrouped(Config([], WithGroups(map[], PROTECTED - {"all"})), built, env)
  }

  lemma FreshHosts(built: Dict<Opts>, env: Env)
    requires Unique(built)
    ensures Fresh(built, env).hosts == built
  {
    assert [] + built == built;
    AssignFresh([], built);
  }

  lemma FreshMembers(built: Dict<Opts>, env: Env)
    requires Unique(built)
    ensures var groups := Fresh(built, env).groups;
            && Members(groups, "etcd") == Elements(EtcdHosts(built))
            && Members(groups, "kube_control_plane") == Elements(ControlHosts(built, env))
            && Members(groups, "kube_node") == Workers(Keys(built), groups, |built|, env)
  {
    var empty := Config([], WithGroups(map[], PROTECTED - {"all"}));
    FreshHosts(built, env);
    hide Regrouped;
    forall g ensures Members(empty.groups, g) == {} {
    }
    MembersAfter(empty, built, env, "etcd");
    MembersAfter(empty, built, env, "kube_control_plane");
    MembersAfter(empty, built, env, "kube_node");
  }

  lemma {:induction false} ElementsCount(s: seq<string>)
    requires forall i, j | 0 <= i < j < |s| :: s[i] != s[j]
    ensures |Elements(s)| == |s|
  {
    if s != [] {
      var n := |s| - 1;
      ElementsCount(s[..n]);
      assert s == s[..n] + [s[n]] && s[n] !in s[..n];
      assert Elements(s) == Elements(s[..n]) + {s[n]};
    }
  }

  lemma SlicesApart(s: seq<string>, a: nat, b: nat)
    requires forall i, j | 0 <= i < j < |s| :: s[i] != s[j]
    requires a <= b
    ensures Elements(Slice(s, 0, a)) !! Elements(Slice(s, a, b))
    ensures |Elements(Slice(s, 0, a))| == Min(a, |s|)
    ensures |Elements(Slice(s, a, b))| == Min(b, |s|) - Min(a, |s|)
  {
    ElementsCount(Slice(s, 0, a));
    ElementsCount(Slice(s, a, b));
  }

  lemma LeadersApart(built: Dict<Opts>, env: Env)
    requires Unique(built) && built != []
    ensures var etcd, leaders := Elements(EtcdHosts(built)), Elements(ControlHosts(built, env));
            && |etcd| == (if |built| >= 3 then 3 else 1)
            && |leaders| == Min(env.controlHosts, if |built| >= env.scale then |built| - |etcd| else |built|)
            && (|built| >= env.scale ==> etcd !! leaders)
  {
    var names, count := Names(built), EtcdCount(built);
    SlicesApart(names, count, count + env.controlHosts);
    SlicesApart(names, 0, env.controlHosts);
  }

  /** Of n hosts: etcd has three members, or one below three hosts. From the first threshold on, etcd
      shares no host with the control plane or the workers; from the second on the three groups split
      the hosts among them. */
  ghost predicate Separated(hosts: set<string>, n: nat, etcd: set<string>, leaders: set<string>,
                            workers: set<string>, env: Env) {
    && |etcd| == (if n >= 3 then 3 else 1)
    && |leaders| == Min(env.controlHosts, if n >= env.scale && n >= |etcd| then n - |etcd| else n)
    && (n < env.scale ==> workers == hosts)
    && (n >= env.scale ==> etcd !! leaders && etcd !! workers)
    && (env.scale <= n < env.massive ==> workers == hosts - etcd)
    && (n >= env.massive ==> leaders !! workers && etcd + leaders + workers == hosts)
  }

  lemma WorkersSplit(names: set<string>, groups: map<string, Group>, n: nat, env: Env)
    requires env.scale <= env.massive
    ensures var workers := Workers(names, groups, n, env);
            var etcd, leaders := Members(groups, "etcd"), Members(groups, "kube_control_plane");
            && (n < env.scale ==> workers == names)
            && (n >= env.scale ==> etcd !! workers)
            && (env.scale <= n < env.massive ==> workers == names - etcd)
            && (n >= env.massive ==> leaders !! workers)
            && (n >= env.massive && etcd <= names && leaders <= names ==> etcd + leaders + workers == names)
  {
  }

  lemma RoleSeparation(built: Dict<Opts>, env: Env)
    requires Unique(built) && built != [] && env.scale <= env.massive
    ensures var groups := Fresh(built, env).groups;
            Separated(Keys(built), |built|, Members(groups, "etcd"), Members(groups, "kube_control_plane"),
                      Members(groups, "kube_node"), env)
  {
    FreshMembers(built, env);
    NewHostsAreBuilt(built, env);
    LeadersApart(built, env);
    WorkersSplit(Keys(built), Fresh(built, env).groups, |built|, env);
    hide Fresh, EtcdHosts, ControlHosts, Keys, Elements, Members, Unique, Workers;
  }

  /** Host number `i`, counted from zero, of a new inventory is an etcd member if and only if it is among the
      first three, or the first if there are not three. */
  lemma EtcdMembersAt(built: Dict<Opts>, env: Env, i: nat)
    requires Unique(built) && i < |built|
    ensures built[i].0 in Members(Fresh(built, env).groups, "etcd") <==> i < (if |built| >= 3 then 3 else 1)
  {
    FreshMembers(built, env);
    InSlice(built, 0, EtcdCount(built), i);
  }

  /** It is a control plane host if and only if it is among the first ones, from the first threshold on among
      those that follow the etcd members. */
  lemma ControlMembersAt(built: Dict<Opts>, env: Env, i: nat)
    requires Unique(built) && i < |built|
    ensures var first := if |built| < env.scale then 0 else if |built| >= 3 then 3 else 1;
            built[i].0 in Members(Fresh(built, env).groups, "kube_control_plane") <==>
              first <= i < first + env.controlHosts
  {
    hide *;
    var first := if |built| < env.scale then 0 else if |built| >= 3 then 3 else 1;
    FreshMembers(built, env);
    ControlIsSlice(built, env, first);
    InSlice(built, first, first + env.controlHosts, i);
  }

  /** It is a worker unless it is one of these etcd members from the first threshold on, or one of these control
      plane hosts from the second on. */
  lemma WorkersAt(built: Dict<Opts>, env: Env, i: nat)
    requires Unique(built) && i < |built|
    ensures var etcd := if |built| >= 3 then 3 else 1;
            var first := if |built| < env.scale then 0 else etcd;
            built[i].0 in Members(Fresh(built, env).groups, "kube_node") <==>
              !(|built| >= env.scale && i < etcd) && !(|built| >= env.massive && first <= i < first + env.controlHosts)
  {
    EtcdMembersAt(built, env, i);
    ControlMembersAt(built, env, i);
    FreshMembers(built, env);
    assert built[i].0 in Keys(built);
    hide Fresh, Members, Keys, Unique;
  }

  /** And it is a route reflector if and only if it is one of these etcd members, from the first threshold on, and
      not called like the key of a group. */
  lemma RouteReflectorsAt(built: Dict<Opts>, env: Env, i: nat)
    requires Unique(built) && i < |built|
    ensures built[i].0 in Members(Fresh(built, env).groups, "calico_rr") <==>
              |built| >= env.scale && i < (if |built| >= 3 then 3 else 1) && built[i].0 != "hosts"
  {
    var empty := Config([], WithGroups(map[], PROTECTED - {"all"}));
    assert Members(empty.groups, "calico_rr") == {};
    MembersAfter(empty, built, env, "calico_rr");
    InSlice(built, 0, EtcdCount(built), i);
    hide Regrouped, Elements, Unique;
  }

  lemma ControlIsSlice(built: Dict<Opts>, env: Env, first: nat)
    requires first == if |built| < env.scale then 0 else if |built| >= 3 then 3 else 1
    ensures ControlHosts(built, env) == Slice(Names(built), first, first + env.controlHosts)
  {
  }

  lemma InSlice(built: Dict<Opts>, low: nat, high: nat, i: nat)
    requires Unique(built) && i < |built| && low <= high
    ensures built[i].0 in Elements(Slice(Names(built), low, high)) <==> low <= i < high
  {
    var s := Slice(Names(built), low, high);
    if low <= i < high {
      assert s[i - low] == built[i].0;
    }
    if built[i].0 in s {
      var j :| 0 <= j < |s| && s[j] == built[i].0;
      assert Names(built)[low + j] == built[low + j].0;
    }
  }

  // ---------------------------------------------------------------- etcd over time

  lemma LeadersMeet(built: Dict<Opts>, env: Env)
    requires Unique(built) && built != []
    ensures Elements(EtcdHosts(built)) !! Elements(ControlHosts(built, env)) <==>
              |built| >= env.scale || env.controlHosts == 0
    ensures Elements(EtcdHosts(built)) * Keys(built) != {}
  {
    LeadersApart(built, env);
    NewHostsAreBuilt(built, env);
    assert Names(built)[0] in Elements(EtcdHosts(built)) * Keys(built);
    assert env.controlHosts > 0 && |built| < env.scale ==> Names(built)[0] in Elements(ControlHosts(built, env));
  }

  /** With earlier hosts kept: etcd shares no host with the workers if and only if the first threshold is
      reached (or, with the thresholds the other way round, the second, and all built etcd members are in the
      control plane) and no etcd member, kept or new, is kept as a worker from before; and none with the
      control plane if and only if no kept or new member of one is a kept or new member of the other. */
  lemma EtcdIsApartExactly(c: Config, built: Dict<Opts>, env: Env)
    requires Unique(built) && built != []
    ensures var after, left := Regrouped(c, built, env), Keys(built) + PROTECTED;
            var etcd := Members(c.groups, "etcd") * left + Elements(EtcdHosts(built));
            Members(after.groups, "etcd") !! Members(after.groups, "kube_node") <==>
              && etcd !! Members(c.groups, "kube_node") * left
              && (|after.hosts| >= env.scale
                  || (|after.hosts| >= env.massive
                      && etcd * Keys(built) <= Members(after.groups, "kube_control_plane")))
    ensures var after, left := Regrouped(c, built, env), Keys(built) + PROTECTED;
            var etcd := Members(c.groups, "etcd") * left + Elements(EtcdHosts(built));
            Members(after.groups, "etcd") !! Members(after.groups, "kube_control_plane") <==>
              && (|built| >= env.scale || env.controlHosts == 0)
              && etcd !! Members(c.groups, "kube_control_plane") * left
              && Members(c.groups, "etcd") * left !! Elements(ControlHosts(built, env))
  {
    hide Regrouped, EtcdHosts, ControlHosts, Elements, Keys, Members, Unique;
    MembersAfter(c, built, env, "etcd");
    MembersAfter(c, built, env, "kube_node");
    MembersAfter(c, built, env, "kube_control_plane");
    LeadersMeet(built, env);
  }

  lemma EtcdAfter(c: Config, built: Dict<Opts>, env: Env)
    ensures Members(Regrouped(c, built, env).groups, "etcd")
         == Members(c.groups, "etcd") * (Keys(built) + PROTECTED) + Elements(EtcdHosts(built))
  {
    MembersAfter(c, built, env, "etcd");
  }

  /** After a run etcd is what a new inventory of the same hosts would have if and only if every earlier
      member that is built again, or protected, is among the first hosts again. */
  lemma EtcdIsNewExactly(c: Config, built: Dict<Opts>, env: Env)
    requires Unique(built)
    ensures Members(Regrouped(c, built, env).groups, "etcd") == Members(Fresh(built, env).groups, "etcd")
       <==> Members(c.groups, "etcd") * (Keys(built) + PROTECTED) <= Elements(EtcdHosts(built))
  {
    EtcdAfter(c, built, env);
    FreshMembers(built, env);
  }

  /** When the first of three etcd members is deleted, the other two stay, although a new inventory of
      two hosts has one. */
  lemma TwoOfThreeStay(c: Config, x: (string, Opts), y: (string, Opts), z: (string, Opts), env: Env)
    requires x.0 != y.0 && x.0 != z.0 && y.0 != z.0 && x.0 !in PROTECTED
    requires Members(c.groups, "etcd") == Elements(EtcdHosts([x, y, z]))
    ensures Members(Regrouped(c, [y, z], env).groups, "etcd") == {y.0, z.0}
    ensures Members(Fresh([y, z], env).groups, "etcd") == {y.0}
  {
    FirstNames(x, y, z);
    EtcdAfter(c, [y, z], env);
    assert Unique([y, z]);
    FreshMembers([y, z], env);
    TwoAreLeft(x.0, y.0, z.0, PROTECTED);
  }

  lemma TwoAreLeft(a: string, b: string, c: string, others: set<string>)
    requires a != b && a != c && a !in others
    ensures {a, b, c} * ({b, c} + others) + {b} == {b, c}
  {
  }

  lemma FirstNames(a: (string, Opts), b: (string, Opts), c: (string, Opts))
    ensures Elements(EtcdHosts([a, b, c])) == {a.0, b.0, c.0}
    ensures Elements(EtcdHosts([b, c])) == {b.0}
    ensures Keys([b, c]) == {b.0, c.0}
  {
    assert EtcdHosts([a, b, c]) == [a.0, b.0, c.0] && EtcdHosts([b, c]) == [b.0];
    assert [b, c][0].0 == b.0 && [b, c][1].0 == c.0;
  }
}
