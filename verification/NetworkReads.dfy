/** ListNetworks against GetNetwork, and the four ways to select a subnet. */
module NetworkReads {
  import opened Cidr
  import opened Kube
  import opened NetworkLabels
  import opened Networks
  import opened KubeOvnCreate

  // ---------- ListNetworks ----------

  /** The ids that ListNetworks finds for these names in its index of all managed subnets. */
  ghost predicate Indexed(objs: Objects, names: seq<string>, ids: seq<Uid>) {
    && |ids| == |names|
    && forall i :: 0 <= i < |names| ==>
         Visible(objs, SubnetKey(names[i])) && ids[i] == objs[SubnetKey(names[i])].uid
  }

  /** An entry of the list, made from the network at `k`. */
  ghost predicate IsEntry(objs: Objects, status: Status, k: Key, n: Net) {
    Visible(objs, k) && Indexed(objs, StatusOf(status, k), n.subnetIds) && ToNetwork(k, objs[k], n.subnetIds) == Ok(n)
  }

  /** Every managed subnet's UID by name. */
  ghost predicate IsIndex(objs: Objects, index: map<string, Uid>) {
    forall n :: (n in index <==> Visible(objs, SubnetKey(n))) && (n in index ==> index[n] == objs[SubnetKey(n)].uid)
  }

  method IndexSubnets(c: Cluster, keys: seq<Key>) returns (index: map<string, Uid>)
    requires IsListing(c.objs, Subnet, keys)
    ensures IsIndex(c.objs, index)
  {
    index := map[];
    for i := 0 to |keys|
      invariant forall n :: n in index <==> SubnetKey(n) in keys[..i]
      invariant forall n :: n in index ==> SubnetKey(n) in c.objs && index[n] == c.objs[SubnetKey(n)].uid
    {
      index := index[keys[i].name := c.objs[keys[i]].uid];
      assert keys[..i + 1] == keys[..i] + [keys[i]];
      assert keys[i] == SubnetKey(keys[i].name);
    }
    assert keys[..|keys|] == keys;
  }

  method ResolveSubnetIds(c: Cluster, index: map<string, Uid>, names: seq<string>) returns (r: Result<seq<Uid>>)
    requires IsIndex(c.objs, index)
    ensures r.Ok? ==> Indexed(c.objs, names, r.value)
    ensures r.Error? ==> r.err == NotFound && exists n :: n in names && !Visible(c.objs, SubnetKey(n))
  {
    var ids: seq<Uid> := [];
    for i := 0 to |names|
      invariant Indexed(c.objs, names[..i], ids)
    {
      if names[i] !in index { return Error(NotFound); }
      ids := ids + [index[names[i]]];
    }
    r := Ok(ids);
  }

  /** Every subnet the network lists is a managed subnet. */
  ghost predicate Resolves(objs: Objects, status: Status, k: Key) {
    forall n :: n in StatusOf(status, k) ==> Visible(objs, SubnetKey(n))
  }

  method Entries(c: Cluster, index: map<string, Uid>, keys: seq<Key>) returns (r: Result<seq<Net>>)
    requires IsIndex(c.objs, index) && c.Valid()
    requires forall i :: 0 <= i < |keys| ==> Visible(c.objs, keys[i])
    ensures r.Error? ==> exists i :: 0 <= i < |keys| && !Resolves(c.objs, c.status, keys[i])
    ensures r.Ok? ==> |r.value| == |keys|
    ensures r.Ok? ==> forall i :: 0 <= i < |keys| ==> IsEntry(c.objs, c.status, keys[i], r.value[i])
  {
    var nets: seq<Net> := [];
    for i := 0 to |keys|
      invariant |nets| == i
      invariant forall h :: 0 <= h < i ==> IsEntry(c.objs, c.status, keys[h], nets[h])
    {
      var ids := ResolveSubnetIds(c, index, StatusOf(c.status, keys[i]));
      if ids.Error? { return Error(ids.err); }
      // a network that is visible always converts
      nets := nets + [ToNetwork(keys[i], c.objs[keys[i]], ids.value).value];
    }
    r := Ok(nets);
  }

  lemma ListingsJoin(objs: Objects, vpcs: seq<Key>, vlans: seq<Key>)
    requires IsListing(objs, Vpc, vpcs) && IsListing(objs, Vlan, vlans)
    ensures NoDup(vpcs + vlans)
    ensures forall k :: k in vpcs + vlans <==> IsNetworkKey(k) && Visible(objs, k)
  {
    var all := vpcs + vlans;
    forall i, j | 0 <= i < j < |all| ensures all[i] != all[j] {
      assert i < |vpcs| <= j ==> all[i].kind != all[j].kind;
    }
  }

  /** ListNetworks: every managed Vpc and Vlan exactly once, resolved from one index of subnets. */
  method ListNetworks(c: Cluster) returns (r: Result<seq<Net>>, ghost keys: seq<Key>)
    requires c.Valid()
    modifies c`faults
    ensures r.Error? && c.faults == old(c.faults) ==>
              exists k :: IsNetworkKey(k) && Visible(c.objs, k) && !Resolves(c.objs, c.status, k)
    ensures r.Ok? ==>
              && |r.value| == |keys| && NoDup(keys)
              && (forall k :: k in keys <==> IsNetworkKey(k) && Visible(c.objs, k))
              && forall i :: 0 <= i < |keys| ==> IsEntry(c.objs, c.status, keys[i], r.value[i])
  {
    keys := [];
    var vpcs := c.List(Vpc);
    if vpcs.Error? { return Error(vpcs.err), keys; }
    var vlans := c.List(Vlan);
    if vlans.Error? { return Error(vlans.err), keys; }
    var subnets := c.List(Subnet);
    if subnets.Error? { return Error(subnets.err), keys; }
    var index := IndexSubnets(c, subnets.value);
    keys := vpcs.value + vlans.value;
    ListingsJoin(c.objs, vpcs.value, vlans.value);
    r := Entries(c, index, vpcs.value + vlans.value);
  }

  /** GetNetwork by UID reads the network with that UID, Vpc or Vlan. */
  lemma ByUidIsAt(objs: Objects, used: set<Uid>, status: Status, k: Key)
    requires UidsOk(objs, used) && IsNetworkKey(k) && Visible(objs, k)
    ensures NetworkAt(objs, status, k).Ok? ==> NetworkBy(objs, status, ByUid(objs[k].uid)) == NetworkAt(objs, status, k)
    ensures NetworkBy(objs, status, ByUid(objs[k].uid)).Ok? ==> NetworkAt(objs, status, k).Ok?
  {
    FindUidUnique(objs, used, k.kind, k);
    if k.kind == Vlan {
      assert FindUid(objs, Vpc, objs[k].uid).None?;
    } else {
      assert FindUid(objs, Vlan, objs[k].uid).None?;
    }
  }

  /** ListNetworks refines GetNetwork: an entry equals GetNetwork by that UID whenever the latter
      succeeds, which it does exactly when every subnet the network lists converts. */
  lemma EntryRefinesGet(objs: Objects, used: set<Uid>, status: Status, k: Key, n: Net)
    requires UidsOk(objs, used) && IsNetworkKey(k) && IsEntry(objs, status, k, n)
    ensures n.id == objs[k].uid
    ensures NetworkBy(objs, status, ByUid(n.id)).Ok? ==> NetworkBy(objs, status, ByUid(n.id)) == Ok(n)
    ensures NetworkBy(objs, status, ByUid(n.id)).Ok? <==>
            forall s :: s in StatusOf(status, k) ==> SubnetByName(objs, s).Ok?
  {
    var names := StatusOf(status, k);
    SubnetIdsOf(objs, names);
    ByUidIsAt(objs, used, status, k);
    if SubnetIds(objs, names).Ok? {
      assert SubnetIds(objs, names).value == n.subnetIds;
    }
  }

  // ---------- the four selectors ----------

  predicate Holds(s: Sub, netId: Uid, ip: Option<Ip>) {
    s.networkId == Some(netId) && ip.Some? && Contains(s.cidr, ip.value)
  }

  ghost predicate AllConvert(objs: Objects) {
    forall n :: Visible(objs, SubnetKey(n)) ==> SubnetByName(objs, n).Ok?
  }

  /** The managed subnets all convert and all have a network. */
  ghost predicate AllNetworked(objs: Objects) {
    forall n :: Visible(objs, SubnetKey(n)) ==>
      SubnetByName(objs, n).Ok? && SubnetByName(objs, n).value.networkId.Some?
  }

  /** What GetSubnet by network and address can answer, in whatever order the subnets are listed. */
  ghost predicate IpAnswer(objs: Objects, netId: Uid, ip: Option<Ip>, r: Result<Sub>, lost: bool) {
    match r
    case Ok(s) =>
      && !lost && AllConvert(objs)
      && exists n :: Visible(objs, SubnetKey(n)) && SubnetByName(objs, n) == Ok(s) && Holds(s, netId, ip)
    case Error(NotFound) =>
      && !lost && AllNetworked(objs)
      && forall n :: Visible(objs, SubnetKey(n)) ==> !Holds(SubnetByName(objs, n).value, netId, ip)
    case Error(Fault) => lost
    case Error(Panic) => !lost && AllConvert(objs) && !AllNetworked(objs)
    case Error(e) => !lost && exists n :: Visible(objs, SubnetKey(n)) && SubnetByName(objs, n) == Error(e)
  }

  /** Where no subnet holds the address, the answer is a nil dereference exactly when one of them has
      no network, and not found exactly when all have one. */
  lemma PanicsIff(objs: Objects, netId: Uid, ip: Option<Ip>, r: Result<Sub>)
    requires IpAnswer(objs, netId, ip, r, false) && AllConvert(objs)
    requires forall n :: Visible(objs, SubnetKey(n)) ==> !Holds(SubnetByName(objs, n).value, netId, ip)
    ensures r == Error(Panic) <==> !AllNetworked(objs)
    ensures r == Error(NotFound) <==> AllNetworked(objs)
  {
  }

  /** Such a store is one CreateSubnet without a network id away. */
  lemma UnattachedIsNotNetworked(before: Objects, after: Objects, name: string, data: SubnetData)
    requires Added(before, after, name, data, None)
    ensures !AllNetworked(after)
  {
    CreatedSubnetConverts(before, after, name, data, None);
    assert Visible(after, SubnetKey(name));
  }

  /** GetSubnet by network and address: convert every managed subnet, then the first match. A
      subnet without a network that is met on the way is a nil dereference. */
  method ReadSubnetByIp(c: Cluster, netId: Uid, ip: Option<Ip>) returns (r: Result<Sub>)
    modifies c`faults
    ensures IpAnswer(c.objs, netId, ip, r, c.faults > old(c.faults)) && c.faults >= old(c.faults)
  {
    var list := c.List(Subnet);
    if list.Error? { return Error(list.err); }
    var keys := list.value;
    var subs: seq<Sub> := [];
    for i := 0 to |keys|
      invariant |subs| == i
      invariant forall h :: 0 <= h < i ==> SubnetByName(c.objs, keys[h].name) == Ok(subs[h])
    {
      assert keys[i] == SubnetKey(keys[i].name);
      var s := ToSubnet(c.objs[keys[i]]);
      if s.Error? { return Error(s.err); }
      subs := subs + [s.value];
    }
    for i := 0 to |subs|
      invariant forall h :: 0 <= h < i ==> subs[h].networkId.Some? && !Holds(subs[h], netId, ip)
    {
      assert keys[i] == SubnetKey(keys[i].name);
      if subs[i].networkId.None? {
        return Error(Panic);
      }
      if Holds(subs[i], netId, ip) {
        return Ok(subs[i]);
      }
    }
    forall n | Visible(c.objs, SubnetKey(n))
      ensures SubnetByName(c.objs, n).Ok? && SubnetByName(c.objs, n).value.networkId.Some?
      ensures !Holds(SubnetByName(c.objs, n).value, netId, ip)
    {
      var i :| 0 <= i < |keys| && keys[i] == SubnetKey(n);
    }
    r := Error(NotFound);
  }

  /** The subnets of one network do not overlap. */
  ghost predicate NoOverlap(objs: Objects, netId: Uid) {
    forall m, n :: m != n && Visible(objs, SubnetKey(m)) && Visible(objs, SubnetKey(n))
                   && SubnetByName(objs, m).Ok? && SubnetByName(objs, n).Ok?
                   && SubnetByName(objs, m).value.networkId == Some(netId) == SubnetByName(objs, n).value.networkId
                   ==> Disjoint(SubnetByName(objs, m).value.cidr, SubnetByName(objs, n).value.cidr)
  }

  /** Where the subnets of a network do not overlap, the address decides the subnet, and the order
      of the listing does not matter. */
  lemma AddressDecides(objs: Objects, netId: Uid, ip: Ip, n: string, r: Result<Sub>)
    requires AllNetworked(objs) && NoOverlap(objs, netId) && Visible(objs, SubnetKey(n))
    requires Holds(SubnetByName(objs, n).value, netId, Some(ip))
    requires IpAnswer(objs, netId, Some(ip), r, false)
    ensures r == SubnetByName(objs, n)
  {
    if r.Ok? {
      var m :| Visible(objs, SubnetKey(m)) && SubnetByName(objs, m) == r && Holds(r.value, netId, Some(ip));
      if m != n {
        DisjointShareNothing(r.value.cidr, SubnetByName(objs, n).value.cidr, ip);
      }
    }
  }

  lemma AddedIsNetworked(before: Objects, after: Objects, name: string, data: SubnetData, net: Net)
    requires Added(before, after, name, data, Some(net)) && AllNetworked(before) && net.id != ""
    ensures AllNetworked(after)
  {
    CreatedSubnetConverts(before, after, name, data, Some(net));
    forall n | Visible(after, SubnetKey(n)) && n != name
      ensures SubnetByName(after, n).Ok? && SubnetByName(after, n).value.networkId.Some?
    {
      assert SubnetByName(after, n) == SubnetByName(before, n);
    }
  }

  /** What a created subnet reads as. */
  lemma CreatedReads(before: Objects, after: Objects, name: string, data: SubnetData, net: Net)
    requires Added(before, after, name, data, Some(net)) && net.id != ""
    ensures var s := ToSubnet(after[SubnetKey(name)]);
            && s.Ok? && s.value.networkId == Some(net.id) && s.value.cidr == data.cidr.value
            && s.value.id == after[SubnetKey(name)].uid
    ensures Visible(after, SubnetKey(name)) && Visible(after, NadKey(name))
    ensures SubnetName in after[NadKey(name)].labels && after[NadKey(name)].labels[SubnetName] == name
  {
    CreatedSubnetConverts(before, after, name, data, Some(net));
  }

  /** A created subnet reads back as asked for: IP version, DHCP (on unless switched off), gateway if one
      is given, block, and the type of its network. */
  lemma CreatedAsAsked(before: Objects, after: Objects, name: string, data: SubnetData, net: Option<Net>)
    requires Added(before, after, name, data, net)
    ensures ToSubnet(after[SubnetKey(name)]).Ok?
    ensures var s := ToSubnet(after[SubnetKey(name)]).value;
            && (s.protocol == "IPv4" <==> data.ipVersion == Some(V4))
            && (s.protocol == "IPv6" <==> data.ipVersion == Some(V6))
            && (s.dhcp <==> data.dhcp != Some(false))
            && s.gateway == (if data.gateway.Some? && data.gateway.value.Some? then data.gateway.value.value else "")
            && Some(s.cidr) == data.cidr
            && Label(s.labels, SubnetName) == name && Label(s.labels, SubnetNetAttach) == name + "-netattach"
            && (NetworkType in s.labels <==> net.Some?)
            && (net.Some? ==>
                  s.labels[NetworkType] ==
                  if net.value.kind == Vpc then "NETWORK_TYPE_OVERLAY" else "NETWORK_TYPE_UNDERLAY")
  {
    CreatedSubnetConverts(before, after, name, data, net);
  }

  lemma ThreeSelectorsAgree(before: Objects, after: Objects, used: set<Uid>, name: string, data: SubnetData, net: Net)
    requires UidsOk(after, used) && Added(before, after, name, data, Some(net)) && net.id != ""
    ensures var s := ToSubnet(after[SubnetKey(name)]);
            && s.Ok? && s.value.networkId == Some(net.id) && s.value.cidr == data.cidr.value
            && SubnetByName(after, name) == s
            && SubnetByUid(after, s.value.id) == s
            && SubnetByNad(after, NadName(name)) == s
  {
    CreatedReads(before, after, name, data, net);
    FindUidUnique(after, used, Subnet, SubnetKey(name));
  }

  lemma NetworkIdIsSet(objs: Objects, used: set<Uid>, status: Status, q: NetQuery)
    requires UidsOk(objs, used) && NetworkBy(objs, status, q).Ok?
    ensures NetworkBy(objs, status, q).value.id != ""
  {
    NetworkFound(objs, status, q);
  }

  /** After CreateSubnet under a network, all four selectors return the created subnet: by name, by
      UID, by NAD, and by network and any address in its block, whatever the listing order. */
  lemma SelectorsAgree(before: Objects, status: Status, after: Objects, used: set<Uid>, name: string, data: SubnetData,
                       net: Net, ip: Ip, byIp: Result<Sub>)
    requires UidsOk(before, used) && UidsOk(after, used) && Added(before, after, name, data, Some(net))
    requires NetworkBy(before, status, QueryFor(data.networkId)) == Ok(net)
    requires AllNetworked(before) && NoOverlap(after, net.id) && Contains(data.cidr.value, ip)
    requires IpAnswer(after, net.id, Some(ip), byIp, false)
    ensures var s := ToSubnet(after[SubnetKey(name)]);
            && s.Ok? && s.value.networkId == Some(net.id)
            && SubnetByName(after, name) == s
            && SubnetByUid(after, s.value.id) == s
            && SubnetByNad(after, NadName(name)) == s
            && byIp == s
  {
    NetworkIdIsSet(before, used, status, QueryFor(data.networkId));
    ThreeSelectorsAgree(before, after, used, name, data, net);
    AddedIsNetworked(before, after, name, data, net);
    AddressDecides(after, net.id, ip, name, byIp);
  }
}
