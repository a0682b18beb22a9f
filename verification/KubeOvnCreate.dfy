/** CreateSubnet and CreateNetwork, with their roll-backs. */
module KubeOvnCreate {
  import opened Cidr
  import opened Kube
  import opened NetworkLabels
  import opened Networks
  import opened KubeOvn

  datatype IpVersion = V4 | V6 | OtherVersion

  /** vivnfm.NetworkSubnetData. `cidr` is absent when missing or not parseable; a gateway that
      does not parse is `Some(None)`. */
  datatype SubnetData = SubnetData(networkId: string, ipVersion: Option<IpVersion>, dhcp: Option<bool>,
                                   cidr: Option<Prefix>, gateway: Option<Option<string>>)

  datatype NetworkData = NetworkData(kind: Option<Kind>, provider: Option<string>, segmentation: Option<nat>,
                                     attributes: seq<SubnetData>)

  // ---------- what a new subnet looks like ----------

  function SubnetSpecFor(name: string, data: SubnetData): Result<Spec> {
    if name == "" || data.ipVersion.None? then Error(InvalidArgument)
    else if data.ipVersion.value == OtherVersion then Error(Unsupported)
    else if data.cidr.None? || data.gateway == Some(None) then Error(InvalidArgument)
    else
      Ok(SubnetSpec(if data.ipVersion.value == V4 then "IPv4" else "IPv6",
                    data.dhcp.None? || data.dhcp.value,
                    data.cidr.value,
                    if data.gateway.Some? then data.gateway.value.value else "", "", ""))
  }

  function Attach(spec: Spec, net: Option<Net>): Spec
    requires spec.SubnetSpec?
  {
    if net.None? then spec
    else if net.value.kind == Vpc then spec.(vpc := net.value.name)
    else spec.(vlan := net.value.name)
  }

  function SubnetLabels(name: string, net: Option<Net>): Labels {
    map[ManagedBy := KUBE_NFV, SubnetName := name, SubnetNetAttach := NadName(name)] +
    if net.None? then map[]
    else map[NetworkName := net.value.name, NetworkId := net.value.id, NetworkType := TypeLabel(net.value.kind)]
  }

  function NadLabels(name: string): Labels {
    map[ManagedBy := KUBE_NFV, SubnetName := name]
  }

  function QueryFor(networkId: string): NetQuery {
    if IsUuid(networkId) then ByUid(networkId) else ByName(networkId)
  }

  /** `after` is `before` plus one subnet and its NAD. */
  ghost predicate Added(before: Objects, after: Objects, name: string, data: SubnetData, net: Option<Net>) {
    && SubnetKey(name) !in before && NadKey(name) !in before
    && SubnetKey(name) in after && NadKey(name) in after
    && after == before[NadKey(name) := after[NadKey(name)]][SubnetKey(name) := after[SubnetKey(name)]]
    && after[NadKey(name)].labels == NadLabels(name)
    && after[SubnetKey(name)].labels == SubnetLabels(name, net)
    && SubnetSpecFor(name, data).Ok?
    && after[SubnetKey(name)].spec == Attach(SubnetSpecFor(name, data).value, net)
  }

  /** A created subnet always converts: the branch that would delete it again is never taken. */
  lemma CreatedSubnetConverts(before: Objects, after: Objects, name: string, data: SubnetData, net: Option<Net>)
    requires Added(before, after, name, data, net)
    ensures ToSubnet(after[SubnetKey(name)]).Ok?
    ensures SubnetOk(after, name)
  {
  }

  lemma AddedKeepsLabels(before: Objects, after: Objects, name: string, data: SubnetData, net: Option<Net>)
    requires LabelInv(before) && Added(before, after, name, data, net)
    ensures LabelInv(after)
  {
    forall n ensures SubnetOk(after, n) {
      if n == name {
        CreatedSubnetConverts(before, after, name, data, net);
      } else {
        assert SubnetOk(before, n);
      }
    }
  }

  lemma AddedRefOk(before: Objects, status: Status, after: Objects, name: string, data: SubnetData, net: Option<Net>)
    requires Added(before, after, name, data, net)
    requires net.Some? ==> NetworkBy(before, status, QueryFor(data.networkId)) == Ok(net.value)
    ensures RefOk(after, name)
  {
    if net.Some? { NetworkFound(before, status, QueryFor(data.networkId)); }
  }

  lemma AddedKeepsRefs(before: Objects, status: Status, after: Objects, name: string, data: SubnetData,
                       net: Option<Net>)
    requires RefInv(before) && Added(before, after, name, data, net)
    requires net.Some? ==> NetworkBy(before, status, QueryFor(data.networkId)) == Ok(net.value)
    ensures RefInv(after)
  {
    forall n ensures RefOk(after, n) {
      if n == name {
        AddedRefOk(before, status, after, name, data, net);
      } else {
        assert RefOk(before, n);
      }
    }
  }

  // ---------- CreateSubnet ----------

  /** The NAD is there and the subnet is not: the clean-up after a failed create failed too. */
  ghost predicate OnlyNadAdded(before: Objects, after: Objects, name: string) {
    NadKey(name) !in before && NadKey(name) in after && after == before[NadKey(name) := after[NadKey(name)]]
  }

  /** A pair is refused when either of its names is taken. */
  function Taken(objs: Objects, name: string): Option<Err> {
    if NadKey(name) in objs || SubnetKey(name) in objs then Some(AlreadyExists) else None
  }

  /** Create the NAD, then the Subnet; on failure of the latter delete the NAD again. */
  method CreatePair(c: Cluster, name: string, data: SubnetData, net: Option<Net>)
    returns (r: Result<Obj>, orphaned: bool)
    requires c.Valid() && SubnetSpecFor(name, data).Ok?
    modifies c`objs, c`used, c`faults
    ensures c.Valid() && c.faults >= old(c.faults)
    ensures r.Ok? ==>
              && Added(old(c.objs), c.objs, name, data, net) && r.value == c.objs[SubnetKey(name)]
              && c.faults == old(c.faults) && !orphaned
    ensures r.Error? && !orphaned ==> c.objs == old(c.objs)
    ensures orphaned ==> OnlyNadAdded(old(c.objs), c.objs, name) && c.faults > old(c.faults)
    ensures Follows(r, Taken(old(c.objs), name), c.faults > old(c.faults))
  {
    orphaned := false;
    var nad := c.Create(NadKey(name), NadLabels(name), map[], NadSpec(NadName(name)));
    if nad.Error? { return Error(nad.err), false; }
    r := c.Create(SubnetKey(name), SubnetLabels(name, net), map[], Attach(SubnetSpecFor(name, data).value, net));
    if r.Error? {
      RemoveAdded(old(c.objs), NadKey(name), nad.value);
      var cleaned := c.Delete(NadKey(name));
      orphaned := cleaned.Error?;
    }
  }

  lemma RemoveAdded(objs: Objects, k: Key, o: Obj)
    requires k !in objs
    ensures objs[k := o] - {k} == objs
  {
  }

  lemma OnlyNadKeepsInvariants(before: Objects, after: Objects, name: string)
    requires OnlyNadAdded(before, after, name)
    ensures LabelInv(before) ==> LabelInv(after)
    ensures RefInv(before) ==> RefInv(after)
  {
    if LabelInv(before) {
      forall n ensures SubnetOk(after, n) { assert SubnetOk(before, n); }
    }
    if RefInv(before) {
      forall n ensures RefOk(after, n) { assert RefOk(before, n); }
    }
  }

  /** Why CreateSubnet refuses: the network named is not found, the data is bad, or a name is taken. */
  ghost function SubnetRefusal(objs: Objects, status: Status, name: string, data: SubnetData): Option<Err> {
    var found := NetworkBy(objs, status, QueryFor(data.networkId));
    if data.networkId != "" && found.Error? then Some(found.err)
    else if SubnetSpecFor(name, data).Error? then Some(SubnetSpecFor(name, data).err)
    else Taken(objs, name)
  }

  /** How CreateSubnet can end. */
  ghost predicate SubnetCreation(r: Result<Sub>, name: string, data: SubnetData, before: Objects, status: Status,
                                 after: Objects, net: Option<Net>, orphaned: bool) {
    && (net.Some? ==> data.networkId != "" && NetworkBy(before, status, QueryFor(data.networkId)) == Ok(net.value))
    && if r.Ok? then
         && !orphaned && (net.Some? <==> data.networkId != "")
         && Added(before, after, name, data, net) && ToSubnet(after[SubnetKey(name)]) == r
       else if orphaned then OnlyNadAdded(before, after, name)
       else after == before
  }

  /** CreateSubnet: look up the network if one is named, then create the pair. `orphaned` says
      that the pair's clean-up failed as well. */
  method CreateSubnet(c: Cluster, name: string, data: SubnetData)
    returns (r: Result<Sub>, ghost net: Option<Net>, ghost orphaned: bool)
    requires c.Valid() && LabelInv(c.objs)
    modifies c
    ensures c.Valid() && LabelInv(c.objs)
    ensures c.faults >= old(c.faults) && (r.Ok? ==> c.faults == old(c.faults))
    ensures orphaned ==> c.faults > old(c.faults)
    ensures Distinct(c.status)
    ensures SubnetCreation(r, name, data, old(c.objs), c.status, c.objs, net, orphaned)
    ensures Follows(r, SubnetRefusal(old(c.objs), c.status, name, data), c.faults > old(c.faults))
  {
    net, orphaned := None, false;
    ghost var before := c.objs;
    Controller(c);
    var vnet: Option<Net> := None;
    if data.networkId != "" {
      var n := ReadNetwork(c, QueryFor(data.networkId));
      if n.Error? { return Error(n.err), None, false; }
      vnet := Some(n.value);
    }
    net := vnet;
    var spec := SubnetSpecFor(name, data);
    if spec.Error? { return Error(spec.err), net, false; }
    var o, left := CreatePair(c, name, data, vnet);
    orphaned := left;
    if orphaned { OnlyNadKeepsInvariants(before, c.objs, name); }
    if o.Error? { return Error(o.err), net, orphaned; }
    AddedKeepsLabels(before, c.objs, name, data, vnet);
    CreatedSubnetConverts(before, c.objs, name, data, vnet);
    r := ToSubnet(o.value);
  }

  /** Whatever way CreateSubnet ends, every reference stays good. */
  lemma CreateSubnetKeepsRefs(r: Result<Sub>, name: string, data: SubnetData, before: Objects, status: Status,
                              after: Objects, net: Option<Net>, orphaned: bool)
    requires RefInv(before) && SubnetCreation(r, name, data, before, status, after, net, orphaned)
    ensures RefInv(after)
  {
    if r.Ok? {
      AddedKeepsRefs(before, status, after, name, data, net);
    } else if orphaned {
      OnlyNadKeepsInvariants(before, after, name);
    }
  }

  // ---------- allocateL3Attributes ----------

  function Digit(d: nat): char
    requires d < 10
  {
    "0123456789"[d]
  }

  function Itoa(n: nat): string {
    if n < 10 then [Digit(n)] else Itoa(n / 10) + [Digit(n % 10)]
  }

  function SubnetNameFor(network: string, i: nat): string {
    network + "-subnet-" + Itoa(i)
  }

  /** The number a decimal text stands for. */
  function Atoi(s: string): int {
    if s == "" then 0 else 10 * Atoi(s[..|s| - 1]) + (s[|s| - 1] as int - '0' as int)
  }

  lemma {:induction false} ItoaIsDecimal(n: nat)
    ensures Atoi(Itoa(n)) == n
    decreases n
  {
    if n < 10 {
      assert Itoa(n)[..0] == "";
    } else {
      ItoaIsDecimal(n / 10);
      assert Itoa(n)[..|Itoa(n)| - 1] == Itoa(n / 10);
    }
  }

  /** The subnets of one network have different names. */
  lemma SubnetNamesDiffer(network: string, i: nat, j: nat)
    requires SubnetNameFor(network, i) == SubnetNameFor(network, j)
    ensures i == j
  {
    var stem := network + "-subnet-";
    assert SubnetNameFor(network, i)[|stem|..] == Itoa(i) && SubnetNameFor(network, j)[|stem|..] == Itoa(j);
    ItoaIsDecimal(i);
    ItoaIsDecimal(j);
  }

  function PairKeys(names: seq<string>): set<Key> {
    (set n | n in names :: SubnetKey(n)) + (set n | n in names :: NadKey(n))
  }

  lemma PairKeysExtends(names: seq<string>, n: string)
    ensures PairKeys(names + [n]) == PairKeys(names) + {SubnetKey(n), NadKey(n)}
  {
    var more := names + [n];
    assert n in more && SubnetKey(n) in PairKeys(more) && NadKey(n) in PairKeys(more);
    assert forall x :: x in more <==> x in names || x == n;
  }

  /** `after` is `before` plus exactly these subnets, each with its own NAD. */
  ghost predicate Grown(before: Objects, after: Objects, created: seq<string>) {
    && (forall key :: key in before ==> key in after && after[key] == before[key] && key !in PairKeys(created))
    && after.Keys == before.Keys + PairKeys(created)
    && NoDup(created)
    && forall n :: n in created ==> Visible(after, SubnetKey(n)) && NadOf(after[SubnetKey(n)]) == NadKey(n)
  }

  lemma AddedIsPaired(before: Objects, after: Objects, name: string, data: SubnetData, net: Option<Net>)
    requires Added(before, after, name, data, net)
    ensures Visible(after, SubnetKey(name)) && NadOf(after[SubnetKey(name)]) == NadKey(name)
    ensures forall k :: k in before ==> k in after && after[k] == before[k]
    ensures after.Keys == before.Keys + {SubnetKey(name), NadKey(name)}
  {
  }

  lemma GrownExtends(before: Objects, mid: Objects, after: Objects, created: seq<string>, name: string)
    requires Grown(before, mid, created) && SubnetKey(name) !in mid && NadKey(name) !in mid
    requires Visible(after, SubnetKey(name)) && NadOf(after[SubnetKey(name)]) == NadKey(name)
    requires forall k :: k in mid ==> k in after && after[k] == mid[k]
    requires after.Keys == mid.Keys + {SubnetKey(name), NadKey(name)}
    ensures Grown(before, after, created + [name])
  {
    var more := created + [name];
    PairKeysExtends(created, name);
    assert name !in created by {
      assert forall n :: n in created ==> SubnetKey(n) in mid;
    }
    assert NoDup(more) by { NoDupAppend(created, name); }
    assert after.Keys == before.Keys + PairKeys(more);
    forall key | key in before ensures key in after && after[key] == before[key] && key !in PairKeys(more) {
      assert key in mid;
    }
    forall n | n in more ensures Visible(after, SubnetKey(n)) && NadOf(after[SubnetKey(n)]) == NadKey(n) {
      assert n in created || n == name;
    }
  }

  lemma NoDupAppend(names: seq<string>, n: string)
    requires NoDup(names) && n !in names
    ensures NoDup(names + [n])
  {
  }

  /** The name resolves to this network and to nothing else. */
  predicate OnlyNetwork(objs: Objects, k: Key) {
    && IsNetworkKey(k) && k.name != "" && !IsUuid(k.name) && Visible(objs, k)
    && !Visible(objs, Key(if k.kind == Vpc then Vlan else Vpc, k.name))
  }

  predicate OwnAttributes(attributes: seq<SubnetData>) {
    forall i :: 0 <= i < |attributes| ==> attributes[i].networkId == ""
  }

  ghost predicate AllRefer(objs: Objects, k: Key, names: seq<string>) {
    forall n :: n in names ==> SubnetKey(n) in objs && Refers(objs[SubnetKey(n)], k)
  }

  /** A subnet created for `k` by name is attached to `k`. */
  lemma AddedRefers(before: Objects, status: Status, after: Objects, k: Key, name: string, data: SubnetData,
                    net: Option<Net>)
    requires OnlyNetwork(before, k) && data.networkId == k.name
    requires net.Some? && NetworkBy(before, status, QueryFor(data.networkId)) == Ok(net.value)
    requires Added(before, after, name, data, net)
    ensures Refers(after[SubnetKey(name)], k) && OnlyNetwork(after, k)
  {
    NetworkFound(before, status, QueryFor(data.networkId));
  }

  /** What one look-up of a network saw. */
  datatype Look = Look(objs: Objects, status: Status)

  /** The subnet is attached to the network that its look-up found, and to no other. */
  ghost predicate PlacedBy(o: Obj, look: Look, data: SubnetData) {
    var found := NetworkBy(look.objs, look.status, QueryFor(data.networkId));
    found.Ok? && forall k :: IsNetworkKey(k) ==> (Refers(o, k) <==> k == NetKey(found.value))
  }

  lemma AddedIsPlaced(before: Objects, status: Status, after: Objects, name: string, data: SubnetData,
                      net: Option<Net>)
    requires net.Some? && NetworkBy(before, status, QueryFor(data.networkId)) == Ok(net.value)
    requires Added(before, after, name, data, net)
    ensures PlacedBy(after[SubnetKey(name)], Look(before, status), data)
  {
    NetworkFound(before, status, QueryFor(data.networkId));
  }

  /** Each subnet is where its own look-up put it; that look-up saw the subnets made before it. */
  ghost predicate Placements(before: Objects, now: Objects, k: Key, attributes: seq<SubnetData>,
                             created: seq<string>, looks: seq<Look>) {
    && |looks| == |created| <= |attributes|
    && forall i :: 0 <= i < |created| ==>
         Placement(before, now, created[..i], created[i], looks[i], DataFor(k, attributes[i]))
  }

  ghost predicate Placement(before: Objects, now: Objects, earlier: seq<string>, name: string, look: Look,
                            data: SubnetData) {
    && SubnetKey(name) in now && PlacedBy(now[SubnetKey(name)], look, data)
    && Grown(before, look.objs, earlier) && LabelInv(look.objs) && Distinct(look.status)
  }

  lemma PlacementsNext(before: Objects, mid: Objects, after: Objects, k: Key, attributes: seq<SubnetData>,
                       created: seq<string>, looks: seq<Look>, name: string, look: Look)
    requires Placements(before, mid, k, attributes, created, looks) && |created| < |attributes|
    requires forall key :: key in mid ==> key in after && after[key] == mid[key]
    requires Placement(before, after, created, name, look, DataFor(k, attributes[|created|]))
    ensures Placements(before, after, k, attributes, created + [name], looks + [look])
  {
    var more, looks' := created + [name], looks + [look];
    forall i | 0 <= i < |more|
      ensures Placement(before, after, more[..i], more[i], looks'[i], DataFor(k, attributes[i]))
    {
      if i < |created| {
        assert more[..i] == created[..i];
        assert Placement(before, mid, created[..i], created[i], looks[i], DataFor(k, attributes[i]));
      } else {
        assert more[..i] == created;
      }
    }
  }

  /** The subnets made so far: named by index, attached to `k` if `k` is what the name means. */
  ghost predicate Progress(before: Objects, now: Objects, k: Key, attributes: seq<SubnetData>,
                           created: seq<string>, ids: seq<Uid>) {
    && Grown(before, now, created)
    && |ids| == |created| <= |attributes|
    && (forall i :: 0 <= i < |created| ==>
          && created[i] == SubnetNameFor(k.name, i)
          && SubnetKey(created[i]) in now && ids[i] == now[SubnetKey(created[i])].uid)
    && (OnlyNetwork(before, k) && OwnAttributes(attributes) ==> AllRefer(now, k, created) && OnlyNetwork(now, k))
  }

  /** An attribute that names no network gets this one. */
  function DataFor(k: Key, data: SubnetData): SubnetData {
    if data.networkId == "" then data.(networkId := k.name) else data
  }

  lemma ProgressStep(before: Objects, mid: Objects, status: Status, after: Objects, k: Key, attributes: seq<SubnetData>,
                     created: seq<string>, ids: seq<Uid>, s: Result<Sub>, net: Option<Net>)
    requires Progress(before, mid, k, attributes, created, ids) && |created| < |attributes| && s.Ok?
    requires var i := |created|;
             SubnetCreation(s, SubnetNameFor(k.name, i), DataFor(k, attributes[i]), mid, status, after, net, false)
    ensures Progress(before, after, k, attributes, created + [SubnetNameFor(k.name, |created|)], ids + [s.value.id])
  {
    var i := |created|;
    var name, data := SubnetNameFor(k.name, i), DataFor(k, attributes[i]);
    AddedIsPaired(mid, after, name, data, net);
    GrownExtends(before, mid, after, created, name);
    if OnlyNetwork(before, k) && OwnAttributes(attributes) {
      AddedRefers(mid, status, after, k, name, data, net);
      AllReferNext(mid, after, k, created, name);
    }
  }

  lemma PlacementOf(before: Objects, mid: Objects, status: Status, after: Objects, created: seq<string>, name: string,
                    data: SubnetData, net: Option<Net>)
    requires Grown(before, mid, created) && LabelInv(mid) && Distinct(status)
    requires net.Some? && NetworkBy(mid, status, QueryFor(data.networkId)) == Ok(net.value)
    requires Added(mid, after, name, data, net)
    ensures Placement(before, after, created, name, Look(mid, status), data)
    ensures forall key :: key in mid ==> key in after && after[key] == mid[key]
  {
    AddedIsPaired(mid, after, name, data, net);
    AddedIsPlaced(mid, status, after, name, data, net);
  }

  lemma PlacementStep(before: Objects, mid: Objects, status: Status, after: Objects, k: Key,
                      attributes: seq<SubnetData>, created: seq<string>, looks: seq<Look>, s: Result<Sub>,
                      net: Option<Net>)
    requires k.name != "" && Grown(before, mid, created) && LabelInv(mid) && Distinct(status) && s.Ok?
    requires Placements(before, mid, k, attributes, created, looks) && |created| < |attributes|
    requires var i := |created|;
             SubnetCreation(s, SubnetNameFor(k.name, i), DataFor(k, attributes[i]), mid, status, after, net, false)
    ensures Placements(before, after, k, attributes, created + [SubnetNameFor(k.name, |created|)],
                       looks + [Look(mid, status)])
  {
    var i := |created|;
    var name, data := SubnetNameFor(k.name, i), DataFor(k, attributes[i]);
    assert data.networkId != "";
    PlacementOf(before, mid, status, after, created, name, data, net);
    PlacementsNext(before, mid, after, k, attributes, created, looks, name, Look(mid, status));
  }

  lemma AllReferNext(mid: Objects, after: Objects, k: Key, created: seq<string>, name: string)
    requires AllRefer(mid, k, created) && forall key :: key in mid ==> key in after && after[key] == mid[key]
    requires SubnetKey(name) in after && Refers(after[SubnetKey(name)], k)
    ensures AllRefer(after, k, created + [name])
  {
  }

  /** Why the i-th attribute is refused, if it is. */
  ghost function AttributeRefusal(objs: Objects, status: Status, k: Key, attributes: seq<SubnetData>,
                                  i: nat): Option<Err>
    requires i < |attributes|
  {
    SubnetRefusal(objs, status, SubnetNameFor(k.name, i), DataFor(k, attributes[i]))
  }

  /** The store after the pairs in `made`: the same, or with the NAD that a failed clean-up left. */
  ghost predicate WithOrphan(made: Objects, now: Objects, orphan: Option<string>) {
    if orphan.Some? then OnlyNadAdded(made, now, orphan.value) else now == made
  }

  /** allocateL3Attributes: one subnet per attribute, up to the first failure. `made` is the store
      with the pairs created, `orphan` the subnet whose NAD was left behind. */
  method AllocateL3(c: Cluster, k: Key, attributes: seq<SubnetData>)
    returns (r: Result<()>, ids: seq<Uid>,
             ghost created: seq<string>, ghost looks: seq<Look>, ghost made: Objects, ghost orphan: Option<string>)
    requires c.Valid() && LabelInv(c.objs) && k.name != ""
    modifies c
    ensures c.Valid() && LabelInv(c.objs) && (RefInv(old(c.objs)) ==> RefInv(c.objs))
    ensures c.faults >= old(c.faults) && (orphan.Some? ==> c.faults > old(c.faults))
    ensures Progress(old(c.objs), made, k, attributes, created, ids) && WithOrphan(made, c.objs, orphan)
    ensures Placements(old(c.objs), made, k, attributes, created, looks)
    ensures r.Ok? ==> |created| == |attributes| && c.faults == old(c.faults)
    ensures r.Error? ==> |created| < |attributes|
    ensures r.Error? && orphan.Some? ==> orphan.value == SubnetNameFor(k.name, |created|)
    ensures r.Error? && c.faults == old(c.faults) ==>
              AttributeRefusal(made, c.status, k, attributes, |created|) == Some(r.err)
  {
    created, looks, orphan, ids := [], [], None, [];
    ghost var before := c.objs;
    made := before;
    while |ids| < |attributes|
      invariant c.Valid() && LabelInv(c.objs) && (RefInv(before) ==> RefInv(c.objs))
      invariant c.faults == old(c.faults) && made == c.objs
      invariant Progress(before, c.objs, k, attributes, created, ids)
      invariant Placements(before, c.objs, k, attributes, created, looks)
      decreases |attributes| - |ids|
    {
      ghost var mid := c.objs;
      var name, data := SubnetNameFor(k.name, |ids|), DataFor(k, attributes[|ids|]);
      var s, net, left := CreateSubnet(c, name, data);
      if RefInv(mid) { CreateSubnetKeepsRefs(s, name, data, mid, c.status, c.objs, net, left); }
      if s.Error? {
        return Error(s.err), ids, created, looks, mid, if left then Some(name) else None;
      }
      ProgressStep(before, mid, c.status, c.objs, k, attributes, created, ids, s, net);
      PlacementStep(before, mid, c.status, c.objs, k, attributes, created, looks, s, net);
      looks := looks + [Look(mid, c.status)];
      created, ids, made := created + [name], ids + [s.value.id], c.objs;
    }
    r := Ok(());
  }

  // ---------- CreateNetwork ----------

  /** The Vpc or Vlan a request asks for; no type means overlay. */
  function NetworkSpecFor(name: string, data: NetworkData): Result<(Kind, Spec)> {
    if data.kind.None? || data.kind.value == Vpc then
      if name == "" then Error(InvalidArgument) else Ok((Vpc, VpcSpec))
    else if data.kind.value == Vlan then
      if name == "" || data.provider.None? || data.provider.value == "" then Error(InvalidArgument)
      else Ok((Vlan, VlanSpec(if data.segmentation.Some? then ToSigned(data.segmentation.value) else 0,
                              data.provider.value)))
    else Error(Unsupported)
  }

  /** Why no network is made: the data is bad, or the name is taken. */
  function NetworkRefusal(objs: Objects, name: string, data: NetworkData): Option<Err> {
    var want := NetworkSpecFor(name, data);
    if want.Error? then Some(want.err)
    else if Key(want.value.0, name) in objs then Some(AlreadyExists)
    else None
  }

  /** What happened inside a CreateNetwork call, for its contract only: the subnets created and what
      the look-up for each saw, the one whose NAD was left behind, the store when that was over and
      the listings last read; then what the roll-back returned and whether it lost a call. */
  datatype Trace = NotMade | Made(key: Key, o: Obj, created: seq<string>, looks: seq<Look>, orphan: Option<string>,
                                  full: Objects, read: Status, undo: Option<Result<()>>, lost: bool)

  /** The conditions under which the roll-back by name means the network just created: the name
      is not a UUID, no other network and no earlier subnet uses it, no attribute names another. */
  ghost predicate Undisturbed(before: Objects, k: Key, data: NetworkData) {
    && k.name != "" && !IsUuid(k.name)
    && !Visible(before, Key(Vpc, k.name)) && !Visible(before, Key(Vlan, k.name))
    && OwnAttributes(data.attributes)
    && forall n :: SubnetKey(n) in before ==> !Refers(before[SubnetKey(n)], k)
  }

  function OrphanKeys(orphan: Option<string>): set<Key> {
    if orphan.Some? then {NadKey(orphan.value)} else {}
  }

  /** The network with the subnets created for it in the store, and perhaps a NAD left behind. */
  ghost predicate Full(before: Objects, k: Key, o: Obj, full: Objects, created: seq<string>, orphan: Option<string>) {
    && k !in before && IsNetworkKey(k) && Managed(o) && k in full && full[k] == o
    && (forall key :: key in before ==>
          key in full && full[key] == before[key] && key !in PairKeys(created) && key !in OrphanKeys(orphan))
    && full.Keys == before.Keys + {k} + PairKeys(created) + OrphanKeys(orphan)
    && PairKeys(created) !! OrphanKeys(orphan)
    && NoDup(created)
    && forall n :: n in created ==> Visible(full, SubnetKey(n)) && NadOf(full[SubnetKey(n)]) == NadKey(n)
  }

  lemma GrownIsFull(before: Objects, k: Key, o: Obj, made: Objects, full: Objects, created: seq<string>,
                    orphan: Option<string>)
    requires k !in before && IsNetworkKey(k) && Managed(o) && Grown(before[k := o], made, created)
    requires WithOrphan(made, full, orphan)
    ensures Full(before, k, o, full, created, orphan)
  {
    assert k in before[k := o] && k in made;
    assert before[k := o].Keys == before.Keys + {k};
    forall key | key in before
      ensures key in full && full[key] == before[key] && key !in PairKeys(created) && key !in OrphanKeys(orphan)
    {
      assert key in before[k := o] && key in made;
    }
    assert full.Keys == made.Keys + OrphanKeys(orphan);
  }

  /** The listing names no subnet that was there before the call. */
  ghost predicate ListsNoPrior(before: Objects, status: Status, k: Key) {
    forall n :: n in StatusOf(status, k) ==> SubnetKey(n) !in before
  }

  /** Under such a listing whatever is listed and there was created by this very call. */
  lemma ListedWereCreated(before: Objects, k: Key, o: Obj, full: Objects, status: Status, created: seq<string>,
                          orphan: Option<string>)
    requires Full(before, k, o, full, created, orphan) && ListsNoPrior(before, status, k)
    ensures forall n :: n in StatusOf(status, k) && SubnetKey(n) in full ==> n in created
  {
    forall n | n in StatusOf(status, k) && SubnetKey(n) in full ensures n in created {
      assert SubnetKey(n) in PairKeys(created);
    }
  }

  /** A listing that names only the network's own subnets is such a listing in an undisturbed call. */
  lemma OwnListsNoPrior(before: Objects, k: Key, o: Obj, data: NetworkData, full: Objects, status: Status,
                        created: seq<string>, orphan: Option<string>)
    requires Full(before, k, o, full, created, orphan) && Undisturbed(before, k, data) && OwnListing(full, status, k)
    ensures ListsNoPrior(before, status, k)
  {
    var seen := StatusOf(status, k);
    forall n | n in seen ensures SubnetKey(n) !in before {
      var i :| 0 <= i < |seen| && seen[i] == n;
    }
  }

  lemma DoomedAreListed(full: Objects, created: seq<string>, seen: seq<string>)
    requires forall n :: n in created ==> Visible(full, SubnetKey(n)) && NadOf(full[SubnetKey(n)]) == NadKey(n)
    requires forall n :: n in seen ==> n in created
    ensures Doomed(full, seen) == PairKeys(seen)
  {
    forall n | n in seen ensures SubnetKey(n) in full && NadOf(full[SubnetKey(n)]) == NadKey(n) {
      assert n in created;
    }
  }

  /** The store after a roll-back that removed the network and the listed pairs. */
  ghost predicate RolledBack(before: Objects, created: seq<string>, orphan: Option<string>, seen: seq<string>,
                             after: Objects) {
    && after.Keys == before.Keys + (PairKeys(created) - PairKeys(seen)) + OrphanKeys(orphan)
    && (forall key :: key in before ==> key in after && after[key] == before[key])
    && (after == before <==> orphan.None? && forall n :: n in created ==> n in seen)
  }

  lemma UndoKeys(before: Objects, k: Key, o: Obj, full: Objects, created: seq<string>, orphan: Option<string>,
                 seen: seq<string>)
    requires Full(before, k, o, full, created, orphan)
    requires forall n :: n in seen ==> n in created
    ensures var after := full - Doomed(full, seen) - {k};
            && after.Keys == before.Keys + (PairKeys(created) - PairKeys(seen)) + OrphanKeys(orphan)
            && forall key :: key in before ==> key in after && after[key] == before[key]
  {
    DoomedAreListed(full, created, seen);
    var after := full - Doomed(full, seen) - {k};
    assert k !in PairKeys(created) && k !in OrphanKeys(orphan);
    assert forall key :: key in PairKeys(seen) ==> key in PairKeys(created);
    assert after.Keys == before.Keys + (PairKeys(created) - PairKeys(seen)) + OrphanKeys(orphan);
  }

  /** The store after a roll-back that succeeded: the initial one, plus the subnets (with NADs) that
      this call created and the controller had not yet listed, plus the NAD left behind. */
  lemma UndoLeavesUnlisted(before: Objects, k: Key, o: Obj, full: Objects, created: seq<string>, orphan: Option<string>,
                           seen: seq<string>)
    requires Full(before, k, o, full, created, orphan)
    requires forall n :: n in seen ==> n in created
    ensures RolledBack(before, created, orphan, seen, full - Doomed(full, seen) - {k})
  {
    UndoKeys(before, k, o, full, created, orphan, seen);
    var after := full - Doomed(full, seen) - {k};
    if orphan.Some? {
      assert NadKey(orphan.value) in OrphanKeys(orphan);
      assert NadKey(orphan.value) in after && NadKey(orphan.value) !in before;
    } else if n :| n in created && n !in seen {
      assert SubnetKey(n) in PairKeys(created) && SubnetKey(n) !in PairKeys(seen);
      assert SubnetKey(n) in after && SubnetKey(n) !in before;
    } else {
      assert PairKeys(created) - PairKeys(seen) == {};
      assert after.Keys == before.Keys;
    }
  }

  lemma NewNetworkKeepsInvariants(before: Objects, k: Key, o: Obj)
    requires k !in before && IsNetworkKey(k)
    ensures LabelInv(before) ==> LabelInv(before[k := o])
    ensures RefInv(before) ==> RefInv(before[k := o])
  {
    var after := before[k := o];
    if LabelInv(before) {
      forall n ensures SubnetOk(after, n) { assert SubnetOk(before, n); }
    }
    if RefInv(before) {
      forall n ensures RefOk(after, n) { assert RefOk(before, n); }
    }
  }

  /** The network asked for, with subnets named by index, all attached to it in an undisturbed call. */
  ghost predicate Populated(t: Trace, name: string, data: NetworkData, before: Objects) {
    && t.Made? && NetworkSpecFor(name, data).Ok? && t.key == Key(NetworkSpecFor(name, data).value.0, name)
    && t.o.spec == NetworkSpecFor(name, data).value.1
    && Full(before, t.key, t.o, t.full, t.created, t.orphan)
    && |t.created| <= |data.attributes|
    && (forall i :: 0 <= i < |t.created| ==> t.created[i] == SubnetNameFor(name, i))
    && Placements(before[t.key := t.o], t.full, t.key, data.attributes, t.created, t.looks)
    && (Undisturbed(before, t.key, data) ==> AllRefer(t.full, t.key, t.created))
  }

  /** A network created with all its subnets, as the store and the answer show it. */
  ghost predicate NetworkMade(r: Net, name: string, data: NetworkData, before: Objects, t: Trace, after: Objects) {
    && Populated(t, name, data, before) && after == t.full && t.orphan.None?
    && ToNetwork(t.key, t.o, r.subnetIds) == Ok(r)
    && |t.created| == |r.subnetIds| == |data.attributes|
    && forall i :: 0 <= i < |t.created| ==>
         SubnetKey(t.created[i]) in after && r.subnetIds[i] == after[SubnetKey(t.created[i])].uid
  }

  /** A network given up: DeleteNetwork by name, whatever it returned. */
  ghost predicate Abandoned(name: string, data: NetworkData, before: Objects, t: Trace, status: Status,
                            after: Objects) {
    && Populated(t, name, data, before) && |t.created| < |data.attributes|
    && (t.orphan.Some? ==> t.orphan.value == SubnetNameFor(name, |t.created|))
    && LabelInv(t.full) && Distinct(status)
    && t.undo.Some? && NetworkDeletion(t.undo.value, ByName(name), t.full, status, after, t.lost)
  }

  /** How CreateNetwork can end: refused before anything was made, made in full, or given up. Unless a
      call is lost the error says which: bad data, a taken name, or what the next subnet met. */
  ghost predicate NetworkCreation(r: Result<Net>, t: Trace, name: string, data: NetworkData,
                                  before: Objects, status: Status, after: Objects, lost: bool) {
    && (t.NotMade? ==> r.Error? && after == before)
    && (r.Ok? ==> NetworkMade(r.value, name, data, before, t, after) && !lost)
    && (t.Made? && r.Error? ==> Abandoned(name, data, before, t, status, after))
    && (t.Made? && (t.lost || t.orphan.Some?) ==> lost)
    && (!lost ==>
          var refusal := NetworkRefusal(before, name, data);
          if refusal.Some? then t.NotMade? && r == Error(refusal.value)
          else t.Made? && (r.Error? ==>
            AttributeRefusal(t.full, t.read, t.key, data.attributes, |t.created|) == Some(r.err)))
    && (RefInv(before) && (t.Made? && r.Error? ==> Complete(t.full, status, ByName(name))) ==> RefInv(after))
  }

  lemma PlacementsFrame(before: Objects, made: Objects, full: Objects, k: Key, attributes: seq<SubnetData>,
                        created: seq<string>, looks: seq<Look>)
    requires Placements(before, made, k, attributes, created, looks)
    requires forall key :: key in made ==> key in full && full[key] == made[key]
    ensures Placements(before, full, k, attributes, created, looks)
  {
    forall i | 0 <= i < |created|
      ensures Placement(before, full, created[..i], created[i], looks[i], DataFor(k, attributes[i]))
    {
      assert Placement(before, made, created[..i], created[i], looks[i], DataFor(k, attributes[i]));
    }
  }

  lemma ProgressPopulates(before: Objects, name: string, data: NetworkData, made: Objects, ids: seq<Uid>, t: Trace)
    requires t.Made? && NetworkSpecFor(name, data).Ok? && t.key == Key(NetworkSpecFor(name, data).value.0, name)
    requires t.key !in before
    requires t.o.spec == NetworkSpecFor(name, data).value.1 && t.o.labels == map[ManagedBy := KUBE_NFV]
    requires Progress(before[t.key := t.o], made, t.key, data.attributes, t.created, ids)
    requires Placements(before[t.key := t.o], made, t.key, data.attributes, t.created, t.looks)
    requires WithOrphan(made, t.full, t.orphan)
    ensures Populated(t, name, data, before)
  {
    PlacementsFrame(before[t.key := t.o], made, t.full, t.key, data.attributes, t.created, t.looks);
    GrownIsFull(before, t.key, t.o, made, t.full, t.created, t.orphan);
    if Undisturbed(before, t.key, data) {
      assert OnlyNetwork(before[t.key := t.o], t.key);
    }
  }

  /** The subnets of a network just made, and the roll-back if one fails. */
  method Populate(c: Cluster, k: Key, o: Obj, name: string, data: NetworkData, ghost before: Objects)
    returns (r: Result<Net>, ghost t: Trace)
    requires c.Valid() && LabelInv(c.objs) && (RefInv(before) ==> RefInv(c.objs))
    requires NetworkRefusal(before, name, data).None? && k == Key(NetworkSpecFor(name, data).value.0, name)
    requires o.spec == NetworkSpecFor(name, data).value.1 && o.labels == map[ManagedBy := KUBE_NFV]
    requires c.objs == before[k := o]
    modifies c
    ensures c.Valid() && LabelInv(c.objs)
    ensures NetworkCreation(r, t, name, data, before, c.status, c.objs, c.faults > old(c.faults))
  {
    var l3, ids, created, looks, made, orphan := AllocateL3(c, k, data.attributes);
    t := Made(k, o, created, looks, orphan, c.objs, c.status, None, false);
    ProgressPopulates(before, name, data, made, ids, t);
    if l3.Ok? {
      MadeIsCreation(name, data, before, ids, t, c.status);
      return ToNetwork(k, o, ids), t;
    }
    ghost var early := c.faults > old(c.faults);
    r, t := Abandon(c, name, data, before, t, l3.err, early);
  }

  lemma MadeIsCreation(name: string, data: NetworkData, before: Objects, ids: seq<Uid>, t: Trace, status: Status)
    requires Populated(t, name, data, before) && t.orphan.None? && !t.lost && t.o.labels == map[ManagedBy := KUBE_NFV]
    requires Progress(before[t.key := t.o], t.full, t.key, data.attributes, t.created, ids)
    requires |t.created| == |data.attributes| && NetworkRefusal(before, name, data).None?
    requires RefInv(before) ==> RefInv(t.full)
    ensures ToNetwork(t.key, t.o, ids).Ok?
    ensures NetworkCreation(ToNetwork(t.key, t.o, ids), t, name, data, before, status, t.full, false)
  {
  }

  /** The failing end: DeleteNetwork by name, then the error that caused it. `early` says that a call
      was lost before. */
  method Abandon(c: Cluster, name: string, ghost data: NetworkData, ghost before: Objects, ghost was: Trace, e: Err,
                 ghost early: bool)
    returns (r: Result<Net>, ghost t: Trace)
    requires c.Valid() && LabelInv(c.objs) && Populated(was, name, data, before) && was.full == c.objs
    requires |was.created| < |data.attributes|
    requires was.orphan.Some? ==> was.orphan.value == SubnetNameFor(name, |was.created|)
    requires (was.orphan.Some? ==> early) && (RefInv(before) ==> RefInv(c.objs))
    requires NetworkRefusal(before, name, data).None?
    requires !early ==> AttributeRefusal(was.full, was.read, was.key, data.attributes, |was.created|) == Some(e)
    modifies c
    ensures c.Valid() && LabelInv(c.objs) && c.faults >= old(c.faults)
    ensures NetworkCreation(r, t, name, data, before, c.status, c.objs, early || c.faults > old(c.faults))
  {
    var undo := DeleteNetwork(c, ByName(name));
    t := was.(undo := Some(undo), lost := c.faults > old(c.faults));
    r := Error(e);
    assert Populated(t, name, data, before);
    if RefInv(before) { UndoKeepsRefs(name, data, before, t, c.status, c.objs); }
  }

  lemma UndoKeepsRefs(name: string, data: NetworkData, before: Objects, t: Trace, status: Status, after: Objects)
    requires Abandoned(name, data, before, t, status, after) && RefInv(t.full)
    ensures Complete(t.full, status, ByName(name)) ==> RefInv(after)
  {
    if Complete(t.full, status, ByName(name)) {
      DeletionKeepsRefs(t.undo.value, ByName(name), t.full, status, after, t.lost);
    }
  }

  /** CreateNetwork: the Vpc or Vlan, then its subnets. */
  method CreateNetwork(c: Cluster, name: string, data: NetworkData) returns (r: Result<Net>, ghost t: Trace)
    requires c.Valid() && LabelInv(c.objs)
    modifies c
    ensures c.Valid() && LabelInv(c.objs)
    ensures NetworkCreation(r, t, name, data, old(c.objs), c.status, c.objs, c.faults > old(c.faults))
  {
    t := NotMade;
    var want := NetworkSpecFor(name, data);
    if want.Error? { return Error(want.err), t; }
    var k := Key(want.value.0, name);
    var o := c.Create(k, map[ManagedBy := KUBE_NFV], map[], want.value.1);
    if o.Error? { return Error(o.err), t; }
    NewNetworkKeepsInvariants(old(c.objs), k, o.value);
    r, t := Populate(c, k, o.value, name, data, old(c.objs));
  }

  lemma NothingYet(objs: Objects, k: Key, attributes: seq<SubnetData>)
    ensures Progress(objs, objs, k, attributes, [], []) && Placements(objs, objs, k, attributes, [], [])
  {
    assert PairKeys([]) == {};
  }

  /** A network with one attribute, whose subnet is created. */
  lemma OneSubnetMade(name: string, data: NetworkData, before: Objects, o: Obj, status: Status, after: Objects,
                      s: Result<Sub>, net: Option<Net>)
    requires NetworkRefusal(before, name, data).None? && |data.attributes| == 1 && s.Ok? && Distinct(status)
    requires o.spec == NetworkSpecFor(name, data).value.1 && o.labels == map[ManagedBy := KUBE_NFV]
    requires var k := Key(NetworkSpecFor(name, data).value.0, name);
             && LabelInv(before[k := o]) && RefInv(before[k := o])
             && SubnetCreation(s, SubnetNameFor(name, 0), DataFor(k, data.attributes[0]), before[k := o], status, after,
                               net, false)
    ensures var k := Key(NetworkSpecFor(name, data).value.0, name);
            && ToNetwork(k, o, [s.value.id]).Ok?
            && NetworkCreation(ToNetwork(k, o, [s.value.id]),
                               Made(k, o, [SubnetNameFor(name, 0)], [Look(before[k := o], status)], None, after, status,
                                    None, false),
                               name, data, before, status, after, false)
  {
    var k, sub, attributes := Key(NetworkSpecFor(name, data).value.0, name), SubnetNameFor(name, 0), data.attributes;
    var base := before[k := o];
    var t := Made(k, o, [sub], [Look(base, status)], None, after, status, None, false);
    NothingYet(base, k, attributes);
    ProgressStep(base, base, status, after, k, attributes, [], [], s, net);
    PlacementStep(base, base, status, after, k, attributes, [], [], s, net);
    CreateSubnetKeepsRefs(s, sub, DataFor(k, attributes[0]), base, status, after, net, false);
    assert [] + [sub] == t.created && [] + [s.value.id] == [s.value.id] && [] + [Look(base, status)] == t.looks;
    ProgressPopulates(before, name, data, after, [s.value.id], t);
    MadeIsCreation(name, data, before, [s.value.id], t, status);
  }

  // ---------- where the subnets land ----------

  lemma PlacedElsewhere(before: Objects, status: Status, after: Objects, sub: string, data: SubnetData, net: Net,
                        k: Key)
    requires IsNetworkKey(k) && data.networkId == k.name && !IsUuid(k.name)
    requires NetworkBy(before, status, ByName(k.name)) == Ok(net) && NetKey(net) != k && k.name != ""
    requires Added(before, after, sub, data, Some(net))
    ensures Refers(after[SubnetKey(sub)], Twin(k)) && !Refers(after[SubnetKey(sub)], k)
  {
    AddedIsPlaced(before, status, after, sub, data, Some(net));
    NetworkFound(before, status, ByName(k.name));
  }

  /** Wherever the name means another network, CreateNetwork with one valid attribute succeeds, with the
      subnet on that other network. */
  lemma LandsElsewhere(name: string, data: NetworkData, before: Objects, o: Obj, status: Status, after: Objects,
                       net: Net)
    requires NetworkRefusal(before, name, data).None? && |data.attributes| == 1 && Distinct(status)
    requires data.attributes[0].networkId == "" && !IsUuid(name)
    requires o.spec == NetworkSpecFor(name, data).value.1 && o.labels == map[ManagedBy := KUBE_NFV]
    requires var k, sub := Key(NetworkSpecFor(name, data).value.0, name), SubnetNameFor(name, 0);
             && LabelInv(before[k := o]) && RefInv(before[k := o])
             && NetworkBy(before[k := o], status, ByName(name)) == Ok(net) && NetKey(net) != k
             && Added(before[k := o], after, sub, DataFor(k, data.attributes[0]), Some(net))
    ensures var k, sub := Key(NetworkSpecFor(name, data).value.0, name), SubnetNameFor(name, 0);
            && ToNetwork(k, o, [after[SubnetKey(sub)].uid]).Ok?
            && NetworkCreation(ToNetwork(k, o, [after[SubnetKey(sub)].uid]),
                               Made(k, o, [sub], [Look(before[k := o], status)], None, after, status, None, false),
                               name, data, before, status, after, false)
            && Refers(after[SubnetKey(sub)], Twin(k)) && !Refers(after[SubnetKey(sub)], k)
  {
    var k, sub := Key(NetworkSpecFor(name, data).value.0, name), SubnetNameFor(name, 0);
    var base, d := before[k := o], DataFor(k, data.attributes[0]);
    PlacedElsewhere(base, status, after, sub, d, net, k);
    CreatedSubnetConverts(base, after, sub, d, Some(net));
    OneSubnetMade(name, data, before, o, status, after, ToSubnet(after[SubnetKey(sub)]), Some(net));
  }

  /** A subnet made for the new network by its name is attached to it exactly when the name meant it
      at that subnet's look-up; otherwise it is on the older network of the same name. */
  lemma SubnetLandsIff(name: string, data: NetworkData, before: Objects, t: Trace, i: nat)
    requires Populated(t, name, data, before) && i < |t.created|
    requires data.attributes[i].networkId == "" && !IsUuid(name)
    ensures SubnetKey(t.created[i]) in t.full
    ensures var sub, look := t.full[SubnetKey(t.created[i])], t.looks[i];
            && (Refers(sub, t.key) <==>
                && Answering(look.objs, look.status, t.key)
                && (t.key.kind == Vpc || !Answering(look.objs, look.status, Key(Vpc, name))))
            && (!Refers(sub, t.key) ==> Refers(sub, Twin(t.key)) && Twin(t.key) in before)
  {
    var look, base, earlier := t.looks[i], before[t.key := t.o], t.created[..i];
    assert Placement(base, t.full, earlier, t.created[i], look, DataFor(t.key, data.attributes[i]));
    NameMeansIff(look.objs, look.status, t.key);
    NetworkFound(look.objs, look.status, ByName(name));
    assert Twin(t.key) !in PairKeys(earlier);
  }

  // ---------- when CreateNetwork succeeds ----------

  /** The attribute has what a subnet needs, in a form that is supported. */
  predicate ValidAttribute(data: SubnetData) {
    data.ipVersion in {Some(V4), Some(V6)} && data.cidr.Some? && data.gateway != Some(None)
  }

  /** No subnet and no NAD has a name that the attributes need. */
  ghost predicate NamesFree(objs: Objects, network: string, count: nat) {
    forall i: nat :: i < count ==>
      SubnetKey(SubnetNameFor(network, i)) !in objs && NadKey(SubnetNameFor(network, i)) !in objs
  }

  /** What the subnets made so far occupy is not what the next one needs. */
  lemma NextNamesFree(before: Objects, name: string, data: NetworkData, t: Trace)
    requires Populated(t, name, data, before) && t.orphan.None? && |t.created| < |data.attributes|
    requires NamesFree(before, name, |data.attributes|)
    ensures Taken(t.full, SubnetNameFor(name, |t.created|)).None?
  {
    var next := SubnetNameFor(name, |t.created|);
    assert SubnetKey(next) !in before && NadKey(next) !in before;
    NextIsNew(name, t.created);
  }

  lemma NextIsNew(name: string, created: seq<string>)
    requires forall i :: 0 <= i < |created| ==> created[i] == SubnetNameFor(name, i)
    ensures var next := SubnetNameFor(name, |created|);
            SubnetKey(next) !in PairKeys(created) && NadKey(next) !in PairKeys(created)
  {
    var next := SubnetNameFor(name, |created|);
    forall n | n in created ensures n != next && NadName(n) != NadName(next) {
      var i :| 0 <= i < |created| && created[i] == n;
      if n == next { SubnetNamesDiffer(name, i, |created|); }
      if NadName(n) == NadName(next) { NadNameInjective(n, next); }
    }
  }

  /** Where the new network answers the look-up for the next subnet, nothing refuses that subnet. */
  lemma NextNotRefused(before: Objects, name: string, data: NetworkData, t: Trace)
    requires Populated(t, name, data, before) && t.orphan.None? && |t.created| < |data.attributes|
    requires LabelInv(t.full) && Undisturbed(before, t.key, data) && Answering(t.full, t.read, t.key)
    requires ValidAttribute(data.attributes[|t.created|]) && NamesFree(before, name, |data.attributes|)
    ensures AttributeRefusal(t.full, t.read, t.key, data.attributes, |t.created|).None?
  {
    NextNamesFree(before, name, data, t);
    var i := |t.created|;
    assert data.attributes[i].networkId == "";
    assert Twin(t.key) !in PairKeys(t.created);
    assert !Visible(t.full, Twin(t.key));
    NameMeansIff(t.full, t.read, t.key);
    assert NameMeans(t.full, t.read, t.key);
    assert SubnetSpecFor(SubnetNameFor(name, i), DataFor(t.key, data.attributes[i])).Ok?;
  }

  /** A network of valid attributes that name no other, under a name and subnet names that are free, is
      made with one subnet per attribute if no call is lost and it answers each look-up. */
  lemma CreateNetworkSucceeds(r: Result<Net>, t: Trace, name: string, data: NetworkData, before: Objects,
                              status: Status, after: Objects)
    requires NetworkCreation(r, t, name, data, before, status, after, false)
    requires data.kind in {None, Some(Vpc), Some(Vlan)}
    requires data.kind == Some(Vlan) ==> data.provider.Some? && data.provider.value != ""
    requires var k := Key(if data.kind == Some(Vlan) then Vlan else Vpc, name);
             k !in before && Undisturbed(before, k, data)
    requires forall i :: 0 <= i < |data.attributes| ==> ValidAttribute(data.attributes[i])
    requires NamesFree(before, name, |data.attributes|)
    requires t.Made? ==> Answering(t.full, t.read, t.key)
    ensures r.Ok? && t.Made? && |r.value.subnetIds| == |data.attributes|
    ensures forall i: nat :: i < |data.attributes| ==>
              && SubnetKey(SubnetNameFor(name, i)) in after && NadKey(SubnetNameFor(name, i)) in after
              && Refers(after[SubnetKey(SubnetNameFor(name, i))], t.key)
              && r.value.subnetIds[i] == after[SubnetKey(SubnetNameFor(name, i))].uid
  {
    if r.Error? {
      NextNotRefused(before, name, data, t);
      assert false;
    }
    forall i: nat | i < |data.attributes|
      ensures NadKey(SubnetNameFor(name, i)) in after && Refers(after[SubnetKey(SubnetNameFor(name, i))], t.key)
    {
      assert t.created[i] == SubnetNameFor(name, i) && t.created[i] in t.created;
      assert NadKey(t.created[i]) in PairKeys(t.created);
    }
  }

  lemma SpecAsAsked(name: string, data: NetworkData)
    requires NetworkSpecFor(name, data).Ok?
    ensures name != "" && (data.kind.None? || data.kind.value == Vpc || data.kind.value == Vlan)
    ensures NetworkSpecFor(name, data).value.0 == if data.kind == Some(Vlan) then Vlan else Vpc
    ensures NetworkSpecFor(name, data).value.1 == VpcSpec || NetworkSpecFor(name, data).value.1.VlanSpec?
    ensures data.kind == Some(Vlan) ==> data.provider.Some? && data.provider.value != ""
  {
  }

  /** The network made is of the kind asked for, overlay if none is, with the name and the UID of the
      object, and says what it reads back as. */
  lemma MadeAsAsked(r: Net, name: string, data: NetworkData, before: Objects, t: Trace, after: Objects)
    requires NetworkMade(r, name, data, before, t, after)
    ensures data.kind.None? || data.kind.value == Vpc || data.kind.value == Vlan
    ensures r.kind == if data.kind == Some(Vlan) then Vlan else Vpc
    ensures data.kind == Some(Vlan) ==> data.provider.Some? && data.provider.value != ""
    ensures r.name == name != "" && Key(r.kind, name) !in before && Visible(after, Key(r.kind, name))
    ensures r.id == after[Key(r.kind, name)].uid
  {
    SpecAsAsked(name, data);
    var k := t.key;
    assert k !in before && after[k] == t.o && Managed(t.o);
    assert ToNetwork(k, t.o, r.subnetIds) == Ok(r);
  }

  /** An attribute that names a network gets its subnet there: by UID if that is what it looks like,
      else by name. */
  lemma SubnetLandsAsNamed(name: string, data: NetworkData, before: Objects, t: Trace, i: nat) returns (k: Key)
    requires Populated(t, name, data, before) && i < |t.created| && data.attributes[i].networkId != ""
    ensures SubnetKey(t.created[i]) in t.full && Refers(t.full[SubnetKey(t.created[i])], k)
    ensures k in t.looks[i].objs
    ensures var id := data.attributes[i].networkId;
            if IsUuid(id) then t.looks[i].objs[k].uid == id else k.name == id
  {
    var look, id, base := t.looks[i], data.attributes[i].networkId, before[t.key := t.o];
    assert Placement(base, t.full, t.created[..i], t.created[i], look, DataFor(t.key, data.attributes[i]));
    var q := if IsUuid(id) then ByUid(id) else ByName(id);
    assert NetworkBy(look.objs, look.status, q).Ok?;
    NetworkFound(look.objs, look.status, q);
    k := NetKey(NetworkBy(look.objs, look.status, q).value);
  }

  // ---------- all or nothing ----------

  /** In an undisturbed call the name means the new network, or nothing. */
  lemma UndoMeansNew(name: string, data: NetworkData, before: Objects, t: Trace, status: Status, after: Objects)
    requires Abandoned(name, data, before, t, status, after) && Undisturbed(before, t.key, data)
    ensures var found := NetworkBy(t.full, status, ByName(name));
            && (found.Ok? <==> Answering(t.full, status, t.key))
            && (found.Ok? ==> NetKey(found.value) == t.key)
            && (found.Error? ==> found.err == NotFound)
  {
    var other := Key(if t.key.kind == Vpc then Vlan else Vpc, name);
    assert !Visible(t.full, other) by {
      assert other !in PairKeys(t.created) && other !in OrphanKeys(t.orphan);
    }
    AnsweringIsFound(t.full, status, Key(Vpc, name));
    AnsweringIsFound(t.full, status, Key(Vlan, name));
    if NetworkBy(t.full, status, ByName(name)).Ok? { NetworkFound(t.full, status, ByName(name)); }
  }

  /** What the roll-back of an undisturbed call leaves when it succeeds. */
  lemma UndoneByName(name: string, data: NetworkData, before: Objects, t: Trace, status: Status, after: Objects)
    requires Abandoned(name, data, before, t, status, after) && Undisturbed(before, t.key, data)
    requires t.undo.value.Ok? && ListsNoPrior(before, status, t.key)
    ensures RolledBack(before, t.created, t.orphan, StatusOf(status, t.key), after)
  {
    UndoMeansNew(name, data, before, t, status, after);
    ListedSubnets(t.full, status, ByName(name));
    ListedWereCreated(before, t.key, t.o, t.full, status, t.created, t.orphan);
    UndoLeavesUnlisted(before, t.key, t.o, t.full, t.created, t.orphan, StatusOf(status, t.key));
  }

  /** However an undisturbed CreateNetwork fails, and whatever its roll-back met, as long as that read
      a listing without earlier subnets: every earlier object is still there unchanged, and all that
      is left besides is the new network, pairs created for it, and the NAD that a failed clean-up
      left. */
  lemma FailureKeepsPrior(name: string, data: NetworkData, before: Objects, t: Trace, status: Status, after: Objects)
    requires Abandoned(name, data, before, t, status, after) && Undisturbed(before, t.key, data)
    requires ListsNoPrior(before, status, t.key)
    ensures forall key :: key in before ==> key in after && after[key] == before[key]
    ensures after.Keys <= before.Keys + {t.key} + PairKeys(t.created) + OrphanKeys(t.orphan)
  {
    UndoMeansNew(name, data, before, t, status, after);
    if t.undo.value.Ok? {
      UndoneByName(name, data, before, t, status, after);
    } else if NetworkBy(t.full, status, ByName(name)).Ok? {
      var seen := StatusOf(status, t.key);
      ListedSubnets(t.full, status, ByName(name));
      ListedWereCreated(before, t.key, t.o, t.full, status, t.created, t.orphan);
      DoomedAreListed(t.full, t.created, seen);
      assert forall key :: key in PairKeys(seen) ==> key in PairKeys(t.created);
    }
  }

  /** A listed subnet that was there before the call goes with a roll-back that succeeds. */
  lemma PriorListedGoes(name: string, data: NetworkData, before: Objects, t: Trace, status: Status, after: Objects,
                        n: string)
    requires Abandoned(name, data, before, t, status, after) && Undisturbed(before, t.key, data)
    requires t.undo.value.Ok? && n in StatusOf(status, t.key) && SubnetKey(n) in before
    ensures SubnetKey(n) !in after && n !in t.created
  {
    UndoMeansNew(name, data, before, t, status, after);
    assert SubnetKey(n) in Doomed(t.full, StatusOf(status, t.key));
    assert forall m :: m in t.created ==> SubnetKey(m) in PairKeys(t.created);
  }

  /** So a roll-back that succeeds keeps all earlier objects exactly when the listing it read names
      none of the earlier subnets. */
  lemma PriorKeptIff(name: string, data: NetworkData, before: Objects, t: Trace, status: Status, after: Objects)
    requires Abandoned(name, data, before, t, status, after) && Undisturbed(before, t.key, data)
    requires t.undo.value.Ok?
    ensures (forall key :: key in before ==> key in after && after[key] == before[key]) <==>
            ListsNoPrior(before, status, t.key)
  {
    if ListsNoPrior(before, status, t.key) {
      FailureKeepsPrior(name, data, before, t, status, after);
    } else {
      var n :| n in StatusOf(status, t.key) && SubnetKey(n) in before;
      PriorListedGoes(name, data, before, t, status, after, n);
    }
  }

  /** When no clean-up call is lost, an undisturbed CreateNetwork that fails leaves the store exactly
      as it was if and only if the controller had listed exactly the subnets this call created. */
  lemma RestoredIff(name: string, data: NetworkData, before: Objects, t: Trace, status: Status, after: Objects)
    requires Abandoned(name, data, before, t, status, after) && Undisturbed(before, t.key, data)
    requires !t.lost && t.orphan.None?
    ensures after == before <==> forall n :: n in StatusOf(status, t.key) <==> n in t.created
    ensures after == before ==> t.undo.value.Ok?
  {
    UndoMeansNew(name, data, before, t, status, after);
    var seen := StatusOf(status, t.key);
    if !Answering(t.full, status, t.key) {
      var i :| 0 <= i < |seen| && !Visible(t.full, SubnetKey(seen[i]));
      assert seen[i] in seen && seen[i] !in t.created;
      assert t.key in after;
    } else if n :| n in seen && SubnetKey(n) in before {
      PriorListedGoes(name, data, before, t, status, after, n);
    } else {
      UndoneByName(name, data, before, t, status, after);
      ListedWereCreated(before, t.key, t.o, t.full, status, t.created, t.orphan);
      assert forall n :: n in seen ==> n in t.created;
    }
  }

  /** All or nothing: once the controller has caught up and no clean-up call is lost, an undisturbed
      CreateNetwork either makes the network with a subnet per attribute, or changes nothing. */
  lemma AllOrNothing(r: Result<Net>, t: Trace, name: string, data: NetworkData, before: Objects, status: Status,
                     after: Objects, lost: bool)
    requires NetworkCreation(r, t, name, data, before, status, after, lost)
    requires t.Made? ==> Undisturbed(before, t.key, data) && !t.lost && t.orphan.None? && Settled(t.full, status)
    ensures if r.Ok? then
              t.Made? && |t.created| == |data.attributes| && Full(before, t.key, t.o, after, t.created, None)
            else after == before
  {
    if r.Error? && t.Made? {
      assert ListsAll(t.full, status, t.key) && OwnListing(t.full, status, t.key);
      OwnListsNoPrior(before, t.key, t.o, data, t.full, status, t.created, t.orphan);
      ListedWereCreated(before, t.key, t.o, t.full, status, t.created, t.orphan);
      RestoredIff(name, data, before, t, status, after);
    }
  }

  /** The segmentation id of an underlay network survives the conversions to and from the Vlan's
      signed field, for every 64-bit value; an absent one reads as zero. */
  lemma SegmentationSurvives(r: Net, name: string, data: NetworkData, before: Objects, t: Trace, after: Objects)
    requires NetworkMade(r, name, data, before, t, after) && data.kind == Some(Vlan)
    requires data.segmentation.Some? ==> data.segmentation.value < 0x1_0000_0000_0000_0000
    ensures r.segmentation == Some(if data.segmentation.Some? then data.segmentation.value else 0)
    ensures r.provider == data.provider
  {
    SignedRange(if data.segmentation.Some? then data.segmentation.value else 0);
    assert t.o.spec == NetworkSpecFor(name, data).value.1;
  }
}
