/** Whole runs of the network operations, and TerminateVirtualisedNetworkResource. */
module NetworkRuns {
  import opened Cidr
  import opened Kube
  import opened NetworkLabels
  import opened Networks
  import opened KubeOvn
  import opened KubeOvnCreate
  import opened SriovNetworks

  datatype Op =
    | OpCreateNetwork(name: string, network: NetworkData)
    | OpDeleteNetwork(q: NetQuery)
    | OpCreateSubnet(name: string, subnet: SubnetData)
    | OpDeleteSubnet(uid: Uid)
    | OpDeleteSriov(uid: Uid)

  /** Segmentation ids are 64-bit unsigned. */
  predicate WellTyped(op: Op) {
    op.OpCreateNetwork? && op.network.segmentation.Some? ==> op.network.segmentation.value < TWO_64
  }

  lemma SettledIsComplete(objs: Objects, status: Status, q: NetQuery)
    requires Settled(objs, status)
    ensures Complete(objs, status, q)
  {
    if NetworkBy(objs, status, q).Ok? {
      NetworkFound(objs, status, q);
      assert ListsAll(objs, status, NetKey(NetworkBy(objs, status, q).value));
    }
  }

  /** One operation; the composite manager routes a creation by its type. `settled` says that the
      controller had caught up when the deletion, or the roll-back, read the network. */
  method Perform(c: Cluster, cni: Cni, op: Op) returns (ghost settled: bool)
    requires c.Valid() && LabelInv(c.objs) && Faithful(cni) && WellTyped(op)
    modifies c
    ensures c.Valid() && LabelInv(c.objs)
    ensures settled && RefInv(old(c.objs)) ==> RefInv(c.objs)
  {
    settled := true;
    ghost var before, faults := c.objs, c.faults;
    match op
    case OpCreateNetwork(name, network) =>
      if network.kind == Some(Nad) {
        var r := CreateSriov(c, cni, name, network);
        return;
      }
      var r, t := CreateNetwork(c, name, network);
      if t.Made? && t.undo.Some? {
        settled := Settled(t.full, c.status);
        if settled { SettledIsComplete(t.full, c.status, ByName(name)); }
      }
    case OpDeleteNetwork(q) =>
      var r := DeleteNetwork(c, q);
      settled := Settled(before, c.status);
      if settled && RefInv(before) {
        SettledIsComplete(before, c.status, q);
        DeletionKeepsRefs(r, q, before, c.status, c.objs, c.faults > faults);
      }
    case OpCreateSubnet(name, subnet) =>
      var r, net, orphaned := CreateSubnet(c, name, subnet);
      if RefInv(before) { CreateSubnetKeepsRefs(r, name, subnet, before, c.status, c.objs, net, orphaned); }
    case OpDeleteSubnet(uid) =>
      var r := DeleteSubnet(c, uid);
      if RefInv(before) { SubnetDeletionKeepsRefs(r, uid, before, c.objs, c.faults > faults); }
    case OpDeleteSriov(uid) =>
      var r := DeleteSriov(c, uid);
  }

  lemma SubnetDeletionKeepsRefs(r: Result<()>, uid: Uid, before: Objects, after: Objects, lost: bool)
    requires RefInv(before) && SubnetDeletion(r, uid, before, after, lost)
    ensures RefInv(after)
  {
    var k := FindUid(before, Subnet, uid);
    if r.Ok? {
      DropKeepsRefs(before, Doomed(before, [k.value.name]));
    } else if after != before {
      DropKeepsRefs(before, {k.value});
    }
  }

  /** Any sequence of operations, each ending in any way: every managed subnet keeps its labels and
      its NAD, and as long as deletions read settled listings, names an existing network of the
      matching type and carries that network's UID. */
  method Serve(c: Cluster, cni: Cni, ops: seq<Op>) returns (ghost settled: bool)
    requires c.Valid() && LabelInv(c.objs) && RefInv(c.objs)
    requires Faithful(cni) && forall i :: 0 <= i < |ops| ==> WellTyped(ops[i])
    modifies c
    ensures c.Valid() && LabelInv(c.objs)
    ensures settled ==> RefInv(c.objs)
  {
    settled := true;
    for i := 0 to |ops|
      invariant c.Valid() && LabelInv(c.objs) && (settled ==> RefInv(c.objs))
    {
      var s := Perform(c, cni, ops[i]);
      settled := settled && s;
    }
  }

  // ---------- whom a roll-back by name hits ----------

  /** Whom the roll-back of a failed CreateNetwork removes when it reports success: the network just
      made under the condition of `NameMeansIff`, and otherwise the older one of the same name,
      with the new one left in place. */
  lemma RollBackHits(name: string, data: NetworkData, before: Objects, t: Trace, status: Status, after: Objects)
    requires Abandoned(name, data, before, t, status, after) && t.undo.value.Ok?
    ensures t.key !in after <==>
            Answering(t.full, status, t.key) && (t.key.kind == Vpc || !Answering(t.full, status, Key(Vpc, name)))
    ensures t.key in after ==> Twin(t.key) in before && Twin(t.key) !in after
  {
    NameMeansIff(t.full, status, t.key);
    var k := NetKey(NetworkBy(t.full, status, ByName(name)).value);
    NetworkFound(t.full, status, ByName(name));
    assert k == t.key || k == Twin(t.key);
    assert t.key !in Doomed(t.full, StatusOf(status, k)) && Twin(t.key) !in Doomed(t.full, StatusOf(status, k));
    assert Twin(t.key) !in PairKeys(t.created) && Twin(t.key) !in OrphanKeys(t.orphan);
  }

  /** A new Vlan behind an older Vpc: the roll-back removes the Vpc. */
  lemma RollBackHitsOlderVpc(name: string, data: NetworkData, before: Objects, t: Trace, status: Status, after: Objects)
    requires Abandoned(name, data, before, t, status, after) && t.undo.value.Ok?
    requires t.key.kind == Vlan && Answering(t.full, status, Key(Vpc, name))
    ensures Key(Vpc, name) in before && Key(Vpc, name) !in after && Key(Vlan, name) in after
  {
    RollBackHits(name, data, before, t, status, after);
  }

  /** A new Vpc whose listing names a subnet that is not there: the roll-back removes an older Vlan. */
  lemma RollBackHitsOlderVlan(name: string, data: NetworkData, before: Objects, t: Trace, status: Status,
                              after: Objects)
    requires Abandoned(name, data, before, t, status, after) && t.undo.value.Ok?
    requires t.key.kind == Vpc && !Answering(t.full, status, t.key)
    ensures Key(Vlan, name) in before && Key(Vlan, name) !in after && Key(Vpc, name) in after
  {
    RollBackHits(name, data, before, t, status, after);
  }

  // The scene: a network "n" exists, and the other kind is asked for under the same name with one
  // attribute that has no IP version.
  function SceneBefore(older: Obj, kind: Kind): Objects { map[Twin(Key(kind, "n")) := older] }
  function SceneFull(older: Obj, newer: Obj, kind: Kind): Objects { SceneBefore(older, kind)[Key(kind, "n") := newer] }
  function SceneStatus(kind: Kind): Status { if kind == Vpc then map[Key(Vpc, "n") := ["gone"]] else map[] }

  function SceneData(kind: Kind): NetworkData {
    NetworkData(Some(kind), Some("p"), None, [SubnetData("", None, None, None, None)])
  }

  function SceneTrace(older: Obj, newer: Obj, kind: Kind): Trace {
    Made(Key(kind, "n"), newer, [], [], None, SceneFull(older, newer, kind), map[], Some(Ok(())), false)
  }

  predicate SceneObjs(older: Obj, newer: Obj, kind: Kind) {
    && (kind == Vpc || kind == Vlan) && Managed(older) && Managed(newer)
    && newer.spec == if kind == Vpc then VpcSpec else VlanSpec(0, "p")
  }

  lemma SceneIsDeletion(older: Obj, newer: Obj, kind: Kind)
    requires SceneObjs(older, newer, kind)
    ensures NetworkDeletion(Ok(()), ByName("n"), SceneFull(older, newer, kind), SceneStatus(kind),
                            map[Key(kind, "n") := newer], false)
  {
    var k, full, status := Key(kind, "n"), SceneFull(older, newer, kind), SceneStatus(kind);
    NoSubnetsAreFine(full);
    NameMeansIff(full, status, Twin(k));
    if kind == Vpc {
      assert StatusOf(status, k) == ["gone"] && !Visible(full, SubnetKey(StatusOf(status, k)[0]));
    }
    assert NameMeans(full, status, Twin(k));
    assert Doomed(full, StatusOf(status, Twin(k))) == {};
    assert WithoutNetwork(full, status, Twin(k)) == map[k := newer];
  }

  lemma SceneIsRefused(older: Obj, newer: Obj, kind: Kind)
    requires SceneObjs(older, newer, kind)
    ensures AttributeRefusal(SceneFull(older, newer, kind), map[], Key(kind, "n"), SceneData(kind).attributes, 0)
              == Some(InvalidArgument)
  {
    var k, full := Key(kind, "n"), SceneFull(older, newer, kind);
    NoSubnetsAreFine(full);
    NameMeansIff(full, map[], Key(Vpc, "n"));
    assert NameMeans(full, map[], Key(Vpc, "n"));
    assert DataFor(k, SceneData(kind).attributes[0]).networkId == "n" && QueryFor("n") == ByName("n");
  }

  lemma SceneIsPopulated(older: Obj, newer: Obj, kind: Kind)
    requires SceneObjs(older, newer, kind)
    ensures Populated(SceneTrace(older, newer, kind), "n", SceneData(kind), SceneBefore(older, kind))
  {
    assert PairKeys([]) == {};
    assert Full(SceneBefore(older, kind), Key(kind, "n"), newer, SceneFull(older, newer, kind), [], None);
  }

  lemma SceneIsAbandoned(older: Obj, newer: Obj, kind: Kind)
    requires SceneObjs(older, newer, kind)
    ensures Abandoned("n", SceneData(kind), SceneBefore(older, kind), SceneTrace(older, newer, kind),
                      SceneStatus(kind), map[Key(kind, "n") := newer])
  {
    NoSubnetsAreFine(SceneFull(older, newer, kind));
    SceneIsPopulated(older, newer, kind);
    SceneIsDeletion(older, newer, kind);
  }

  /** Both misses happen: the older network is gone and the new one stays. */
  lemma RollBackMisses(older: Obj, newer: Obj, kind: Kind)
    requires SceneObjs(older, newer, kind)
    ensures NetworkCreation(Error(InvalidArgument), SceneTrace(older, newer, kind), "n", SceneData(kind),
                            SceneBefore(older, kind), SceneStatus(kind), map[Key(kind, "n") := newer], false)
  {
    NoSubnetsAreFine(map[Key(kind, "n") := newer]);
    SceneIsAbandoned(older, newer, kind);
    SceneIsRefused(older, newer, kind);
  }

  // The same scene with a valid attribute: the network and its subnet are made.
  const SCENE_SUBNET := SubnetNameFor("n", 0)

  function SceneAttribute(cidr: Prefix): SubnetData { SubnetData("", Some(V4), None, Some(cidr), None) }
  function SceneRequest(kind: Kind, cidr: Prefix): NetworkData {
    NetworkData(Some(kind), Some("p"), None, [SceneAttribute(cidr)])
  }

  function OlderNet(older: Obj, kind: Kind): Net
    requires Managed(older)
  {
    ToNetwork(Twin(Key(kind, "n")), older, []).value
  }

  /** A subnet as CreateSubnet writes it onto the older network. */
  predicate SceneSubnet(older: Obj, kind: Kind, cidr: Prefix, nad: Obj, o: Obj)
    requires Managed(older)
  {
    && nad.labels == NadLabels(SCENE_SUBNET) && o.labels == SubnetLabels(SCENE_SUBNET, Some(OlderNet(older, kind)))
    && SubnetSpecFor(SCENE_SUBNET, SceneAttribute(cidr)).Ok?
    && o.spec == Attach(SubnetSpecFor(SCENE_SUBNET, SceneAttribute(cidr)).value, Some(OlderNet(older, kind)))
  }

  function SceneAfter(older: Obj, newer: Obj, kind: Kind, nad: Obj, o: Obj): Objects {
    SceneFull(older, newer, kind)[NadKey(SCENE_SUBNET) := nad][SubnetKey(SCENE_SUBNET) := o]
  }

  lemma SceneLookup(older: Obj, newer: Obj, kind: Kind)
    requires SceneObjs(older, newer, kind)
    ensures NetworkBy(SceneFull(older, newer, kind), SceneStatus(kind), ByName("n")) == Ok(OlderNet(older, kind))
  {
    var k, full, status := Key(kind, "n"), SceneFull(older, newer, kind), SceneStatus(kind);
    NoSubnetsAreFine(full);
    NameMeansIff(full, status, Twin(k));
    if kind == Vpc {
      assert StatusOf(status, k) == ["gone"] && !Visible(full, SubnetKey(StatusOf(status, k)[0]));
    }
    assert StatusOf(status, Twin(k)) == [] && SubnetIds(full, []) == Ok([]);
    assert NameMeans(full, status, Twin(k));
    NetworkFound(full, status, ByName("n"));
  }

  lemma SceneAdded(older: Obj, newer: Obj, kind: Kind, cidr: Prefix, nad: Obj, o: Obj)
    requires SceneObjs(older, newer, kind) && SceneSubnet(older, kind, cidr, nad, o)
    ensures Added(SceneFull(older, newer, kind), SceneAfter(older, newer, kind, nad, o), SCENE_SUBNET,
                  DataFor(Key(kind, "n"), SceneAttribute(cidr)), Some(OlderNet(older, kind)))
  {
    var data := DataFor(Key(kind, "n"), SceneAttribute(cidr));
    assert SubnetSpecFor(SCENE_SUBNET, data) == SubnetSpecFor(SCENE_SUBNET, SceneAttribute(cidr));
  }

  /** Both ways happen without any failure: CreateNetwork returns the new network with its subnet's
      id, and the subnet is on the older network of that name. */
  lemma SubnetsCanLandElsewhere(older: Obj, newer: Obj, kind: Kind, cidr: Prefix, nad: Obj, o: Obj)
    requires SceneObjs(older, newer, kind) && SceneSubnet(older, kind, cidr, nad, o)
    requires newer.labels == map[ManagedBy := KUBE_NFV]
    ensures var k, after := Key(kind, "n"), SceneAfter(older, newer, kind, nad, o);
            && ToNetwork(k, newer, [o.uid]).Ok?
            && NetworkCreation(ToNetwork(k, newer, [o.uid]),
                               Made(k, newer, [SCENE_SUBNET], [Look(SceneFull(older, newer, kind), SceneStatus(kind))],
                                    None, after, SceneStatus(kind), None, false),
                               "n", SceneRequest(kind, cidr), SceneBefore(older, kind), SceneStatus(kind), after, false)
            && Refers(o, Twin(k)) && !Refers(o, k)
  {
    NoSubnetsAreFine(SceneFull(older, newer, kind));
    SceneLookup(older, newer, kind);
    SceneAdded(older, newer, kind, cidr, nad, o);
    LandsElsewhere("n", SceneRequest(kind, cidr), SceneBefore(older, kind), newer, SceneStatus(kind),
                   SceneAfter(older, newer, kind, nad, o), OlderNet(older, kind));
  }

  /** A stale listing: Vpc "a" still lists a subnet that is now on Vpc "b", and deleting "a" takes it. */
  lemma StaleListingTakesOther(a: Obj, b: Obj, nad: Obj, o: Obj)
    requires Managed(a) && Managed(b) && Managed(nad) && Managed(o)
    requires o.labels == SubnetLabels("s", Some(Net(b.uid, "b", Vpc, [], None, None))) && nad.labels == NadLabels("s")
    requires o.spec.SubnetSpec? && o.spec.protocol == "IPv4" && o.spec.vpc == "b" && o.spec.vlan == ""
    ensures var objs: Objects := map[Key(Vpc, "a") := a, Key(Vpc, "b") := b, NadKey("s") := nad, SubnetKey("s") := o];
            var status: Status := map[Key(Vpc, "a") := ["s"]];
            && LabelInv(objs) && RefInv(objs) && Distinct(status) && !OwnListing(objs, status, Key(Vpc, "a"))
            && NetworkDeletion(Ok(()), ByName("a"), objs, status, map[Key(Vpc, "b") := b], false)
  {
    var objs: Objects := map[Key(Vpc, "a") := a, Key(Vpc, "b") := b, NadKey("s") := nad, SubnetKey("s") := o];
    var status: Status := map[Key(Vpc, "a") := ["s"]];
    OneSubnetIsFine(a, b, nad, o);
    assert StatusOf(status, Key(Vpc, "a")) == ["s"];
    NameMeansIff(objs, status, Key(Vpc, "a"));
    assert NameMeans(objs, status, Key(Vpc, "a"));
    DropPair(objs, "s");
    assert WithoutNetwork(objs, status, Key(Vpc, "a")) == map[Key(Vpc, "b") := b];
  }

  lemma OneSubnetIsFine(a: Obj, b: Obj, nad: Obj, o: Obj)
    requires Managed(a) && Managed(b) && Managed(nad) && Managed(o)
    requires o.labels == SubnetLabels("s", Some(Net(b.uid, "b", Vpc, [], None, None))) && nad.labels == NadLabels("s")
    requires o.spec.SubnetSpec? && o.spec.protocol == "IPv4" && o.spec.vpc == "b" && o.spec.vlan == ""
    ensures var objs: Objects := map[Key(Vpc, "a") := a, Key(Vpc, "b") := b, NadKey("s") := nad, SubnetKey("s") := o];
            LabelInv(objs) && RefInv(objs)
  {
    var objs: Objects := map[Key(Vpc, "a") := a, Key(Vpc, "b") := b, NadKey("s") := nad, SubnetKey("s") := o];
    assert NadOf(o) == NadKey("s");
    forall n ensures SubnetOk(objs, n) && RefOk(objs, n) {
    }
  }

  lemma NoSubnetsAreFine(objs: Objects)
    requires forall k :: k in objs ==> k.kind != Subnet
    ensures LabelInv(objs) && RefInv(objs)
  {
  }

  // ---------- TerminateVirtualisedNetworkResource ----------

  /** What terminating a UID does to the store when no call is lost: the OVN network it names with
      its listed subnets and their NADs, else the SR-IOV NAD, else the subnet with its NAD. */
  ghost function Terminated(objs: Objects, status: Status, uid: Uid): Option<Objects> {
    if NetworkBy(objs, status, ByUid(uid)).Ok? then
      Some(WithoutNetwork(objs, status, NetKey(NetworkBy(objs, status, ByUid(uid)).value)))
    else if FindSriov(objs, uid).Some? then Some(objs - {FindSriov(objs, uid).value})
    else if FindUid(objs, Subnet, uid).Some? then
      Some(objs - Doomed(objs, [FindUid(objs, Subnet, uid).value.name]))
    else None
  }

  /** What is left when a call is lost: nothing is gone but what the termination would have removed, a
      network or a SR-IOV NAD is still there, and of a subnet at most the NAD is left. */
  ghost predicate PartlyTerminated(objs: Objects, status: Status, uid: Uid, after: Objects) {
    var found, k := NetworkBy(objs, status, ByUid(uid)), FindUid(objs, Subnet, uid);
    if found.Ok? then PartlyWithout(objs, status, NetKey(found.value), after)
    else if FindSriov(objs, uid).Some? then after == objs
    else after == objs || (k.Some? && after == objs - {k.value})
  }

  /** Under the labelling invariant a lookup can only fail by finding nothing. */
  lemma LookupErrors(objs: Objects, status: Status, q: NetQuery)
    requires LabelInv(objs) && (q.name != "" || q.uid != "") && NetworkBy(objs, status, q).Error?
    requires forall k :: Visible(objs, k) ==> k.name != ""
    ensures NetworkBy(objs, status, q) == Error(NotFound)
  {
    KindErrors(objs, status, Vpc, q);
    KindErrors(objs, status, Vlan, q);
  }

  lemma KindErrors(objs: Objects, status: Status, kind: Kind, q: NetQuery)
    requires LabelInv(objs) && (q.name != "" || q.uid != "")
    requires forall k :: Visible(objs, k) ==> k.name != ""
    ensures NetworkOfKind(objs, status, kind, q).Ok? || NetworkOfKind(objs, status, kind, q).IsNotFound()
  {
    var k := FindNetwork(objs, kind, q);
    if k.Ok? {
      var names := StatusOf(status, k.value);
      SubnetIdsOf(objs, names);
      if SubnetIds(objs, names).Error? {
        var i :| 0 <= i < |names| && SubnetByName(objs, names[i]) == Error(SubnetIds(objs, names).err);
        assert SubnetOk(objs, names[i]);
      }
    }
  }

  lemma EmptyUidIsNobody(objs: Objects, used: set<Uid>)
    requires UidsOk(objs, used)
    ensures FindSriov(objs, "").None? && FindUid(objs, Subnet, "").None?
  {
  }

  /** TerminateVirtualisedNetworkResource over the composite manager: the OVN backend, then on
      not-found the SR-IOV backend, then on not-found a subnet. */
  method Terminate(c: Cluster, uid: Uid) returns (r: Result<()>)
    requires c.Valid() && LabelInv(c.objs)
    modifies c`objs, c`faults, c`status
    ensures c.Valid() && LabelInv(c.objs) && c.faults >= old(c.faults)
    ensures Distinct(c.status)
    ensures c.faults == old(c.faults) ==>
              match Terminated(old(c.objs), c.status, uid)
              case Some(after) => r.Ok? && c.objs == after
              case None => c.objs == old(c.objs) && r == Error(if uid == "" then InvalidArgument else NotFound)
    ensures c.faults > old(c.faults) ==> r == Error(Fault) && PartlyTerminated(old(c.objs), c.status, uid, c.objs)
  {
    EmptyUidIsNobody(c.objs, c.used);
    r := DeleteNetwork(c, ByUid(uid));
    if r.Ok? || !r.IsNotFound() {
      if r.Error? && c.faults == old(c.faults) && uid != "" { LookupErrors(old(c.objs), c.status, ByUid(uid)); }
      return;
    }
    r := DeleteSriov(c, uid);
    if r.Ok? || !r.IsNotFound() { return; }
    r := DeleteSubnet(c, uid);
  }

  /** Every subnet attached to a managed network is managed itself. */
  ghost predicate Owned(objs: Objects) {
    forall n, k :: SubnetKey(n) in objs && Refers(objs[SubnetKey(n)], k) && Visible(objs, k) ==>
      Managed(objs[SubnetKey(n)])
  }

  /** In a settled store a network is found by UID exactly when it exists. */
  lemma SettledLookup(objs: Objects, used: set<Uid>, status: Status, uid: Uid)
    requires UidsOk(objs, used) && LabelInv(objs) && Settled(objs, status) && Owned(objs) && uid != ""
    ensures NetworkBy(objs, status, ByUid(uid)).Ok? <==>
            exists k :: IsNetworkKey(k) && Visible(objs, k) && objs[k].uid == uid
  {
    if NetworkBy(objs, status, ByUid(uid)).Ok? {
      NetworkFound(objs, status, ByUid(uid));
    }
    forall k | IsNetworkKey(k) && Visible(objs, k) && objs[k].uid == uid
      ensures NetworkBy(objs, status, ByUid(uid)).Ok?
    {
      SettledResolves(objs, status, k);
      FindUidUnique(objs, used, k.kind, k);
      if k.kind == Vlan {
        assert FindUid(objs, Vpc, uid).None?;
      }
    }
  }

  lemma SettledResolves(objs: Objects, status: Status, k: Key)
    requires LabelInv(objs) && Settled(objs, status) && Owned(objs) && IsNetworkKey(k) && Visible(objs, k)
    ensures SubnetIds(objs, StatusOf(status, k)).Ok?
  {
    var names := StatusOf(status, k);
    SubnetIdsOf(objs, names);
    forall i | 0 <= i < |names| ensures SubnetByName(objs, names[i]).Ok? {
      assert names[i] in names && ListsAll(objs, status, k);
      assert SubnetOk(objs, names[i]);
    }
  }

  /** A network with everything that belongs to it. */
  function Belongs(objs: Objects, k: Key): set<Key> {
    {k} + (set j | j in objs && j.kind == Subnet && Refers(objs[j], k)) +
    (set j | j in objs && j.kind == Subnet && Refers(objs[j], k) :: NadOf(objs[j]))
  }

  lemma ListedBelong(objs: Objects, status: Status, k: Key)
    requires Settled(objs, status) && IsNetworkKey(k)
    ensures WithoutNetwork(objs, status, k) == objs - Belongs(objs, k)
  {
    var names := StatusOf(status, k);
    assert ListsAll(objs, status, k);
    forall j | j in objs && j.kind == Subnet && Refers(objs[j], k)
      ensures j in Doomed(objs, names) && NadOf(objs[j]) in Doomed(objs, names)
    {
      assert j == SubnetKey(j.name) && j.name in names;
    }
    assert Doomed(objs, names) + {k} == Belongs(objs, k);
  }

  /** Terminating a UID in a settled store: which objects go, and only those. An answer is not found
      exactly when no network and no subnet has this UID. */
  lemma TerminatedExactly(objs: Objects, used: set<Uid>, status: Status, uid: Uid, k: Key)
    requires UidsOk(objs, used) && LabelInv(objs) && Settled(objs, status) && Owned(objs) && uid != ""
    requires Visible(objs, k) && objs[k].uid == uid
    ensures Terminated(objs, status, uid) ==
            if IsNetworkKey(k) then Some(objs - Belongs(objs, k))
            else if k.kind == Nad && IsSriov(objs[k]) then Some(objs - {k})
            else if k.kind == Subnet then Some(objs - {k} - {NadOf(objs[k])})
            else None
  {
    SettledLookup(objs, used, status, uid);
    var found := NetworkBy(objs, status, ByUid(uid));
    if found.Ok? {
      NetworkFound(objs, status, ByUid(uid));
      assert NetKey(found.value) == k;
      ListedBelong(objs, status, k);
    } else if k.kind == Nad && IsSriov(objs[k]) {
      assert FindSriov(objs, uid) == Some(k);
    } else {
      assert FindSriov(objs, uid).None?;
      if k.kind == Subnet {
        FindUidUnique(objs, used, Subnet, k);
        DropPair(objs, k.name);
      } else {
        assert FindUid(objs, Subnet, uid).None?;
      }
    }
  }

  /** The object is one that terminating its UID removes. */
  ghost predicate Terminable(objs: Objects, status: Status, k: Key)
    requires k in objs
  {
    || k.kind == Subnet
    || (k.kind == Nad && IsSriov(objs[k]))
    || (IsNetworkKey(k) && Answering(objs, status, k))
  }

  lemma TerminableIsTerminated(objs: Objects, used: set<Uid>, status: Status, k: Key)
    requires UidsOk(objs, used) && LabelInv(objs) && Visible(objs, k) && Terminable(objs, status, k)
    ensures Terminated(objs, status, objs[k].uid).Some?
  {
    if IsNetworkKey(k) {
      FoundByUidIff(objs, used, status, k);
    } else if k.kind == Subnet {
      FindUidUnique(objs, used, Subnet, k);
    }
  }

  /** For every store and listing: the answer is not found exactly when no visible object with the UID
      is a subnet, a SR-IOV network or a network that answers. A network whose listing is ahead of the
      store is not found although it is there. */
  lemma NotFoundMeansAbsent(objs: Objects, used: set<Uid>, status: Status, uid: Uid)
    requires UidsOk(objs, used) && LabelInv(objs) && uid != ""
    ensures Terminated(objs, status, uid).None? <==>
            forall k :: Visible(objs, k) && objs[k].uid == uid ==> !Terminable(objs, status, k)
  {
    forall k | Visible(objs, k) && objs[k].uid == uid && Terminable(objs, status, k)
      ensures Terminated(objs, status, uid).Some?
    {
      TerminableIsTerminated(objs, used, status, k);
    }
    if NetworkBy(objs, status, ByUid(uid)).Ok? {
      NetworkFound(objs, status, ByUid(uid));
      var k := NetKey(NetworkBy(objs, status, ByUid(uid)).value);
      FoundByUidIff(objs, used, status, k);
      assert Terminable(objs, status, k);
    }
  }

  /** In a settled store, then, exactly when no network and no subnet has the UID. */
  lemma SettledNotFound(objs: Objects, used: set<Uid>, status: Status, uid: Uid)
    requires UidsOk(objs, used) && LabelInv(objs) && Settled(objs, status) && Owned(objs) && uid != ""
    ensures Terminated(objs, status, uid).None? <==>
            forall k :: Visible(objs, k) && objs[k].uid == uid ==>
              !IsNetworkKey(k) && k.kind != Subnet && !(k.kind == Nad && IsSriov(objs[k]))
  {
    NotFoundMeansAbsent(objs, used, status, uid);
    forall k | Visible(objs, k) && IsNetworkKey(k) ensures Answering(objs, status, k) {
      SettledResolves(objs, status, k);
      AnsweringAt(objs, status, k);
    }
  }
}
