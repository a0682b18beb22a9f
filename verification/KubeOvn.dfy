/** The kube-OVN network manager's operations, call by call, over the cluster.

    Sequential runs: one operation at a time, each API call possibly failing, and the kube-OVN
    controller rewriting `Status.Subnets` before every read of a network.
 */
module KubeOvn {
  import opened Kube
  import opened NetworkLabels
  import opened Networks

  /** A read returns what the store holds, or fails for a lost call. */
  ghost predicate Answers<T>(r: Result<T>, want: Result<T>, before: nat, after: nat) {
    if after == before then r == want && r != Error(Fault) else after > before && r == Error(Fault)
  }

  method ReadSubnetByName(c: Cluster, name: string) returns (r: Result<Sub>)
    modifies c`faults
    ensures Answers(r, SubnetByName(c.objs, name), old(c.faults), c.faults)
  {
    var o := c.Get(SubnetKey(name));
    if o.Error? { return Error(o.err); }
    r := ToSubnet(o.value);
  }

  /** Search a listing for a UID. */
  method SearchUid(c: Cluster, kind: Kind, uid: Uid) returns (r: Result<Key>)
    requires c.Valid()
    modifies c`faults
    ensures Answers(r, var k := FindUid(c.objs, kind, uid); if k.Some? then Ok(k.value) else Error(NotFound),
                    old(c.faults), c.faults)
  {
    var list := c.List(kind);
    if list.Error? { return Error(list.err); }
    var keys := list.value;
    var i := 0;
    while i < |keys|
      invariant 0 <= i <= |keys|
      invariant forall h :: 0 <= h < i ==> c.objs[keys[h]].uid != uid
    {
      if c.objs[keys[i]].uid == uid {
        FindUidUnique(c.objs, c.used, kind, keys[i]);
        return Ok(keys[i]);
      }
      i := i + 1;
    }
    r := Error(NotFound);
  }

  method ReadSubnetByUid(c: Cluster, uid: Uid) returns (r: Result<Sub>)
    requires c.Valid()
    modifies c`faults
    ensures Answers(r, SubnetByUid(c.objs, uid), old(c.faults), c.faults)
  {
    if uid == "" { return Error(InvalidArgument); }
    var k := SearchUid(c, Subnet, uid);
    if k.Error? { return Error(k.err); }
    r := ToSubnet(c.objs[k.value]);
  }

  method ReadSubnetByNad(c: Cluster, nad: string) returns (r: Result<Sub>)
    modifies c`faults
    ensures Answers(r, SubnetByNad(c.objs, nad), old(c.faults), c.faults)
  {
    var o := c.Get(Key(Nad, nad));
    if o.Error? { return Error(o.err); }
    if SubnetName !in o.value.labels { return Error(InvalidArgument); }
    r := ReadSubnetByName(c, o.value.labels[SubnetName]);
  }

  lemma {:induction false} SubnetIdsStop(objs: Objects, names: seq<string>, i: nat)
    requires i <= |names| && SubnetIds(objs, names[..i]).Error?
    ensures SubnetIds(objs, names) == SubnetIds(objs, names[..i])
    decreases |names|
  {
    if i == |names| {
      assert names[..i] == names;
    } else {
      assert names[..|names| - 1][..i] == names[..i];
      SubnetIdsStop(objs, names[..|names| - 1], i);
    }
  }

  method ReadSubnetIds(c: Cluster, names: seq<string>) returns (r: Result<seq<Uid>>)
    modifies c`faults
    ensures Answers(r, SubnetIds(c.objs, names), old(c.faults), c.faults)
  {
    var ids: seq<Uid> := [];
    var i := 0;
    while i < |names|
      invariant 0 <= i <= |names| && c.faults == old(c.faults)
      invariant SubnetIds(c.objs, names[..i]) == Ok(ids)
    {
      assert names[..i + 1][..i] == names[..i];
      var s := ReadSubnetByName(c, names[i]);
      if s.Error? {
        if c.faults == old(c.faults) { SubnetIdsStop(c.objs, names, i + 1); }
        return Error(s.err);
      }
      ids := ids + [s.value.id];
      i := i + 1;
    }
    assert names[..|names|] == names;
    r := Ok(ids);
  }

  method LocateNetwork(c: Cluster, kind: Kind, q: NetQuery) returns (r: Result<Key>)
    requires c.Valid()
    modifies c`faults
    ensures Answers(r, FindNetwork(c.objs, kind, q), old(c.faults), c.faults)
  {
    if q.name != "" {
      var o := c.Get(Key(kind, q.name));
      if o.Error? { return Error(o.err); }
      r := Ok(Key(kind, q.name));
    } else if q.uid != "" {
      r := SearchUid(c, kind, q.uid);
    } else {
      r := Error(InvalidArgument);
    }
  }

  method ReadNetworkOfKind(c: Cluster, kind: Kind, q: NetQuery) returns (r: Result<Net>)
    requires c.Valid()
    modifies c`faults
    ensures Answers(r, NetworkOfKind(c.objs, c.status, kind, q), old(c.faults), c.faults)
  {
    var k := LocateNetwork(c, kind, q);
    if k.Error? { return Error(k.err); }
    var ids := ReadSubnetIds(c, StatusOf(c.status, k.value));
    if ids.Error? { return Error(ids.err); }
    r := ToNetwork(k.value, c.objs[k.value], ids.value);
  }

  /** GetNetwork */
  method ReadNetwork(c: Cluster, q: NetQuery) returns (r: Result<Net>)
    requires c.Valid()
    modifies c`faults
    ensures Answers(r, NetworkBy(c.objs, c.status, q), old(c.faults), c.faults)
  {
    r := ReadNetworkOfKind(c, Vpc, q);
    if r.Ok? || !r.IsNotFound() { return; }
    r := ReadNetworkOfKind(c, Vlan, q);
    if r.Ok? || !r.IsNotFound() { return; }
    r := Error(NotFound);
  }

  /** The kube-OVN controller at work: it rewrites the listings, in whatever way. */
  method Controller(c: Cluster)
    modifies c`status
    ensures Distinct(c.status)
  {
    var next: Status := *;
    c.status := if Distinct(next) then next else map[];
  }

  /** How DeleteSubnet can end. */
  ghost predicate SubnetDeletion(r: Result<()>, uid: Uid, before: Objects, after: Objects, lost: bool) {
    var k := FindUid(before, Subnet, uid);
    match r
    case Ok(_) => k.Some? && after == before - Doomed(before, [k.value.name]) && !lost
    case Error(Fault) => lost && (after == before || (k.Some? && after == before - {k.value}))
    case Error(e) =>
      && e == (if uid == "" then InvalidArgument else NotFound) && (uid != "" ==> k.None?)
      && after == before && !lost
  }

  /** The two deletes: the Subnet first, its NAD second. */
  method DeletePair(c: Cluster, name: string, nad: Key) returns (r: Result<()>)
    requires c.Valid() && LabelInv(c.objs)
    requires Visible(c.objs, SubnetKey(name)) && nad == NadOf(c.objs[SubnetKey(name)])
    modifies c`objs, c`faults
    ensures c.Valid() && LabelInv(c.objs)
    ensures r.Ok? ==> c.objs == old(c.objs) - Doomed(old(c.objs), [name]) && c.faults == old(c.faults)
    ensures r.Error? ==> r.err == Fault && c.faults > old(c.faults)
    ensures r.Error? ==> c.objs == old(c.objs) || c.objs == old(c.objs) - {SubnetKey(name)}
  {
    DropPair(c.objs, name);
    DropSubnetKeepsLabels(c.objs, name);
    r := c.Delete(SubnetKey(name));
    if r.Error? { return; }
    r := c.Delete(nad);
  }

  /** DeleteSubnet, found by UID. Both names come from the subnet's labels. */
  method DeleteSubnet(c: Cluster, uid: Uid) returns (r: Result<()>)
    requires c.Valid() && LabelInv(c.objs)
    modifies c`objs, c`faults
    ensures c.Valid() && LabelInv(c.objs) && c.faults >= old(c.faults)
    ensures SubnetDeletion(r, uid, old(c.objs), c.objs, c.faults > old(c.faults))
  {
    ghost var k := FindUid(c.objs, Subnet, uid);
    assert k.Some? ==> k.value == SubnetKey(k.value.name) && SubnetOk(c.objs, k.value.name);
    var s := ReadSubnetByUid(c, uid);
    if s.Error? { return Error(s.err); }
    r := DeletePair(c, Label(s.value.labels, SubnetName), Key(Nad, Label(s.value.labels, SubnetNetAttach)));
  }

  /** How DeleteNetwork can end. `status` is what the controller had written when it was read. */
  ghost predicate NetworkDeletion(r: Result<()>, q: NetQuery, before: Objects, status: Status,
                                  after: Objects, lost: bool) {
    var found := NetworkBy(before, status, q);
    match r
    case Ok(_) => !lost && found.Ok? && after == WithoutNetwork(before, status, NetKey(found.value))
    case Error(Fault) => lost && (found.Error? ==> after == before) &&
                         (found.Ok? ==> PartlyWithout(before, status, NetKey(found.value), after))
    case Error(e) => !lost && found == Error(e) && after == before
  }

  /** The store without a network, its listed subnets and their NADs. */
  function WithoutNetwork(objs: Objects, status: Status, k: Key): Objects {
    objs - Doomed(objs, StatusOf(status, k)) - {k}
  }

  /** Nothing is gone but some of these subnets and their NADs. */
  ghost predicate SomeGone(before: Objects, names: seq<string>, after: Objects) {
    exists gone :: gone <= Doomed(before, names) && after == before - gone
  }

  /** Only listed subnets and NADs are gone, the network is not. */
  ghost predicate PartlyWithout(before: Objects, status: Status, k: Key, after: Objects) {
    && k in after
    && SomeGone(before, StatusOf(status, k), after)
  }

  /** These are the UIDs of the visible subnets of these names. */
  ghost predicate AreListed(objs: Objects, ids: seq<Uid>, seen: seq<string>) {
    && NoDup(seen) && |ids| == |seen|
    && forall i :: 0 <= i < |seen| ==> Visible(objs, SubnetKey(seen[i])) && ids[i] == objs[SubnetKey(seen[i])].uid
  }

  /** What deleting the next listed subnet leaves. */
  lemma DeletedNext(before: Objects, used: set<Uid>, ids: seq<Uid>, seen: seq<string>, i: nat, r: Result<()>,
                    after: Objects, lost: bool)
    requires UidsOk(before, used) && LabelInv(before) && AreListed(before, ids, seen) && i < |seen|
    requires SubnetDeletion(r, ids[i], before - Doomed(before, seen[..i]), after, lost)
    ensures r.Ok? ==> after == before - Doomed(before, seen[..i + 1]) && !lost
    ensures r.Error? ==> r.err == Fault && lost && SomeGone(before, seen, after)
  {
    DropNext(before, used, seen, i);
    assert IsUuid(before[SubnetKey(seen[i])].uid);
    if r.Error? { PrefixGone(before, after, seen, i); }
  }

  /** The loop over a network's subnets: `seen` are their names, `ids` their UIDs. */
  method DeleteListed(c: Cluster, ids: seq<Uid>, ghost seen: seq<string>) returns (r: Result<()>)
    requires c.Valid() && LabelInv(c.objs) && AreListed(c.objs, ids, seen)
    modifies c`objs, c`faults
    ensures c.Valid() && LabelInv(c.objs)
    ensures r.Ok? ==> c.objs == old(c.objs) - Doomed(old(c.objs), seen) && c.faults == old(c.faults)
    ensures r.Error? ==> r.err == Fault && c.faults > old(c.faults)
    ensures r.Error? ==> SomeGone(old(c.objs), seen, c.objs)
  {
    ghost var before := c.objs;
    var i := 0;
    while i < |ids|
      invariant 0 <= i <= |ids| && c.faults == old(c.faults)
      invariant c.Valid() && LabelInv(c.objs) && c.objs == before - Doomed(before, seen[..i])
    {
      ghost var lost := c.faults;
      r := DeleteSubnet(c, ids[i]);
      DeletedNext(before, c.used, ids, seen, i, r, c.objs, c.faults > lost);
      if r.Error? { return; }
      i := i + 1;
    }
    assert seen[..|seen|] == seen;
    r := Ok(());
  }

  /** DeleteNetwork: every listed subnet in turn, the network object last. */
  method DeleteNetwork(c: Cluster, q: NetQuery) returns (r: Result<()>)
    requires c.Valid() && LabelInv(c.objs)
    modifies c`objs, c`faults, c`status
    ensures c.Valid() && LabelInv(c.objs) && c.faults >= old(c.faults)
    ensures Distinct(c.status)
    ensures NetworkDeletion(r, q, old(c.objs), c.status, c.objs, c.faults > old(c.faults))
  {
    Controller(c);
    var net := ReadNetwork(c, q);
    if net.Error? {
      if NetworkBy(c.objs, c.status, q).Ok? { NothingGone(c.objs, c.status, q); }
      return Error(net.err);
    }
    var k := NetKey(net.value);
    ghost var before, seen := c.objs, StatusOf(c.status, k);
    NetworkFound(before, c.status, q);
    ListedSubnets(before, c.status, q);
    r := DeleteListed(c, net.value.subnetIds, seen);
    NetworkIsNotDoomed(before, seen, k);
    if r.Error? {
      assert PartlyWithout(before, c.status, k, c.objs);
      return;
    }
    DropNetworkKeepsLabels(c.objs, k);
    r := c.Delete(k);
    assert r.Error? ==> PartlyWithout(before, c.status, k, before - Doomed(before, seen));
  }

  lemma NetworkIsNotDoomed(objs: Objects, seen: seq<string>, k: Key)
    requires IsNetworkKey(k)
    ensures k !in Doomed(objs, seen)
  {
  }

  lemma NothingGone(objs: Objects, status: Status, q: NetQuery)
    requires NetworkBy(objs, status, q).Ok?
    ensures PartlyWithout(objs, status, NetKey(NetworkBy(objs, status, q).value), objs)
  {
    NetworkFound(objs, status, q);
    var none: set<Key> := {};
    assert objs == objs - none;
  }

  lemma PrefixGone(before: Objects, after: Objects, seen: seq<string>, i: nat)
    requires i < |seen| && forall n :: n in seen ==> SubnetKey(n) in before
    requires var left := before - Doomed(before, seen[..i]);
             after == left || after == left - {SubnetKey(seen[i])}
    ensures SomeGone(before, seen, after)
  {
    var gone := Doomed(before, seen[..i]) + (if SubnetKey(seen[i]) in after then {} else {SubnetKey(seen[i])});
    assert seen[i] in seen;
    assert gone <= Doomed(before, seen) by {
      forall n | n in seen[..i] ensures n in seen { }
    }
    assert after == before - gone;
  }

  /** The status of the network a query finds lists all the network's managed subnets. */
  ghost predicate Complete(objs: Objects, status: Status, q: NetQuery) {
    var found := NetworkBy(objs, status, q);
    found.Ok? ==> forall n :: Visible(objs, SubnetKey(n)) && Refers(objs[SubnetKey(n)], NetKey(found.value)) ==>
                    n in StatusOf(status, NetKey(found.value))
  }

  /** Deleting a network under a complete listing keeps every reference good, however it ends. */
  lemma DeletionKeepsRefs(r: Result<()>, q: NetQuery, before: Objects, status: Status, after: Objects, lost: bool)
    requires LabelInv(before) && RefInv(before) && NetworkDeletion(r, q, before, status, after, lost)
    requires Complete(before, status, q)
    ensures RefInv(after)
  {
    var found := NetworkBy(before, status, q);
    if found.Ok? {
      NetworkFound(before, status, q);
      ListedSubnets(before, status, q);
      var k := NetKey(found.value);
      if r.Ok? {
        NetworkDropKeepsRefsIff(before, k, StatusOf(status, k));
      } else {
        var gone :| gone <= Doomed(before, StatusOf(status, k)) && after == before - gone;
        DropKeepsRefs(before, gone);
      }
    }
  }

  /** Deleting a network spares the subnets of all others exactly when its listing names only its own. */
  lemma DeletionSparesOthersIff(objs: Objects, status: Status, k: Key)
    requires LabelInv(objs) && IsNetworkKey(k) && Answering(objs, status, k)
    ensures OwnListing(objs, status, k) <==>
            forall n :: Visible(objs, SubnetKey(n)) && !Refers(objs[SubnetKey(n)], k) ==>
              SubnetKey(n) in WithoutNetwork(objs, status, k)
  {
    var names := StatusOf(status, k);
    forall n | Visible(objs, SubnetKey(n)) ensures SubnetKey(n) in WithoutNetwork(objs, status, k) <==> n !in names {
      assert SubnetKey(n) in Doomed(objs, names) <==> n in names;
    }
  }

  /** Not labelled as managed by kube-nfv. */
  predicate Foreign(o: Obj) {
    ManagedBy !in o.labels || o.labels[ManagedBy] != "kube-nfv"
  }

  /** However a deletion ends, objects that are not kube-nfv's own stay as they are. */
  lemma DeletionSparesForeign(r: Result<()>, q: NetQuery, before: Objects, status: Status, after: Objects, lost: bool,
                              k: Key)
    requires LabelInv(before) && NetworkDeletion(r, q, before, status, after, lost)
    requires k in before && Foreign(before[k])
    ensures k in after && after[k] == before[k]
  {
    var found := NetworkBy(before, status, q);
    if found.Ok? {
      NetworkFound(before, status, q);
      ListedSubnets(before, status, q);
      DoomedIsOwn(before, StatusOf(status, NetKey(found.value)), k);
    }
  }

  lemma SubnetDeletionSparesForeign(r: Result<()>, uid: Uid, before: Objects, after: Objects, lost: bool, k: Key)
    requires LabelInv(before) && SubnetDeletion(r, uid, before, after, lost)
    requires k in before && Foreign(before[k])
    ensures k in after && after[k] == before[k]
  {
    var found := FindUid(before, Subnet, uid);
    if found.Some? {
      assert found.value == SubnetKey(found.value.name);
      DoomedIsOwn(before, [found.value.name], k);
    }
  }

  lemma DoomedIsOwn(objs: Objects, names: seq<string>, k: Key)
    requires LabelInv(objs) && k in objs && Foreign(objs[k])
    requires forall n :: n in names ==> Visible(objs, SubnetKey(n))
    ensures k !in Doomed(objs, names)
  {
    forall n | n in names ensures k != SubnetKey(n) && k != NadOf(objs[SubnetKey(n)]) {
      assert SubnetOk(objs, n);
    }
  }
}
