/** The composite network manager: the OVN backend first, the SR-IOV backend on not-found. */
module Composite {
  import opened Kube
  import opened NetworkLabels
  import opened Networks
  import opened KubeOvn
  import opened KubeOvnCreate
  import opened NetworkRuns
  import opened SriovNetworks

  datatype AnyNet = Ovn(net: Net) | Sriov(id: Uid, name: string)

  ghost function SriovBy(objs: Objects, q: NetQuery): Result<AnyNet> {
    if q.name != "" then
      var k := Key(Nad, q.name);
      if Visible(objs, k) && IsSriov(objs[k]) then Ok(Sriov(objs[k].uid, q.name)) else Error(NotFound)
    else if q.uid != "" then
      var k := FindSriov(objs, q.uid);
      if k.Some? then Ok(Sriov(q.uid, k.value.name)) else Error(NotFound)
    else Error(InvalidArgument)
  }

  /** GetNetwork: only the application's own not-found error falls through. */
  ghost function AnyNetworkBy(objs: Objects, status: Status, q: NetQuery): Result<AnyNet> {
    var ovn := NetworkBy(objs, status, q);
    if ovn.Ok? then Ok(Ovn(ovn.value))
    else if ovn.err != NotFound then Error(ovn.err)
    else
      var sriov := SriovBy(objs, q);
      if sriov.Ok? || sriov.err != NotFound then sriov else Error(NotFound)
  }

  method ReadSriov(c: Cluster, q: NetQuery) returns (r: Result<AnyNet>)
    requires c.Valid()
    modifies c`faults
    ensures Answers(r, SriovBy(c.objs, q), old(c.faults), c.faults)
  {
    if q.name != "" {
      var o := c.Get(Key(Nad, q.name));
      if o == Error(ApiNotFound) { return Error(NotFound); }
      if o.Error? { return Error(o.err); }
      r := if IsSriov(o.value) then Ok(Sriov(o.value.uid, q.name)) else Error(NotFound);
    } else if q.uid != "" {
      var list := c.List(Nad);
      if list.Error? { return Error(list.err); }
      var keys := list.value;
      for i := 0 to |keys|
        invariant c.faults == old(c.faults)
        invariant forall h :: 0 <= h < i ==> !(IsSriov(c.objs[keys[h]]) && c.objs[keys[h]].uid == q.uid)
      {
        if IsSriov(c.objs[keys[i]]) && c.objs[keys[i]].uid == q.uid {
          return Ok(Sriov(q.uid, keys[i].name));
        }
      }
      r := Error(NotFound);
    } else {
      r := Error(InvalidArgument);
    }
  }

  method ReadAnyNetwork(c: Cluster, q: NetQuery) returns (r: Result<AnyNet>)
    requires c.Valid()
    modifies c`faults
    ensures Answers(r, AnyNetworkBy(c.objs, c.status, q), old(c.faults), c.faults)
  {
    var ovn := ReadNetwork(c, q);
    if ovn.Ok? { return Ok(Ovn(ovn.value)); }
    if ovn.err != NotFound { return Error(ovn.err); }
    r := ReadSriov(c, q);
  }

  // ---------- a SR-IOV network's life ----------

  lemma FoundByUid(objs: Objects, used: set<Uid>, status: Status, k: Key)
    requires UidsOk(objs, used) && k in objs && k.kind == Nad && IsSriov(objs[k])
    ensures FindSriov(objs, objs[k].uid) == Some(k) && NetworkBy(objs, status, ByUid(objs[k].uid)) == Error(NotFound)
    ensures AnyNetworkBy(objs, status, ByUid(objs[k].uid)) == Ok(Sriov(objs[k].uid, k.name))
  {
    var uid := objs[k].uid;
    assert FindSriov(objs, uid) == Some(k);
    assert FindUid(objs, Vpc, uid).None? && FindUid(objs, Vlan, uid).None?;
  }

  lemma FoundByName(objs: Objects, status: Status, k: Key)
    requires LabelInv(objs) && k.name != "" && k in objs && k.kind == Nad && IsSriov(objs[k])
    ensures AnyNetworkBy(objs, status, ByName(k.name)) == Ok(Sriov(objs[k].uid, k.name)) <==>
            !Answering(objs, status, Key(Vpc, k.name)) && !Answering(objs, status, Key(Vlan, k.name))
  {
    AnsweringIsFound(objs, status, Key(Vpc, k.name));
    AnsweringIsFound(objs, status, Key(Vlan, k.name));
  }

  lemma NadAnswersNothing(before: Objects, after: Objects, status: Status, nad: Key, k: Key)
    requires nad.kind == Nad && nad in after && after == before[nad := after[nad]] && k.kind != Nad
    ensures Answering(before, status, k) <==> Answering(after, status, k)
  {
    assert forall j: Key :: j.kind != Nad ==> (Visible(after, j) <==> Visible(before, j));
  }

  /** A SR-IOV network just created is found by its UID, and by its name exactly when no OVN network
      of that name answers. */
  lemma CreatedIsFound(cni: Cni, before: Objects, status: Status, used: set<Uid>, after: Objects, name: string,
                       net: SriovNet)
    requires LabelInv(before) && UidsOk(after, used) && SriovAdded(cni, before, after, name, net)
    ensures AnyNetworkBy(after, status, ByUid(net.id)) == Ok(Sriov(net.id, name))
    ensures AnyNetworkBy(after, status, ByName(name)) == Ok(Sriov(net.id, name)) <==>
            !Answering(before, status, Key(Vpc, name)) && !Answering(before, status, Key(Vlan, name))
  {
    var k := Key(Nad, name);
    SriovAddedKeeps(cni, before, after, name, net);
    FoundByUid(after, used, status, k);
    FoundByName(after, status, k);
    NadAnswersNothing(before, after, status, k, Key(Vpc, name));
    NadAnswersNothing(before, after, status, k, Key(Vlan, name));
  }

  /** Terminating a SR-IOV network just created restores the store exactly. */
  lemma TerminateUndoesCreate(cni: Cni, before: Objects, status: Status, used: set<Uid>, after: Objects, name: string,
                              net: SriovNet)
    requires UidsOk(after, used) && SriovAdded(cni, before, after, name, net)
    ensures Terminated(after, status, net.id) == Some(before)
  {
    FoundByUid(after, used, status, Key(Nad, name));
    assert after - {Key(Nad, name)} == before;
  }

  // ---------- the other operations ----------

  /** A UID that leads to an OVN network is a UUID and no SR-IOV network's. */
  lemma OvnUid(objs: Objects, used: set<Uid>, status: Status, uid: Uid)
    requires UidsOk(objs, used) && NetworkBy(objs, status, ByUid(uid)).Ok?
    ensures IsUuid(uid) && uid != "" && FindSriov(objs, uid).None?
  {
    NetworkFound(objs, status, ByUid(uid));
  }

  lemma AttachedAsAsked(r: Result<Sub>, name: string, data: SubnetData, before: Objects, status: Status,
                        after: Objects, net: Option<Net>, orphaned: bool)
    requires SubnetCreation(r, name, data, before, status, after, net, orphaned) && r.Ok?
    requires data.networkId == "" || IsUuid(data.networkId)
    ensures r.value.networkId == if data.networkId == "" then None else Some(data.networkId)
  {
    if net.Some? {
      NetworkFound(before, status, QueryFor(data.networkId));
      assert net.value.id == data.networkId;
    }
    assert r == ToSubnet(after[SubnetKey(name)]);
    assert after[SubnetKey(name)].labels == SubnetLabels(name, net);
  }

  /** CreateSubnet, routed by what the network id names. The OVN backend would take a network name
      for an id, but here only UIDs resolve: a created subnet carries exactly the id given. */
  method CreateSubnetAnywhere(c: Cluster, name: string, networkId: Option<Uid>, data: SubnetData)
    returns (r: Result<Sub>, ghost net: Option<Net>, ghost orphaned: bool)
    requires c.Valid() && LabelInv(c.objs) && data.networkId == (if networkId.Some? then networkId.value else "")
    modifies c
    ensures c.Valid() && LabelInv(c.objs)
    ensures SubnetCreation(r, name, data, old(c.objs), c.status, c.objs, net, orphaned)
    ensures r.Ok? ==> r.value.networkId == networkId
    ensures networkId.Some? && FindSriov(old(c.objs), networkId.value).Some? ==> r.Error? && c.objs == old(c.objs)
    ensures networkId.Some? && !IsUuid(networkId.value) ==> r.Error? && c.objs == old(c.objs)
  {
    net, orphaned := None, false;
    if networkId.Some? {
      Controller(c);
      var any := ReadAnyNetwork(c, ByUid(networkId.value));
      if any.Error? { return Error(any.err), net, orphaned; }
      if any.value.Sriov? { return Error(Unsupported), net, orphaned; }
      OvnUid(c.objs, c.used, c.status, networkId.value);
    }
    r, net, orphaned := CreateSubnet(c, name, data);
    if r.Ok? { AttachedAsAsked(r, name, data, old(c.objs), c.status, c.objs, net, orphaned); }
  }

  /** The entry is a SR-IOV network among these keys. */
  predicate ListedAs(objs: Objects, keys: seq<Key>, n: AnyNet) {
    n.Sriov? && var k := Key(Nad, n.name); k in keys && k in objs && IsSriov(objs[k]) && objs[k].uid == n.id
  }

  /** Every SR-IOV network exactly once, each entry what GetNetwork by its UID returns. */
  method ListSriov(c: Cluster) returns (r: Result<seq<AnyNet>>)
    requires c.Valid()
    modifies c`faults
    ensures r.Ok? ==>
              && c.faults == old(c.faults)
              && (forall i :: 0 <= i < |r.value| ==>
                    r.value[i].Sriov? && AnyNetworkBy(c.objs, c.status, ByUid(r.value[i].id)) == Ok(r.value[i]))
              && (forall k :: k in c.objs && k.kind == Nad && IsSriov(c.objs[k]) ==>
                    Sriov(c.objs[k].uid, k.name) in r.value)
              && NoDup(r.value)
    ensures r.Error? ==> r == Error(Fault) && c.faults > old(c.faults)
  {
    var list := c.List(Nad);
    if list.Error? { return Error(list.err); }
    var keys := list.value;
    var out: seq<AnyNet> := [];
    for i := 0 to |keys|
      invariant c.faults == old(c.faults) && NoDup(out)
      invariant forall h :: 0 <= h < |out| ==> ListedAs(c.objs, keys[..i], out[h])
      invariant forall h :: 0 <= h < i && IsSriov(c.objs[keys[h]]) ==> Sriov(c.objs[keys[h]].uid, keys[h].name) in out
    {
      if IsSriov(c.objs[keys[i]]) {
        out := out + [Sriov(c.objs[keys[i]].uid, keys[i].name)];
      }
    }
    forall h | 0 <= h < |out| ensures AnyNetworkBy(c.objs, c.status, ByUid(out[h].id)) == Ok(out[h]) {
      assert ListedAs(c.objs, keys[..|keys|], out[h]);
      FoundByUid(c.objs, c.used, c.status, Key(Nad, out[h].name));
    }
    r := Ok(out);
  }
}
