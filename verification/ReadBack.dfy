/** Reading a VM back into vNICs, the inverse of the IPAM resolver. */
module ReadBack {
  import opened Kube
  import opened Networks
  import opened KubeOvn
  import opened SriovNetworks
  import opened Composite
  import opened Ipam

  datatype NicType = BridgeNic | SriovNic

  /** vivnfm.VirtualNetworkInterface */
  datatype Vnic = Vnic(name: string, nic: NicType, management: bool, subnetId: Option<string>,
                       networkId: Option<string>)

  const DELETED := "deleted"

  function NicTypeOf(b: Binding): NicType {
    if b == SriovBinding then SriovNic else BridgeNic
  }

  /** getInterfaceFromVmi: the first interface of that name. */
  function Lookup(ifaces: seq<VmIface>, name: string): Result<VmIface> {
    if ifaces == [] then Error(NotFound)
    else if ifaces[0].name == name then Ok(ifaces[0])
    else Lookup(ifaces[1..], name)
  }

  lemma {:induction false} LookupFinds(ifaces: seq<VmIface>, name: string, i: nat)
    requires i < |ifaces| && ifaces[i].name == name
    ensures Lookup(ifaces, name).Ok?
    ensures exists j :: 0 <= j <= i && ifaces[j] == Lookup(ifaces, name).value && ifaces[j].name == name
  {
    if ifaces[0].name != name {
      LookupFinds(ifaces[1..], name, i - 1);
      var j :| 0 <= j <= i - 1 && ifaces[1..][j] == Lookup(ifaces[1..], name).value && ifaces[1..][j].name == name;
      assert ifaces[j + 1] == Lookup(ifaces, name).value;
    }
  }

  /** A vNIC behind a NAD of the cluster network, "deleted" if the NAD or its subnet is gone. */
  function SubnetVnic(objs: Objects, name: string, nic: NicType, nad: string): Result<Vnic> {
    var s := SubnetByNad(objs, nad);
    if s.IsNotFound() then Ok(Vnic(name, nic, false, Some(DELETED), Some(DELETED)))
    else if s.Error? then Error(s.err)
    else Ok(Vnic(name, nic, false, Some(s.value.id), s.value.networkId))
  }

  /** One vNIC: an SR-IOV network of the NAD's name first, then the subnet behind the NAD. */
  ghost function VnicFor(objs: Objects, status: Status, net: VmNet, ifaces: seq<VmIface>): Result<Vnic> {
    var iface := Lookup(ifaces, net.name);
    if iface.Error? then Error(iface.err)
    else
      var nic := NicTypeOf(iface.value.binding);
      match net.source
      case Pod => Ok(Vnic(net.name, nic, true, None, None))
      case Multus(nad) =>
        var any := AnyNetworkBy(objs, status, ByName(nad));
        if any.Ok? && any.value.Sriov? then Ok(Vnic(net.name, nic, false, None, Some(any.value.id)))
        else SubnetVnic(objs, net.name, nic, nad)
  }

  /** What a vNIC reads as when a call is lost: an error, or, if it was the network lookup that was
      lost, what lies behind the NAD. */
  ghost predicate LostVnic(objs: Objects, net: VmNet, ifaces: seq<VmIface>, r: Result<Vnic>) {
    var iface := Lookup(ifaces, net.name);
    && iface.Ok? && net.source.Multus?
    && (r == Error(Fault) || r == SubnetVnic(objs, net.name, NicTypeOf(iface.value.binding), net.source.nad))
  }

  method ReadVnic(c: Cluster, net: VmNet, ifaces: seq<VmIface>) returns (r: Result<Vnic>)
    requires c.Valid()
    modifies c`faults
    ensures c.faults >= old(c.faults)
    ensures c.faults == old(c.faults) ==> r == VnicFor(c.objs, c.status, net, ifaces)
    ensures c.faults > old(c.faults) ==> LostVnic(c.objs, net, ifaces, r)
  {
    var iface := Lookup(ifaces, net.name);
    if iface.Error? { return Error(iface.err); }
    var nic := NicTypeOf(iface.value.binding);
    if net.source.Pod? { return Ok(Vnic(net.name, nic, true, None, None)); }
    var any := ReadAnyNetwork(c, ByName(net.source.nad));
    if any.Ok? && any.value.Sriov? {
      return Ok(Vnic(net.name, nic, false, None, Some(any.value.id)));
    }
    var s := ReadSubnetByNad(c, net.source.nad);
    if s.IsNotFound() { return Ok(Vnic(net.name, nic, false, Some(DELETED), Some(DELETED))); }
    if s.Error? { return Error(s.err); }
    r := Ok(Vnic(net.name, nic, false, Some(s.value.id), s.value.networkId));
  }

  /** The vNIC list of nfvVirtualComputeFromKubevirtVm. */
  method ReadVnics(c: Cluster, nets: seq<VmNet>, ifaces: seq<VmIface>) returns (r: Result<seq<Vnic>>)
    requires c.Valid()
    modifies c`faults
    ensures c.faults >= old(c.faults)
    ensures c.faults == old(c.faults) ==>
              (r.Ok? <==> forall i :: 0 <= i < |nets| ==> VnicFor(c.objs, c.status, nets[i], ifaces).Ok?)
    ensures r.Ok? ==> |r.value| == |nets| && forall i :: 0 <= i < |nets| ==>
              || VnicFor(c.objs, c.status, nets[i], ifaces) == Ok(r.value[i])
              || (c.faults > old(c.faults) && LostVnic(c.objs, nets[i], ifaces, Ok(r.value[i])))
  {
    var vnics: seq<Vnic> := [];
    for i := 0 to |nets|
      invariant c.faults >= old(c.faults) && |vnics| == i
      invariant forall h :: 0 <= h < i ==>
                  || VnicFor(c.objs, c.status, nets[h], ifaces) == Ok(vnics[h])
                  || (c.faults > old(c.faults) && LostVnic(c.objs, nets[h], ifaces, Ok(vnics[h])))
    {
      var v := ReadVnic(c, nets[i], ifaces);
      if v.Error? { return Error(v.err); }
      vnics := vnics + [v.value];
    }
    r := Ok(vnics);
  }

  // ---------- resolver and read-back together ----------

  /** An OVN network of this name answers, and so hides a SR-IOV network of the name. */
  ghost predicate Hidden(objs: Objects, status: Status, name: string) {
    Answering(objs, status, Key(Vpc, name)) || Answering(objs, status, Key(Vlan, name))
  }

  /** Interfaces that share a name share their binding, so the first match has the right type: only a
      SR-IOV network called like the pod network finds the pod's interface instead. */
  lemma LookupType(objs: Objects, ifaces: seq<VmIface>, i: nat)
    requires i < |ifaces| && forall j :: 0 <= j < |ifaces| ==> NameOk(objs, ifaces[j])
    requires ifaces[0].binding == Masquerade
    ensures var found := Lookup(ifaces, ifaces[i].name);
            && found.Ok?
            && (found.value.binding == ifaces[i].binding <==>
                ifaces[i].binding == Masquerade || ifaces[i].name != POD_NETWORK)
            && (ifaces[i].name == POD_NETWORK ==> found.value == ifaces[0])
  {
    LookupFinds(ifaces, ifaces[i].name, i);
  }

  lemma SubnetNicReadsBack(objs: Objects, status: Status, x: Nic, n: string, ifaces: seq<VmIface>)
    requires LabelInv(objs) && OnSubnet(objs, x, n) && Lookup(ifaces, x.net.name).Ok?
    ensures var nic, s := NicTypeOf(Lookup(ifaces, x.net.name).value.binding), SubnetByName(objs, n).value;
            VnicFor(objs, status, x.net, ifaces) == Ok(Vnic(x.net.name, nic, false, Some(s.id), s.networkId))
  {
    assert SubnetOk(objs, n);
    assert SubnetByNad(objs, x.net.source.nad) == SubnetByName(objs, n);
    var any := AnyNetworkBy(objs, status, ByName(x.net.source.nad));
    assert !(any.Ok? && any.value.Sriov?);
  }

  /** A SR-IOV interface reads back with its network id exactly when no OVN network of that name
      answers; hidden, it reads as what lies behind its NAD. */
  lemma SriovNicReadsBack(objs: Objects, status: Status, x: Nic, id: Uid, ifaces: seq<VmIface>)
    requires LabelInv(objs) && OnSriov(objs, x, id) && x.net.name != "" && Lookup(ifaces, x.net.name).Ok?
    ensures var nic := NicTypeOf(Lookup(ifaces, x.net.name).value.binding);
            && (VnicFor(objs, status, x.net, ifaces) == Ok(Vnic(x.net.name, nic, false, None, Some(id))) <==>
                !Hidden(objs, status, x.net.name))
            && (Hidden(objs, status, x.net.name) ==>
                VnicFor(objs, status, x.net, ifaces) == SubnetVnic(objs, x.net.name, nic, x.net.name))
  {
    FoundByName(objs, status, Key(Nad, x.net.name));
  }

  /** No subnet carries the id of a SR-IOV network. */
  lemma NoSubnetOfSriov(objs: Objects, used: set<Uid>, nad: string, k: Key)
    requires UidsOk(objs, used) && RefInv(objs) && k in objs && k.kind == Nad
    ensures var s := SubnetByNad(objs, nad); s.Ok? ==> s.value.networkId != Some(objs[k].uid)
  {
    var s := SubnetByNad(objs, nad);
    if s.Ok? && s.value.networkId.Some? {
      assert RefOk(objs, objs[Key(Nad, nad)].labels[SubnetName]);
    }
  }

  /** The vNIC a request is answered with. */
  predicate Answered(req: Request, x: Nic, v: Vnic) {
    && v.name == x.net.name && !v.management
    && v.nic == (if x.iface.binding == SriovBinding then SriovNic else BridgeNic)
    && (req.subnetId != "" ==> v.subnetId == Some(req.subnetId))
    && (req.networkId != "" ==> v.networkId == Some(req.networkId))
  }

  ghost predicate ReadsBack(objs: Objects, status: Status, req: Request, x: Nic, ifaces: seq<VmIface>) {
    VnicFor(objs, status, x.net, ifaces).Ok? && Answered(req, x, VnicFor(objs, status, x.net, ifaces).value)
  }

  ghost predicate HiddenNic(objs: Objects, status: Status, x: Nic) {
    x.iface.binding == SriovBinding && Hidden(objs, status, x.net.name)
  }

  /** The pod interface is of another type than a SR-IOV one. */
  lemma WrongTypeFails(objs: Objects, status: Status, req: Request, x: Nic, ifaces: seq<VmIface>)
    requires Lookup(ifaces, x.net.name).Ok? && x.net.source.Multus?
    requires NicTypeOf(Lookup(ifaces, x.net.name).value.binding) != NicTypeOf(x.iface.binding)
    ensures !ReadsBack(objs, status, req, x, ifaces)
  {
  }

  lemma NicOnSubnetReadsBack(objs: Objects, status: Status, req: Request, x: Nic, n: string, ifaces: seq<VmIface>)
    requires LabelInv(objs) && OnSubnet(objs, x, n) && Wanted(SubnetByName(objs, n).value, req)
    requires Lookup(ifaces, x.net.name).Ok? && Lookup(ifaces, x.net.name).value.binding == x.iface.binding
    ensures ReadsBack(objs, status, req, x, ifaces)
  {
    SubnetNicReadsBack(objs, status, x, n, ifaces);
  }

  lemma NicOnSriovReadsBack(objs: Objects, used: set<Uid>, status: Status, req: Request, x: Nic, ifaces: seq<VmIface>)
    requires UidsOk(objs, used) && LabelInv(objs) && RefInv(objs)
    requires req.subnetId == "" && OnSriov(objs, x, req.networkId)
    requires Lookup(ifaces, x.net.name).Ok? && Lookup(ifaces, x.net.name).value.binding == x.iface.binding
    ensures ReadsBack(objs, status, req, x, ifaces) <==> !HiddenNic(objs, status, x)
  {
    assert x.net.name != "" && IsUuid(req.networkId);
    SriovNicReadsBack(objs, status, x, req.networkId, ifaces);
    NoSubnetOfSriov(objs, used, x.net.name, Key(Nad, x.net.name));
  }

  lemma NicReadsBack(objs: Objects, used: set<Uid>, status: Status, req: Request, x: Nic, ifaces: seq<VmIface>)
    requires UidsOk(objs, used) && LabelInv(objs) && RefInv(objs) && Serves(objs, req, x)
    requires Lookup(ifaces, x.net.name).Ok? && Lookup(ifaces, x.net.name).value.binding == x.iface.binding
    ensures ReadsBack(objs, status, req, x, ifaces) <==> !HiddenNic(objs, status, x)
  {
    if n :| OnSubnet(objs, x, n) && Wanted(SubnetByName(objs, n).value, req) {
      NicOnSubnetReadsBack(objs, status, req, x, n, ifaces);
    } else {
      NicOnSriovReadsBack(objs, used, status, req, x, ifaces);
    }
  }

  lemma ServedNicReadsBack(objs: Objects, used: set<Uid>, status: Status, req: Request, x: Nic, ifaces: seq<VmIface>,
                           i: nat)
    requires UidsOk(objs, used) && LabelInv(objs) && RefInv(objs) && Serves(objs, req, x)
    requires 0 < i < |ifaces| && ifaces[i] == x.iface && ifaces[0].binding == Masquerade
    requires forall j :: 0 <= j < |ifaces| ==> NameOk(objs, ifaces[j])
    ensures ReadsBack(objs, status, req, x, ifaces) <==> !HiddenNic(objs, status, x) && x.net.name != POD_NETWORK
  {
    LookupType(objs, ifaces, i);
    assert x.iface.name == x.net.name && x.iface.binding != Masquerade && x.net.source.Multus?;
    if x.net.name == POD_NETWORK {
      assert NameOk(objs, ifaces[i]);
      WrongTypeFails(objs, status, req, x, ifaces);
    } else {
      NicReadsBack(objs, used, status, req, x, ifaces);
    }
  }

  /** For every VM that resolveInterfaces builds, the read-back reports the pod NIC first and then, in
      order, one vNIC per request of the right type and with the requested subnet and network ids:
      for each request exactly unless it is on a SR-IOV network that an OVN network of its name hides,
      or that is called like the pod network. */
  lemma ReadBackInvertsResolve(objs: Objects, used: set<Uid>, status: Status, reqs: seq<Request>, vm: Vm,
                               nics: seq<Nic>)
    requires UidsOk(objs, used) && LabelInv(objs) && RefInv(objs)
    requires Compiles(objs, vm, nics) && AllServe(objs, reqs, nics)
    ensures VnicFor(objs, status, vm.nets[0], vm.ifaces) == Ok(Vnic(POD_NETWORK, BridgeNic, true, None, None))
    ensures forall i :: 0 <= i < |reqs| ==>
              && vm.nets[i + 1] == nics[i].net
              && (ReadsBack(objs, status, reqs[i], nics[i], vm.ifaces) <==>
                  !HiddenNic(objs, status, nics[i]) && nics[i].net.name != POD_NETWORK)
  {
    LookupType(objs, vm.ifaces, 0);
    forall i | 0 <= i < |reqs|
      ensures ReadsBack(objs, status, reqs[i], nics[i], vm.ifaces) <==>
              !HiddenNic(objs, status, nics[i]) && nics[i].net.name != POD_NETWORK
    {
      ServedNicReadsBack(objs, used, status, reqs[i], nics[i], vm.ifaces, i + 1);
    }
  }

  /** The type by what serves the request: a bridge vNIC on a subnet, a SR-IOV one on a SR-IOV network. */
  lemma TypeByNetwork(objs: Objects, status: Status, req: Request, x: Nic, ifaces: seq<VmIface>)
    requires Serves(objs, req, x) && ReadsBack(objs, status, req, x, ifaces)
    ensures var v := VnicFor(objs, status, x.net, ifaces).value;
            && ((exists n :: OnSubnet(objs, x, n)) ==> v.nic == BridgeNic)
            && ((exists id :: OnSriov(objs, x, id)) ==> v.nic == SriovNic)
            && (v.nic == BridgeNic || v.nic == SriovNic)
  {
  }

  /** A hidden SR-IOV interface makes the whole read-back fail: its NAD leads to no subnet. */
  lemma HiddenSriovFails(objs: Objects, status: Status, x: Nic, id: Uid, ifaces: seq<VmIface>)
    requires LabelInv(objs) && OnSriov(objs, x, id) && x.net.name != "" && Lookup(ifaces, x.net.name).Ok?
    requires SubnetName !in objs[Key(Nad, x.net.name)].labels
    ensures VnicFor(objs, status, x.net, ifaces).Ok? <==> !Hidden(objs, status, x.net.name)
    ensures Hidden(objs, status, x.net.name) ==> VnicFor(objs, status, x.net, ifaces) == Error(InvalidArgument)
  {
    SriovNicReadsBack(objs, status, x, id, ifaces);
  }
}
