/** SR-IOV networks: NADs with a type label, whose CNI configuration carries the segmentation id. */
module SriovNetworks {
  import opened Kube
  import opened NetworkLabels
  import opened Networks
  import opened KubeOvnCreate

  predicate IsSriov(o: Obj) {
    Managed(o) && NetworkType in o.labels && o.labels[NetworkType] == SRIOV
  }

  /** A SR-IOV network is a NAD with the SR-IOV type label. */
  ghost function FindSriov(objs: Objects, uid: Uid): Option<Key> {
    if k :| k in objs && k.kind == Nad && IsSriov(objs[k]) && objs[k].uid == uid then Some(k) else None
  }

  // ---------- the CNI configuration ----------

  datatype Json = Text(s: string) | Number(n: int) | Null | Nested

  type JsonObject = map<string, Json>

  /** The JSON printer and parser, and the configured OVSDB socket. */
  datatype Cni = Cni(render: JsonObject -> string, parse: string -> Option<JsonObject>, socketFile: string)

  /** What is printed parses back to the same members. */
  ghost predicate Faithful(cni: Cni) {
    forall j :: cni.parse(cni.render(j)) == Some(j)
  }

  const CNI_VERSION := "0.3.1"

  /** formatOvsCniConfig: a zero VLAN and an empty socket are omitted. */
  function CniConfig(cni: Cni, name: string, vlan: nat): string {
    cni.render(map["cniVersion" := Text(CNI_VERSION), "name" := Text(name), "type" := Text("ovs")] +
               (if vlan != 0 then map["vlan" := Number(ToSigned(vlan))] else map[]) +
               (if cni.socketFile != "" then map["socket_file" := Text(cni.socketFile)] else map[]))
  }

  /** A member that is absent or null leaves a field alone; any other must have the field's type. */
  predicate IsText(j: JsonObject, key: string) {
    key in j ==> j[key].Text? || j[key].Null?
  }

  predicate IsInt64(j: JsonObject, key: string) {
    key in j ==> j[key].Null? || (j[key].Number? && -(TWO_64 / 2) <= j[key].n < TWO_64 / 2)
  }

  predicate Decodes(j: JsonObject) {
    IsText(j, "cniVersion") && IsText(j, "name") && IsText(j, "type") && IsText(j, "socket_file") && IsInt64(j, "vlan")
  }

  /** The VLAN of a stored configuration: zero when it does not decode or names none. */
  function VlanOf(cni: Cni, config: string): nat {
    var j := cni.parse(config);
    if j.Some? && Decodes(j.value) && "vlan" in j.value && j.value["vlan"].Number? then ToUnsigned(j.value["vlan"].n)
    else 0
  }

  /** The segmentation id survives the signed conversion, the omission of zero and the JSON text,
      for every 64-bit value. */
  lemma VlanReadsBack(cni: Cni, name: string, vlan: nat)
    requires Faithful(cni) && vlan < 0x1_0000_0000_0000_0000
    ensures VlanOf(cni, CniConfig(cni, name, vlan)) == vlan
  {
    SignedRange(vlan);
    var j := map["cniVersion" := Text(CNI_VERSION), "name" := Text(name), "type" := Text("ovs")] +
             (if vlan != 0 then map["vlan" := Number(ToSigned(vlan))] else map[]) +
             (if cni.socketFile != "" then map["socket_file" := Text(cni.socketFile)] else map[]);
    assert cni.parse(cni.render(j)) == Some(j);
  }

  /** A stored configuration that kube-vim did not write gives its VLAN if all its members have the
      right type, and none if one has not or the VLAN does not fit. */
  lemma ForeignConfig(cni: Cni, config: string, j: JsonObject)
    requires cni.parse(config) == Some(j)
    ensures "cniVersion" in j && (j["cniVersion"].Number? || j["cniVersion"].Nested?) ==> VlanOf(cni, config) == 0
    ensures "name" in j && (j["name"].Number? || j["name"].Nested?) ==> VlanOf(cni, config) == 0
    ensures "type" in j && (j["type"].Number? || j["type"].Nested?) ==> VlanOf(cni, config) == 0
    ensures "socket_file" in j && (j["socket_file"].Number? || j["socket_file"].Nested?) ==> VlanOf(cni, config) == 0
    ensures "vlan" !in j || !j["vlan"].Number? || !(-0x8000_0000_0000_0000 <= j["vlan"].n < 0x8000_0000_0000_0000) ==>
              VlanOf(cni, config) == 0
    ensures j.Keys == {"vlan"} && j["vlan"].Number? && -0x8000_0000_0000_0000 <= j["vlan"].n < 0x8000_0000_0000_0000 ==>
              VlanOf(cni, config) == j["vlan"].n % 0x1_0000_0000_0000_0000
  {
  }

  /** What ovs-cni finds in the configuration. */
  lemma ConfigMembers(cni: Cni, name: string, vlan: nat)
    requires Faithful(cni)
    ensures cni.parse(CniConfig(cni, name, vlan)).Some?
    ensures var j := cni.parse(CniConfig(cni, name, vlan)).value;
            && "type" in j && j["type"] == Text("ovs") && "name" in j && j["name"] == Text(name)
            && "cniVersion" in j && j["cniVersion"] == Text("0.3.1")
            && ("vlan" in j <==> vlan != 0)
            && ("socket_file" in j <==> cni.socketFile != "")
            && ("socket_file" in j ==> j["socket_file"] == Text(cni.socketFile))
  {
    var j := map["cniVersion" := Text(CNI_VERSION), "name" := Text(name), "type" := Text("ovs")] +
             (if vlan != 0 then map["vlan" := Number(ToSigned(vlan))] else map[]) +
             (if cni.socketFile != "" then map["socket_file" := Text(cni.socketFile)] else map[]);
    assert cni.parse(cni.render(j)) == Some(j);
  }

  // ---------- creation ----------

  const RESOURCE_NAME := "k8s.v1.cni.cncf.io/resourceName"
  const DEFAULT_VENDOR := "openshift.io/"

  /** A device plugin resource always has a vendor prefix. */
  function Qualified(provider: string): string {
    if '/' in provider then provider else DEFAULT_VENDOR + provider
  }

  lemma QualifiedTwice(provider: string)
    ensures Qualified(Qualified(provider)) == Qualified(provider) && Qualified(provider) != ""
  {
    assert DEFAULT_VENDOR[12] == '/';
    assert (DEFAULT_VENDOR + provider)[12] == '/';
  }

  function SegmentationOf(data: NetworkData): nat {
    if data.segmentation.Some? then data.segmentation.value else 0
  }

  /** The NAD a request asks for, but for its UID. */
  function NadFor(cni: Cni, name: string, data: NetworkData): Result<(Labels, Annotations, Spec)> {
    if data.kind != Some(Nad) then Error(Unsupported)
    else if data.provider.None? || data.provider.value == "" || data.attributes != [] then Error(InvalidArgument)
    else Ok((map[ManagedBy := KUBE_NFV, NetworkType := SRIOV, NetworkName := name],
             map[RESOURCE_NAME := Qualified(data.provider.value)],
             NadSpec(CniConfig(cni, name, SegmentationOf(data)))))
  }

  /** vivnfm.VirtualNetwork of a SR-IOV network */
  datatype SriovNet = SriovNet(id: Uid, name: string, provider: string, segmentation: nat)

  function ToSriovNet(cni: Cni, name: string, o: Obj): SriovNet {
    SriovNet(o.uid, name, if RESOURCE_NAME in o.annotations then o.annotations[RESOURCE_NAME] else "",
             if o.spec.NadSpec? then VlanOf(cni, o.spec.config) else 0)
  }

  /** `after` is `before` plus the NAD of one SR-IOV network. */
  ghost predicate SriovAdded(cni: Cni, before: Objects, after: Objects, name: string, net: SriovNet) {
    var k := Key(Nad, name);
    && k !in before && k in after && after == before[k := after[k]]
    && IsSriov(after[k]) && ToSriovNet(cni, name, after[k]) == net
  }

  lemma SriovAddedKeeps(cni: Cni, before: Objects, after: Objects, name: string, net: SriovNet)
    requires SriovAdded(cni, before, after, name, net)
    ensures LabelInv(before) ==> LabelInv(after)
    ensures RefInv(before) ==> RefInv(after)
  {
    if LabelInv(before) {
      forall n ensures SubnetOk(after, n) { assert SubnetOk(before, n); }
    }
    if RefInv(before) {
      forall n ensures RefOk(after, n) { assert RefOk(before, n); }
    }
  }

  /** The SR-IOV backend's CreateNetwork: one NAD that reads back with the qualified provider and
      the requested segmentation id, or an unchanged store. */
  method CreateSriov(c: Cluster, cni: Cni, name: string, data: NetworkData) returns (r: Result<SriovNet>)
    requires c.Valid() && LabelInv(c.objs) && Faithful(cni)
    requires data.segmentation.Some? ==> data.segmentation.value < TWO_64
    modifies c`objs, c`used, c`faults
    ensures c.Valid() && LabelInv(c.objs) && (RefInv(old(c.objs)) ==> RefInv(c.objs))
    ensures r.Ok? ==>
              && SriovAdded(cni, old(c.objs), c.objs, name, r.value)
              && Label(c.objs[Key(Nad, name)].labels, NetworkName) == name
              && data.kind == Some(Nad) && data.provider.Some? && data.provider.value != "" && data.attributes == []
              && r.value == SriovNet(r.value.id, name, Qualified(data.provider.value),
                                     if data.segmentation.Some? then data.segmentation.value else 0)
              && r.value.id !in old(c.used)
    ensures r.Error? ==> c.objs == old(c.objs)
    ensures r.Error? && c.faults == old(c.faults) ==>
              r.err == if data.kind != Some(Nad) then Unsupported
                       else if data.provider.None? || data.provider.value == "" then InvalidArgument
                       else if data.attributes != [] then InvalidArgument
                       else AlreadyExists
    ensures r == Error(AlreadyExists) ==> Key(Nad, name) in c.objs
    ensures c.faults > old(c.faults) ==> r == Error(Fault)
  {
    var nad := NadFor(cni, name, data);
    if nad.Error? { return Error(nad.err); }
    var o := c.Create(Key(Nad, name), nad.value.0, nad.value.1, nad.value.2);
    if o.Error? { return Error(o.err); }
    VlanReadsBack(cni, name, SegmentationOf(data));
    r := Ok(ToSriovNet(cni, name, o.value));
    SriovAddedKeeps(cni, old(c.objs), c.objs, name, r.value);
  }

  /** The request a returned network amounts to. */
  function RequestOf(net: SriovNet): NetworkData {
    NetworkData(Some(Nad), Some(net.provider), Some(net.segmentation), [])
  }

  /** Creating again from what a creation returned asks for the very same NAD; the provider name
      comes back as given exactly when it had a vendor prefix. */
  lemma ResubmissionIsStable(cni: Cni, name: string, data: NetworkData, o: Obj)
    requires Faithful(cni) && SegmentationOf(data) < TWO_64
    requires NadFor(cni, name, data) == Ok((o.labels, o.annotations, o.spec))
    ensures NadFor(cni, name, RequestOf(ToSriovNet(cni, name, o))) == NadFor(cni, name, data)
    ensures ToSriovNet(cni, name, o).provider == data.provider.value <==> '/' in data.provider.value
  {
    QualifiedTwice(data.provider.value);
    VlanReadsBack(cni, name, SegmentationOf(data));
    assert |DEFAULT_VENDOR + data.provider.value| > |data.provider.value|;
  }

  // ---------- deletion ----------

  /** The SR-IOV backend's DeleteNetwork by UID. */
  method DeleteSriov(c: Cluster, uid: Uid) returns (r: Result<()>)
    requires c.Valid() && LabelInv(c.objs)
    modifies c`objs, c`faults
    ensures c.Valid() && LabelInv(c.objs) && (RefInv(old(c.objs)) ==> RefInv(c.objs)) && c.faults >= old(c.faults)
    ensures c.faults == old(c.faults) ==>
              match FindSriov(old(c.objs), uid)
              case Some(k) => r.Ok? && c.objs == old(c.objs) - {k}
              case None => r == Error(NotFound) && c.objs == old(c.objs)
    ensures c.faults > old(c.faults) ==> r == Error(Fault) && c.objs == old(c.objs)
  {
    var list := c.List(Nad);
    if list.Error? { return Error(list.err); }
    var keys := list.value;
    for i := 0 to |keys|
      invariant c.objs == old(c.objs) && c.faults == old(c.faults)
      invariant forall h :: 0 <= h < i ==> !(IsSriov(c.objs[keys[h]]) && c.objs[keys[h]].uid == uid)
    {
      if IsSriov(c.objs[keys[i]]) && c.objs[keys[i]].uid == uid {
        assert FindSriov(c.objs, uid) == Some(keys[i]);
        DropSriovKeeps(c.objs, keys[i]);
        r := c.Delete(keys[i]);
        return;
      }
    }
    assert FindSriov(c.objs, uid).None?;
    r := Error(NotFound);
  }

  lemma DropSriovKeeps(objs: Objects, k: Key)
    requires LabelInv(objs) && k in objs && IsSriov(objs[k]) && k.kind == Nad
    ensures LabelInv(objs - {k}) && (RefInv(objs) ==> RefInv(objs - {k}))
  {
    forall n ensures SubnetOk(objs - {k}, n) { assert SubnetOk(objs, n); }
    if RefInv(objs) {
      forall n ensures RefOk(objs - {k}, n) { assert RefOk(objs, n); }
    }
  }
}
