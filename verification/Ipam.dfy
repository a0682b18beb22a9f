/** The IPAM resolver: interface requests compiled into VM networks, interfaces and annotations. */
module Ipam {
  import opened Cidr
  import opened Kube
  import opened NetworkLabels
  import opened Networks
  import opened KubeOvn
  import opened SriovNetworks
  import opened NetworkReads
  import opened Composite

  /** An address as text, with what it parses to. */
  datatype Address = Address(text: string, parsed: Option<Ip>)

  /** VirtualNetworkInterfaceData; empty means absent. `random` is the subnet assignment metadata. */
  datatype Request = Request(networkId: string, subnetId: string, random: bool)

  /** VirtualNetworkInterfaceIPAM; an empty MAC means dynamic. */
  datatype Entry = Entry(networkId: Option<string>, subnetId: Option<string>, ip: Option<Address>, mac: string)

  datatype Source = Pod | Multus(nad: string)
  datatype Binding = Masquerade | Bridge | SriovBinding
  datatype VmNet = VmNet(name: string, source: Source)
  datatype VmIface = VmIface(name: string, binding: Binding, mac: string)

  /** The annotations `<nad>.<namespace>.ovn.kubernetes.io/<field>` of a VM in one namespace. */
  datatype Field = IpAddress | MacAddress | LogicalSwitch
  datatype AnnKey = AnnKey(nad: string, field: Field)
  datatype AnnValue = AddressValue(ip: Address) | TextValue(text: string)
  type VmAnnotations = map<AnnKey, AnnValue>

  /** What one request compiles to. */
  datatype Nic = Nic(net: VmNet, iface: VmIface, ann: VmAnnotations)

  const POD_NETWORK := "default"

  // ---------- what a compiled interface means ----------

  /** The subnet a subnet id stands for: a UID if it has that shape, else a name. */
  ghost function SubnetOf(objs: Objects, id: string): Result<Sub> {
    if IsUuid(id) then SubnetByUid(objs, id) else SubnetByName(objs, id)
  }

  /** An address lies in the block of the subnet. */
  predicate InBlock(s: Sub, a: Address) {
    a.parsed.Some? && Contains(s.cidr, a.parsed.value)
  }

  /** A static address of the entry lies in the block of the entry's subnet. */
  ghost predicate EntryOk(objs: Objects, e: Entry) {
    && e.subnetId.Some?
    && var s := SubnetOf(objs, e.subnetId.value);
       e.ip.Some? ==> s.Ok? && InBlock(s.value, e.ip.value)
  }

  function AnnotationsFor(nad: string, subnet: string, e: Entry): VmAnnotations {
    (if e.ip.Some? && e.ip.value.text != "" then map[AnnKey(nad, IpAddress) := AddressValue(e.ip.value)] else map[]) +
    (if e.mac != "" then map[AnnKey(nad, MacAddress) := TextValue(e.mac)] else map[]) +
    map[AnnKey(nad, LogicalSwitch) := TextValue(subnet)]
  }

  /** The compiled interface is attached to this subnet through the subnet's NAD, and a static
      address, if there is one, lies in the subnet's block. */
  ghost predicate OnSubnet(objs: Objects, x: Nic, n: string) {
    && Visible(objs, SubnetKey(n)) && SubnetByName(objs, n).Ok?
    && x.iface.binding == Bridge && x.iface.name == x.net.name
    && x.net.source.Multus? && NadOf(objs[SubnetKey(n)]) == Key(Nad, x.net.source.nad)
    && exists e :: x.ann == AnnotationsFor(x.net.source.nad, n, e)
                && (e.ip.Some? ==> InBlock(SubnetByName(objs, n).value, e.ip.value))
  }

  /** The compiled interface is attached to this SR-IOV network through its NAD. */
  ghost predicate OnSriov(objs: Objects, x: Nic, id: Uid) {
    && x.iface.binding == SriovBinding && x.iface.name == x.net.name
    && x.net.source == Multus(x.net.name) && x.ann == map[]
    && var k := Key(Nad, x.net.name);
       Visible(objs, k) && IsSriov(objs[k]) && objs[k].uid == id
  }

  /** The subnet is the one the request asks for. */
  predicate Wanted(s: Sub, req: Request) {
    && (req.subnetId != "" ==> s.id == req.subnetId)
    && (req.networkId != "" ==> s.networkId == Some(req.networkId))
  }

  ghost predicate Serves(objs: Objects, req: Request, x: Nic) {
    || (exists n :: OnSubnet(objs, x, n) && Wanted(SubnetByName(objs, n).value, req))
    || (req.subnetId == "" && OnSriov(objs, x, req.networkId))
  }

  /** Entries that name both a network and a subnet name a subnet of that network. */
  ghost predicate Consistent(objs: Objects, entries: seq<Entry>) {
    forall i :: 0 <= i < |entries| ==> EntryConsistent(objs, entries[i])
  }

  ghost predicate EntryConsistent(objs: Objects, e: Entry) {
    e.networkId.Some? && e.subnetId.Some? && SubnetOf(objs, e.subnetId.value).Ok? ==>
      SubnetOf(objs, e.subnetId.value).value.networkId == e.networkId
  }

  /** Under the labelling invariant a subnet found in any way is the one its label names. */
  lemma SubnetHasName(objs: Objects, used: set<Uid>, id: string)
    requires UidsOk(objs, used) && LabelInv(objs) && SubnetOf(objs, id).Ok?
    ensures var s := SubnetOf(objs, id).value;
            && SubnetName in s.labels && SubnetNetAttach in s.labels
            && Visible(objs, SubnetKey(s.labels[SubnetName])) && SubnetByName(objs, s.labels[SubnetName]) == Ok(s)
            && NadOf(objs[SubnetKey(s.labels[SubnetName])]) == Key(Nad, s.labels[SubnetNetAttach])
            && (IsUuid(id) ==> s.id == id)
  {
    var k := if IsUuid(id) then FindUid(objs, Subnet, id).value else SubnetKey(id);
    assert SubnetOk(objs, k.name) && k == SubnetKey(k.name);
  }

  // ---------- which entry a request resolves to ----------

  /** The first entry for a network, or the length if there is none. */
  function FirstFor(entries: seq<Entry>, id: string): (i: nat)
    ensures i <= |entries| && (i < |entries| ==> entries[i].networkId == Some(id))
    ensures forall h :: 0 <= h < i ==> entries[h].networkId != Some(id)
  {
    if entries == [] || entries[0].networkId == Some(id) then 0 else 1 + FirstFor(entries[1..], id)
  }

  /** The first entry for a subnet; a dynamic one if there is none. */
  function SubnetEntry(entries: seq<Entry>, id: string): (e: Entry)
    ensures e.subnetId == Some(id)
  {
    if entries == [] then Entry(None, Some(id), None, "")
    else if entries[0].subnetId == Some(id) then entries[0]
    else SubnetEntry(entries[1..], id)
  }

  /** The first subnet id of a network found by UID. */
  ghost function FirstSubnet(objs: Objects, status: Status, networkId: string): Option<string> {
    var n := AnyNetworkBy(objs, status, ByUid(networkId));
    if n.Ok? && n.value.Ovn? && |n.value.net.subnetIds| > 0 then Some(n.value.net.subnetIds[0]) else None
  }

  /** The entry for a subnet, unless its static address lies outside the subnet's block. */
  ghost function EntryForSubnet(objs: Objects, id: string, entries: seq<Entry>): Option<Entry> {
    var e, s := SubnetEntry(entries, id), SubnetByUid(objs, id);
    if e.ip.None? || (s.Ok? && InBlock(s.value, e.ip.value)) then Some(e) else None
  }

  /** The entries while a network's first subnet is being resolved: its own entry gets the subnet, or
      a new dynamic one is tried last. */
  function WithFirst(entries: seq<Entry>, networkId: string, first: string): seq<Entry> {
    var i := FirstFor(entries, networkId);
    if i < |entries| then entries[i := entries[i].(subnetId := Some(first))]
    else entries + [Entry(Some(networkId), Some(first), None, "")]
  }

  /** The first entry for the network has a static address and no subnet. */
  predicate StaticWithoutSubnet(entries: seq<Entry>, networkId: string) {
    var i := FirstFor(entries, networkId);
    i < |entries| && entries[i].subnetId.None? && entries[i].ip.Some?
  }

  /** The entry for a network. In strict mode an entry must say which subnet. One that gives a static
      address and no subnet never resolves: the subnet found for it is stored through a nil pointer. */
  ghost function EntryForNetwork(objs: Objects, status: Status, networkId: string, entries: seq<Entry>,
                                 strict: bool): Option<Entry> {
    var i, first := FirstFor(entries, networkId), FirstSubnet(objs, status, networkId);
    if i < |entries| && entries[i].subnetId.Some? then EntryForSubnet(objs, entries[i].subnetId.value, entries)
    else if StaticWithoutSubnet(entries, networkId) || strict || first.None? then None
    else EntryForSubnet(objs, first.value, WithFirst(entries, networkId, first.value))
  }

  /** The entries as the request leaves them: edited only where the first subnet was written in. */
  ghost function EntriesAfter(objs: Objects, status: Status, networkId: string, entries: seq<Entry>,
                              strict: bool): seq<Entry> {
    var i, first := FirstFor(entries, networkId), FirstSubnet(objs, status, networkId);
    if i < |entries| && entries[i].subnetId.None? && entries[i].ip.None? && !strict && first.Some?
    then WithFirst(entries, networkId, first.value) else entries
  }

  /** What a request comes down to: an entry on a subnet, or a SR-IOV network with a MAC. */
  datatype Choice = OnEntry(e: Entry) | OnNad(id: Uid, name: string, mac: string)

  predicate Strict(net: AnyNet, req: Request) {
    net.Ovn? && net.net.kind == Vpc && !req.random
  }

  function MacFor(entries: seq<Entry>, id: string): string {
    var i := FirstFor(entries, id);
    if i < |entries| then entries[i].mac else ""
  }

  ghost function Usable(objs: Objects, e: Option<Entry>): Option<Choice>
    requires e.Some? ==> e.value.subnetId.Some?
  {
    if e.Some? && SubnetOf(objs, e.value.subnetId.value).Ok? then Some(OnEntry(e.value)) else None
  }

  /** The whole decision for one request. */
  ghost function Choose(objs: Objects, status: Status, req: Request, entries: seq<Entry>): Option<Choice> {
    if req.subnetId != "" then
      var s := SubnetByUid(objs, req.subnetId);
      if s.Error? || (req.networkId != "" && s.value.networkId != Some(req.networkId)) then None
      else Usable(objs, EntryForSubnet(objs, req.subnetId, entries))
    else if req.networkId == "" then None
    else
      var n := AnyNetworkBy(objs, status, ByUid(req.networkId));
      if n.Error? then None
      else if n.value.Sriov? then Some(OnNad(n.value.id, n.value.name, MacFor(entries, n.value.id)))
      else Usable(objs, EntryForNetwork(objs, status, req.networkId, entries, Strict(n.value, req)))
  }

  ghost function Leaves(objs: Objects, status: Status, req: Request, entries: seq<Entry>): seq<Entry> {
    var n := AnyNetworkBy(objs, status, ByUid(req.networkId));
    if req.subnetId != "" || req.networkId == "" || n.Error? || n.value.Sriov? then entries
    else EntriesAfter(objs, status, req.networkId, entries, Strict(n.value, req))
  }

  /** All requests in order, the edits of each seen by the next; none if one fails. */
  ghost function ChooseAll(objs: Objects, status: Status, reqs: seq<Request>,
                           entries: seq<Entry>): Option<seq<Choice>> {
    if reqs == [] then Some([])
    else
      var first := Choose(objs, status, reqs[0], entries);
      var rest := ChooseAll(objs, status, reqs[1..], Leaves(objs, status, reqs[0], entries));
      if first.None? || rest.None? then None else Some([first.value] + rest.value)
  }

  /** A listed subnet carries the UID of the network that lists it exactly when it is on that network. */
  lemma ListedCarriesId(objs: Objects, used: set<Uid>, status: Status, k: Key, i: nat)
    requires UidsOk(objs, used) && RefInv(objs) && LabelInv(objs)
    requires IsNetworkKey(k) && i < |StatusOf(status, k)| && k in objs
    requires Visible(objs, SubnetKey(StatusOf(status, k)[i]))
    ensures var n := StatusOf(status, k)[i];
            && SubnetByName(objs, n).Ok?
            && (SubnetByName(objs, n).value.networkId == Some(objs[k].uid) <==> Refers(objs[SubnetKey(n)], k))
  {
    var n := StatusOf(status, k)[i];
    assert SubnetOk(objs, n) && RefOk(objs, n);
    assert IsUuid(objs[k].uid);
  }

  /** The first subnet of a network carries that network's id exactly when it is on that network, and
      so always under a listing that names only the network's own. */
  lemma FirstSubnetBelongs(objs: Objects, used: set<Uid>, status: Status, networkId: string)
    requires UidsOk(objs, used) && LabelInv(objs) && RefInv(objs)
    requires FirstSubnet(objs, status, networkId).Some?
    ensures var f := FirstSubnet(objs, status, networkId).value;
            var k := NetKey(NetworkBy(objs, status, ByUid(networkId)).value);
            && |StatusOf(status, k)| > 0 && SubnetKey(StatusOf(status, k)[0]) in objs
            && SubnetOf(objs, f).Ok?
            && (SubnetOf(objs, f).value.networkId == Some(networkId) <==>
                Refers(objs[SubnetKey(StatusOf(status, k)[0])], k))
    ensures Lagging(objs, status) ==>
              SubnetOf(objs, FirstSubnet(objs, status, networkId).value).value.networkId == Some(networkId)
  {
    var q := ByUid(networkId);
    NetworkFound(objs, status, q);
    ListedSubnets(objs, status, q);
    var k := NetKey(NetworkBy(objs, status, q).value);
    ListedCarriesId(objs, used, status, k, 0);
    FindUidUnique(objs, used, Subnet, SubnetKey(StatusOf(status, k)[0]));
    if Lagging(objs, status) { assert OwnListing(objs, status, k); }
  }

  /** The whole store is in order and the listings name no subnet of another network. */
  ghost predicate InOrder(objs: Objects, used: set<Uid>, status: Status) {
    UidsOk(objs, used) && LabelInv(objs) && RefInv(objs) && Lagging(objs, status)
  }

  /** The compiled interface is what the choice says: on the entry's subnet with the entry's
      addresses, or on the SR-IOV network. */
  ghost predicate Builds(objs: Objects, ch: Choice, x: Nic) {
    match ch
    case OnEntry(e) =>
      && e.subnetId.Some? && SubnetOf(objs, e.subnetId.value).Ok?
      && var s := SubnetOf(objs, e.subnetId.value).value;
      && SubnetName in s.labels && SubnetByName(objs, s.labels[SubnetName]) == Ok(s)
      && OnSubnet(objs, x, s.labels[SubnetName])
      && x.ann == AnnotationsFor(x.net.source.nad, s.labels[SubnetName], e)
    case OnNad(id, name, mac) => OnSriov(objs, x, id) && x.net.name == name && x.iface.mac == mac
  }

  /** The request names only an OVN network, whose entry gives a static address and no subnet. */
  ghost predicate StaticRequest(objs: Objects, status: Status, req: Request, entries: seq<Entry>) {
    var n := AnyNetworkBy(objs, status, ByUid(req.networkId));
    req.subnetId == "" && (n.Ok? ==> n.value.Ovn?) && StaticWithoutSubnet(entries, req.networkId)
  }

  /** The edits of other requests never give such an entry a subnet. */
  lemma StaticStays(objs: Objects, status: Status, req: Request, entries: seq<Entry>, id: string)
    requires StaticWithoutSubnet(entries, id)
    ensures StaticWithoutSubnet(Leaves(objs, status, req, entries), id)
  {
    var es, i := Leaves(objs, status, req, entries), FirstFor(entries, id);
    assert |es| == |entries| && forall h :: 0 <= h < |es| ==> es[h].networkId == entries[h].networkId;
    assert FirstFor(es, id) == i;
    assert es[i] == entries[i];
  }

  lemma StaticIsNotChosen(objs: Objects, status: Status, req: Request, entries: seq<Entry>)
    requires StaticRequest(objs, status, req, entries)
    ensures Choose(objs, status, req, entries).None?
  {
  }

  /** The comments promise that an entry with a static address and no subnet is placed on the subnet
      that holds the address. It never is: with such a request anywhere in the list, nothing resolves. */
  lemma {:induction false} StaticNeverResolves(objs: Objects, status: Status, reqs: seq<Request>, entries: seq<Entry>,
                                               i: nat)
    requires i < |reqs| && StaticRequest(objs, status, reqs[i], entries)
    ensures ChooseAll(objs, status, reqs, entries).None?
  {
    if i == 0 {
      StaticIsNotChosen(objs, status, reqs[0], entries);
    } else {
      StaticStays(objs, status, reqs[0], entries, reqs[i].networkId);
      StaticNeverResolves(objs, status, reqs[1..], Leaves(objs, status, reqs[0], entries), i - 1);
    }
  }

  ghost predicate AnyStatic(objs: Objects, status: Status, reqs: seq<Request>, entries: seq<Entry>) {
    exists i :: 0 <= i < |reqs| && StaticRequest(objs, status, reqs[i], entries)
  }

  lemma StaticListFails(objs: Objects, status: Status, reqs: seq<Request>, entries: seq<Entry>)
    ensures AnyStatic(objs, status, reqs, entries) ==> ChooseAll(objs, status, reqs, entries).None?
  {
    if i :| 0 <= i < |reqs| && StaticRequest(objs, status, reqs[i], entries) {
      StaticNeverResolves(objs, status, reqs, entries, i);
    }
  }

  lemma {:induction false} SubnetEntryLast(entries: seq<Entry>, e: Entry, id: string)
    requires e.subnetId == Some(id) && forall i :: 0 <= i < |entries| ==> entries[i].subnetId != Some(id)
    ensures SubnetEntry(entries + [e], id) == e
  {
    if entries != [] {
      SubnetEntryLast(entries[1..], e, id);
      assert (entries + [e])[1..] == entries[1..] + [e];
    }
  }

  /** A request for an OVN network without an entry: on a Vpc it is refused unless a random assignment
      is asked for; then, and on a Vlan always, it gets the network's first subnet with addresses left
      open. */
  lemma RequestWithoutEntry(objs: Objects, used: set<Uid>, status: Status, req: Request, entries: seq<Entry>)
    requires UidsOk(objs, used) && LabelInv(objs) && RefInv(objs)
    requires req.subnetId == "" && req.networkId != ""
    requires forall i :: 0 <= i < |entries| ==> entries[i].networkId != Some(req.networkId)
    requires var n := AnyNetworkBy(objs, status, ByUid(req.networkId)); n.Ok? && n.value.Ovn?
    ensures var n := AnyNetworkBy(objs, status, ByUid(req.networkId)).value.net;
            var first := FirstSubnet(objs, status, req.networkId);
            && (n.kind == Vpc && !req.random ==> Choose(objs, status, req, entries).None?)
            && ((n.kind == Vlan || req.random) && first.Some?
                && (forall i :: 0 <= i < |entries| ==> entries[i].subnetId != first) ==>
                  Choose(objs, status, req, entries) == Some(OnEntry(Entry(Some(req.networkId), first, None, ""))))
  {
    var first := FirstSubnet(objs, status, req.networkId);
    if first.Some? {
      FirstSubnetBelongs(objs, used, status, req.networkId);
      if forall i :: 0 <= i < |entries| ==> entries[i].subnetId != first {
        SubnetEntryLast(entries, Entry(Some(req.networkId), first, None, ""), first.value);
      }
    }
  }

  /** A chosen entry's static address lies in the block of the subnet its id stands for. */
  lemma ChosenEntryOk(objs: Objects, used: set<Uid>, id: string, entries: seq<Entry>)
    requires UidsOk(objs, used) && EntryForSubnet(objs, id, entries).Some?
    ensures EntryOk(objs, EntryForSubnet(objs, id, entries).value)
  {
    if SubnetByUid(objs, id).Ok? { assert IsUuid(id); }
  }

  /** Whatever entry a request for a network resolves to stands on a subnet of that network. */
  lemma NetworkEntryBelongs(objs: Objects, used: set<Uid>, status: Status, networkId: string, entries: seq<Entry>,
                            strict: bool)
    requires InOrder(objs, used, status) && Consistent(objs, entries)
    requires EntryForNetwork(objs, status, networkId, entries, strict).Some?
    ensures var e := EntryForNetwork(objs, status, networkId, entries, strict).value;
            SubnetOf(objs, e.subnetId.value).Ok? ==> SubnetOf(objs, e.subnetId.value).value.networkId == Some(networkId)
  {
    var i := FirstFor(entries, networkId);
    if i < |entries| && entries[i].subnetId.Some? {
      assert EntryConsistent(objs, entries[i]);
    } else {
      FirstSubnetBelongs(objs, used, status, networkId);
    }
  }

  /** The edits keep the entries consistent. */
  lemma LeavesConsistent(objs: Objects, used: set<Uid>, status: Status, req: Request, entries: seq<Entry>)
    requires InOrder(objs, used, status) && Consistent(objs, entries)
    ensures Consistent(objs, Leaves(objs, status, req, entries))
  {
    var es := Leaves(objs, status, req, entries);
    if es != entries {
      FirstSubnetBelongs(objs, used, status, req.networkId);
      forall h | 0 <= h < |es| ensures EntryConsistent(objs, es[h]) {
        assert EntryConsistent(objs, entries[h]);
      }
    }
  }

  /** An interface built for a request's choice serves the request. */
  lemma ChoiceServes(objs: Objects, used: set<Uid>, status: Status, req: Request, entries: seq<Entry>, x: Nic)
    requires InOrder(objs, used, status) && Consistent(objs, entries)
    requires Choose(objs, status, req, entries).Some? && Builds(objs, Choose(objs, status, req, entries).value, x)
    ensures Serves(objs, req, x)
  {
    var ch := Choose(objs, status, req, entries).value;
    if ch.OnEntry? {
      var s := SubnetOf(objs, ch.e.subnetId.value).value;
      if req.subnetId != "" {
        assert IsUuid(req.subnetId);
        assert s == SubnetByUid(objs, req.subnetId).value && s.id == req.subnetId;
      } else {
        var n := AnyNetworkBy(objs, status, ByUid(req.networkId)).value;
        NetworkEntryBelongs(objs, used, status, req.networkId, entries, Strict(n, req));
      }
      assert OnSubnet(objs, x, s.labels[SubnetName]) && Wanted(s, req);
    }
  }

  // ---------- the resolver ----------

  method FindForSubnet(entries: seq<Entry>, id: string) returns (e: Entry)
    ensures e == SubnetEntry(entries, id)
  {
    var i := 0;
    while i < |entries|
      invariant 0 <= i <= |entries| && SubnetEntry(entries, id) == SubnetEntry(entries[i..], id)
    {
      if entries[i].subnetId == Some(id) { return entries[i]; }
      assert entries[i..][1..] == entries[i + 1..];
      i := i + 1;
    }
    e := Entry(None, Some(id), None, "");
  }

  method FindForNetwork(entries: seq<Entry>, id: string) returns (i: nat)
    ensures i == FirstFor(entries, id)
  {
    i := 0;
    while i < |entries| && entries[i].networkId != Some(id)
      invariant i <= |entries|
      invariant forall h :: 0 <= h < i ==> entries[h].networkId != Some(id)
    {
      i := i + 1;
    }
  }

  /** A method's answer against the decision: success exactly as decided, unless a call is lost. */
  ghost predicate Decides<T, U>(r: Result<T>, want: Option<U>, before: nat, after: nat) {
    after >= before && (r.Ok? ==> want.Some?) && (after == before ==> (r.Ok? <==> want.Some?))
  }

  /** subnetIpam: the first entry for the subnet, its static address checked; dynamic if none. */
  method SubnetIpam(c: Cluster, id: string, entries: seq<Entry>) returns (r: Result<Entry>)
    requires c.Valid()
    modifies c`faults
    ensures Decides(r, EntryForSubnet(c.objs, id, entries), old(c.faults), c.faults)
    ensures r.Ok? ==> EntryForSubnet(c.objs, id, entries) == Some(r.value)
  {
    var e := FindForSubnet(entries, id);
    if e.ip.None? { return Ok(e); }
    var s := ReadSubnetByUid(c, id);
    if s.Error? { return Error(s.err); }
    if e.ip.value.parsed.None? || !Contains(s.value.cidr, e.ip.value.parsed.value) { return Error(InvalidArgument); }
    r := Ok(e);
  }

  /** What a static address without a subnet comes to: the error of the look-up by address, or, where
      that finds a subnet, a nil dereference. */
  ghost predicate StaticAnswer(objs: Objects, networkId: string, entries: seq<Entry>, r: Result<Entry>, lost: bool)
    requires StaticWithoutSubnet(entries, networkId)
  {
    var ip := entries[FirstFor(entries, networkId)].ip.value.parsed;
    exists s :: IpAnswer(objs, networkId, ip, s, lost) && r == Error(if s.Ok? then Panic else s.err)
  }

  /** Where every managed subnet has a network, the nil dereference happens exactly when a subnet of
      the network holds the address, which is when the comments promise to place it. */
  lemma StaticPanicsIff(objs: Objects, networkId: string, entries: seq<Entry>, r: Result<Entry>)
    requires AllNetworked(objs) && StaticWithoutSubnet(entries, networkId)
    requires StaticAnswer(objs, networkId, entries, r, false)
    ensures var ip := entries[FirstFor(entries, networkId)].ip.value.parsed;
            r == Error(Panic) <==>
              exists n :: Visible(objs, SubnetKey(n)) && Holds(SubnetByName(objs, n).value, networkId, ip)
  {
    var ip := entries[FirstFor(entries, networkId)].ip.value.parsed;
    var s :| IpAnswer(objs, networkId, ip, s, false) && r == Error(if s.Ok? then Panic else s.err);
  }

  /** networkIpam: the entry for a network, resolved to one of its subnets; edits the entry list. */
  method NetworkIpam(c: Cluster, networkId: string, entries: seq<Entry>, strict: bool)
    returns (r: Result<Entry>, entries': seq<Entry>)
    requires c.Valid()
    modifies c`faults
    ensures Decides(r, EntryForNetwork(c.objs, c.status, networkId, entries, strict), old(c.faults), c.faults)
    ensures r.Ok? ==> EntryForNetwork(c.objs, c.status, networkId, entries, strict) == Some(r.value)
    ensures r.Ok? ==> entries' == EntriesAfter(c.objs, c.status, networkId, entries, strict)
    ensures StaticWithoutSubnet(entries, networkId) ==>
              StaticAnswer(c.objs, networkId, entries, r, c.faults > old(c.faults))
  {
    entries' := entries;
    var i := FindForNetwork(entries, networkId);
    if i < |entries| && entries[i].subnetId.Some? {
      r := SubnetIpam(c, entries[i].subnetId.value, entries);
      return;
    }
    if i < |entries| && entries[i].ip.Some? {
      var s := ReadSubnetByIp(c, networkId, entries[i].ip.value.parsed);
      return Error(if s.Error? then s.err else Panic), entries;
    }
    if strict { return Error(IpamMissing), entries; }
    var net := ReadAnyNetwork(c, ByUid(networkId));
    if net.Error? { return Error(net.err), entries; }
    if net.value.Sriov? || |net.value.net.subnetIds| == 0 { return Error(InvalidArgument), entries; }
    var first := net.value.net.subnetIds[0];
    if i < |entries| { entries' := entries[i := entries[i].(subnetId := Some(first))]; }
    r := SubnetIpam(c, first, WithFirst(entries, networkId, first));
  }

  /** The name is not in use on the VM and is no NAD's, so the interface is told apart from all others. */
  ghost predicate FreshName(objs: Objects, x: Nic, taken: set<string>) {
    x.iface.binding == Bridge ==> x.net.name !in taken && x.net.name != POD_NETWORK && Key(Nad, x.net.name) !in objs
  }

  /** initNetwork: the entry's subnet, its NAD and name from the labels, a fresh interface name.
      A random UUID that happens to repeat a name in use counts as a lost call. */
  method InitNetwork(c: Cluster, e: Entry, taken: set<string>) returns (r: Result<Nic>)
    requires c.Valid() && LabelInv(c.objs) && EntryOk(c.objs, e)
    modifies c`faults
    ensures Decides(r, Usable(c.objs, Some(e)), old(c.faults), c.faults)
    ensures r.Ok? ==> Builds(c.objs, OnEntry(e), r.value) && r.value.iface.binding == Bridge
    ensures r.Ok? ==> FreshName(c.objs, r.value, taken)
  {
    var id := e.subnetId.value;
    if id == "" { return Error(InvalidArgument); }
    var s: Result<Sub>;
    if IsUuid(id) {
      s := ReadSubnetByUid(c, id);
    } else {
      s := ReadSubnetByName(c, id);
    }
    if s.Error? { return Error(s.err); }
    SubnetHasName(c.objs, c.used, id);
    var nad, n := s.value.labels[SubnetNetAttach], s.value.labels[SubnetName];
    var uuid: string := *;
    var name := n + "-" + uuid;
    if name in taken || name == POD_NETWORK || Key(Nad, name) in c.objs {
      c.faults := c.faults + 1;
      return Error(Fault);
    }
    r := Ok(Nic(VmNet(name, Multus(nad)), VmIface(name, Bridge, ""), AnnotationsFor(nad, n, e)));
    assert r.value.ann == AnnotationsFor(nad, n, e);
  }

  /** initSriovNetwork: the NAD itself, with the MAC of the first entry for the network. */
  method InitSriov(id: Uid, name: string, entries: seq<Entry>) returns (r: Nic)
    ensures r == Nic(VmNet(name, Multus(name)), VmIface(name, SriovBinding, MacFor(entries, id)), map[])
  {
    var i := FindForNetwork(entries, id);
    var mac := if i < |entries| then entries[i].mac else "";
    r := Nic(VmNet(name, Multus(name)), VmIface(name, SriovBinding, mac), map[]);
  }

  /** One request with a subnet id. */
  method ResolveBySubnet(c: Cluster, req: Request, entries: seq<Entry>, taken: set<string>) returns (r: Result<Nic>)
    requires c.Valid() && LabelInv(c.objs) && req.subnetId != ""
    modifies c`faults
    ensures Decides(r, Choose(c.objs, c.status, req, entries), old(c.faults), c.faults)
    ensures r.Ok? ==> Builds(c.objs, Choose(c.objs, c.status, req, entries).value, r.value)
    ensures r.Ok? ==> FreshName(c.objs, r.value, taken)
  {
    var s := ReadSubnetByUid(c, req.subnetId);
    if s.Error? { return Error(s.err); }
    if req.networkId != "" && s.value.networkId != Some(req.networkId) { return Error(InvalidArgument); }
    var e := SubnetIpam(c, req.subnetId, entries);
    if e.Error? { return Error(e.err); }
    ChosenEntryOk(c.objs, c.used, req.subnetId, entries);
    r := InitNetwork(c, e.value, taken);
  }

  /** One request with a network id only. */
  method ResolveByNetwork(c: Cluster, req: Request, entries: seq<Entry>, taken: set<string>)
    returns (r: Result<Nic>, entries': seq<Entry>)
    requires c.Valid() && LabelInv(c.objs) && req.subnetId == "" && req.networkId != ""
    modifies c`faults
    ensures Decides(r, Choose(c.objs, c.status, req, entries), old(c.faults), c.faults)
    ensures r.Ok? ==> Builds(c.objs, Choose(c.objs, c.status, req, entries).value, r.value)
    ensures r.Ok? ==> FreshName(c.objs, r.value, taken)
    ensures r.Ok? ==> entries' == Leaves(c.objs, c.status, req, entries)
  {
    entries' := entries;
    var net := ReadAnyNetwork(c, ByUid(req.networkId));
    if net.Error? { return Error(net.err), entries; }
    if net.value.Sriov? {
      var x := InitSriov(net.value.id, net.value.name, entries);
      return Ok(x), entries;
    }
    var e: Result<Entry>;
    e, entries' := NetworkIpam(c, req.networkId, entries, Strict(net.value, req));
    if e.Error? { return Error(e.err), entries'; }
    NetworkEntryOk(c.objs, c.used, c.status, req.networkId, entries, Strict(net.value, req));
    r := InitNetwork(c, e.value, taken);
  }

  lemma NetworkEntryOk(objs: Objects, used: set<Uid>, status: Status, networkId: string, entries: seq<Entry>,
                       strict: bool)
    requires UidsOk(objs, used) && EntryForNetwork(objs, status, networkId, entries, strict).Some?
    ensures EntryOk(objs, EntryForNetwork(objs, status, networkId, entries, strict).value)
  {
    var i, first := FirstFor(entries, networkId), FirstSubnet(objs, status, networkId);
    if i < |entries| && entries[i].subnetId.Some? {
      ChosenEntryOk(objs, used, entries[i].subnetId.value, entries);
    } else {
      ChosenEntryOk(objs, used, first.value, WithFirst(entries, networkId, first.value));
    }
  }

  // ---------- the merged annotations ----------

  /** Every address annotation of a NAD lies in the block of the subnet that the same NAD's
      logical_switch annotation names; that subnet's NAD it is. */
  ghost predicate AnnotationsOk(objs: Objects, ann: VmAnnotations) {
    forall nad ::
      && (AnnKey(nad, IpAddress) in ann ==> AnnKey(nad, LogicalSwitch) in ann)
      && (AnnKey(nad, LogicalSwitch) in ann ==> SwitchOk(objs, ann, nad))
  }

  ghost predicate SwitchOk(objs: Objects, ann: VmAnnotations, nad: string)
    requires AnnKey(nad, LogicalSwitch) in ann
  {
    var v := ann[AnnKey(nad, LogicalSwitch)];
    && v.TextValue? && Visible(objs, SubnetKey(v.text)) && SubnetByName(objs, v.text).Ok?
    && NadOf(objs[SubnetKey(v.text)]) == Key(Nad, nad)
    && (AnnKey(nad, IpAddress) in ann ==>
          && ann[AnnKey(nad, IpAddress)].AddressValue?
          && var parsed := ann[AnnKey(nad, IpAddress)].ip.parsed;
             parsed.Some? && Contains(SubnetByName(objs, v.text).value.cidr, parsed.value))
  }

  /** What an interface built for an entry is annotated with: a static address and a MAC exactly if the
      entry gives them, and the entry's subnet, all under the interface's NAD. */
  lemma ChosenAnnotations(objs: Objects, e: Entry, x: Nic)
    requires Builds(objs, OnEntry(e), x)
    ensures var nad, s := x.net.source.nad, SubnetOf(objs, e.subnetId.value).value;
            && (forall k :: k in x.ann ==> k.nad == nad)
            && (AnnKey(nad, IpAddress) in x.ann <==> e.ip.Some? && e.ip.value.text != "")
            && (AnnKey(nad, IpAddress) in x.ann ==> x.ann[AnnKey(nad, IpAddress)] == AddressValue(e.ip.value))
            && (AnnKey(nad, MacAddress) in x.ann <==> e.mac != "")
            && (AnnKey(nad, MacAddress) in x.ann ==> x.ann[AnnKey(nad, MacAddress)] == TextValue(e.mac))
            && AnnKey(nad, LogicalSwitch) in x.ann
            && x.ann[AnnKey(nad, LogicalSwitch)] == TextValue(Label(s.labels, SubnetName))
            && Label(s.labels, SubnetNetAttach) == nad
  {
    var n := SubnetOf(objs, e.subnetId.value).value.labels[SubnetName];
    assert SubnetByName(objs, n).value.labels == objs[SubnetKey(n)].labels;
  }

  /** The last interface that sets an annotation. */
  predicate LastSetter(nics: seq<Nic>, i: int, k: AnnKey) {
    0 <= i < |nics| && k in nics[i].ann && forall j :: i < j < |nics| ==> k !in nics[j].ann
  }

  /** The merged annotations: whatever an interface sets is there, with the value of the last one. */
  ghost predicate LastWins(ann: VmAnnotations, nics: seq<Nic>) {
    && (forall i, k :: 0 <= i < |nics| && k in nics[i].ann ==> k in ann)
    && forall k :: k in ann ==> exists i :: LastSetter(nics, i, k) && ann[k] == nics[i].ann[k]
  }

  lemma LastWinsNext(ann: VmAnnotations, nics: seq<Nic>, x: Nic)
    requires LastWins(ann, nics)
    ensures LastWins(ann + x.ann, nics + [x])
  {
    var all, more := ann + x.ann, nics + [x];
    forall k | k in all ensures exists i :: LastSetter(more, i, k) && all[k] == more[i].ann[k] {
      if k in x.ann {
        assert LastSetter(more, |nics|, k);
      } else {
        var i :| LastSetter(nics, i, k) && ann[k] == nics[i].ann[k];
        assert LastSetter(more, i, k);
      }
    }
  }

  /** The annotations of an interface stand for its subnet. */
  lemma OwnAnnotations(objs: Objects, x: Nic, n: string)
    requires OnSubnet(objs, x, n)
    ensures var nad := x.net.source.nad;
            && (forall k :: k in x.ann ==> k.nad == nad)
            && AnnKey(nad, LogicalSwitch) in x.ann && x.ann[AnnKey(nad, LogicalSwitch)] == TextValue(n)
            && SwitchOk(objs, x.ann, nad)
  {
  }

  lemma MergedSwitch(objs: Objects, ann: VmAnnotations, x: Nic, n: string)
    requires LabelInv(objs) && AnnotationsOk(objs, ann) && OnSubnet(objs, x, n)
    ensures SwitchOk(objs, ann + x.ann, x.net.source.nad)
  {
    var nad := x.net.source.nad;
    OwnAnnotations(objs, x, n);
    if AnnKey(nad, LogicalSwitch) in ann {
      assert SwitchOk(objs, ann, nad);
      var m := ann[AnnKey(nad, LogicalSwitch)].text;
      if m != n { NadsDiffer(objs, m, n); }
    }
  }

  /** Merging an interface's annotations keeps that, even where it shares its NAD with an earlier
      one: a NAD belongs to one subnet only. */
  lemma MergeKeepsAnnotations(objs: Objects, ann: VmAnnotations, x: Nic, n: string)
    requires LabelInv(objs) && AnnotationsOk(objs, ann) && OnSubnet(objs, x, n)
    ensures AnnotationsOk(objs, ann + x.ann)
  {
    var all := ann + x.ann;
    OwnAnnotations(objs, x, n);
    MergedSwitch(objs, ann, x, n);
    forall nad | AnnKey(nad, LogicalSwitch) in all ensures SwitchOk(objs, all, nad) {
      if nad != x.net.source.nad { assert SwitchOk(objs, ann, nad); }
    }
  }

  // ---------- resolveInterfaces ----------

  datatype Vm = Vm(nets: seq<VmNet>, ifaces: seq<VmIface>, ann: VmAnnotations)

  /** Which names the interfaces of each binding have. */
  ghost predicate NameOk(objs: Objects, iface: VmIface) {
    match iface.binding
    case Masquerade => iface.name == POD_NETWORK
    case Bridge => iface.name != POD_NETWORK && Key(Nad, iface.name) !in objs
    case SriovBinding => Visible(objs, Key(Nad, iface.name)) && IsSriov(objs[Key(Nad, iface.name)])
  }

  /** No OVN interface repeats an earlier name. */
  ghost predicate NamesOk(objs: Objects, ifaces: seq<VmIface>) {
    && (forall i :: 0 <= i < |ifaces| ==> NameOk(objs, ifaces[i]))
    && forall i, j :: 0 <= i < j < |ifaces| && ifaces[i].name == ifaces[j].name ==> ifaces[j].binding != Bridge
  }

  lemma NamesNext(objs: Objects, ifaces: seq<VmIface>, iface: VmIface)
    requires NamesOk(objs, ifaces) && NameOk(objs, iface)
    requires iface.binding == Bridge ==> forall h :: 0 <= h < |ifaces| ==> ifaces[h].name != iface.name
    ensures NamesOk(objs, ifaces + [iface])
  {
  }

  ghost predicate AllServe(objs: Objects, reqs: seq<Request>, nics: seq<Nic>) {
    |nics| == |reqs| && forall i :: 0 <= i < |nics| ==> Serves(objs, reqs[i], nics[i])
  }

  lemma AllServeNext(objs: Objects, reqs: seq<Request>, i: nat, nics: seq<Nic>, x: Nic)
    requires i < |reqs| && AllServe(objs, reqs[..i], nics) && Serves(objs, reqs[i], x)
    ensures AllServe(objs, reqs[..i + 1], nics + [x])
  {
    forall h | 0 <= h < i + 1 ensures Serves(objs, reqs[..i + 1][h], (nics + [x])[h]) {
      assert h < i ==> Serves(objs, reqs[..i][h], nics[h]);
    }
  }

  /** The VM has the pod network first, then the given interfaces in order; names and annotations
      are in order too. */
  ghost predicate Compiles(objs: Objects, vm: Vm, nics: seq<Nic>) {
    && |vm.nets| == |vm.ifaces| == |nics| + 1
    && vm.nets[0] == VmNet(POD_NETWORK, Pod) && vm.ifaces[0] == VmIface(POD_NETWORK, Masquerade, "")
    && (forall i :: 0 <= i < |nics| ==> vm.nets[i + 1] == nics[i].net && vm.ifaces[i + 1] == nics[i].iface)
    && NamesOk(objs, vm.ifaces)
    && AnnotationsOk(objs, vm.ann) && LastWins(vm.ann, nics)
  }

  function NamesIn(vm: Vm): set<string> {
    set h | 0 <= h < |vm.ifaces| :: vm.ifaces[h].name
  }

  function Append(vm: Vm, x: Nic): Vm {
    Vm(vm.nets + [x.net], vm.ifaces + [x.iface], vm.ann + x.ann)
  }

  lemma CompilesNext(objs: Objects, vm: Vm, nics: seq<Nic>, ch: Choice, x: Nic)
    requires LabelInv(objs) && Compiles(objs, vm, nics) && Builds(objs, ch, x)
    requires x.iface.binding == Bridge ==>
               && x.net.name != POD_NETWORK && Key(Nad, x.net.name) !in objs
               && forall h :: 0 <= h < |vm.ifaces| ==> vm.ifaces[h].name != x.net.name
    ensures Compiles(objs, Append(vm, x), nics + [x])
  {
    if ch.OnEntry? {
      MergeKeepsAnnotations(objs, vm.ann, x, SubnetOf(objs, ch.e.subnetId.value).value.labels[SubnetName]);
    } else {
      assert vm.ann + x.ann == vm.ann;
    }
    LastWinsNext(vm.ann, nics, x);
    assert NameOk(objs, x.iface) && x.iface.name == x.net.name;
    NamesNext(objs, vm.ifaces, x.iface);
  }

  /** Each interface is what was chosen for its request. */
  ghost predicate AllBuilt(objs: Objects, choices: seq<Choice>, nics: seq<Nic>) {
    |nics| == |choices| && forall i :: 0 <= i < |nics| ==> Builds(objs, choices[i], nics[i])
  }

  /** The choices made so far and those to come are those of the whole list. */
  ghost predicate SoFar(objs: Objects, status: Status, reqs: seq<Request>, entries: seq<Entry>,
                        i: nat, es: seq<Entry>, chosen: seq<Choice>)
    requires i <= |reqs|
  {
    var all, rest := ChooseAll(objs, status, reqs, entries), ChooseAll(objs, status, reqs[i..], es);
    (all.Some? <==> rest.Some?) && (rest.Some? ==> all.value == chosen + rest.value)
  }

  lemma SoFarNext(objs: Objects, status: Status, reqs: seq<Request>, entries: seq<Entry>, i: nat, es: seq<Entry>,
                  chosen: seq<Choice>)
    requires i < |reqs| && SoFar(objs, status, reqs, entries, i, es, chosen)
    ensures Choose(objs, status, reqs[i], es).None? ==> ChooseAll(objs, status, reqs, entries).None?
    ensures Choose(objs, status, reqs[i], es).Some? ==>
              SoFar(objs, status, reqs, entries, i + 1, Leaves(objs, status, reqs[i], es),
                    chosen + [Choose(objs, status, reqs[i], es).value])
  {
    TailAt(reqs, i);
    var rest := ChooseAll(objs, status, reqs[i + 1..], Leaves(objs, status, reqs[i], es));
    if Choose(objs, status, reqs[i], es).Some? && rest.Some? {
      AppendOne(chosen, Choose(objs, status, reqs[i], es).value, rest.value);
    }
  }

  lemma TailAt(reqs: seq<Request>, i: nat)
    requires i < |reqs|
    ensures reqs[i..] != [] && reqs[i..][0] == reqs[i] && reqs[i..][1..] == reqs[i + 1..]
  {
  }

  lemma AppendOne(chosen: seq<Choice>, x: Choice, rest: seq<Choice>)
    ensures chosen + ([x] + rest) == chosen + [x] + rest
  {
  }

  /** The requests are served if the store is in order and the entries are consistent. */
  ghost predicate Good(objs: Objects, used: set<Uid>, status: Status, entries: seq<Entry>) {
    InOrder(objs, used, status) && Consistent(objs, entries)
  }

  /** The loop half way: the first `i` requests compiled. `good` says that it began well. */
  ghost predicate Going(objs: Objects, status: Status, reqs: seq<Request>, entries: seq<Entry>, good: bool,
                        i: nat, es: seq<Entry>, chosen: seq<Choice>, vm: Vm, nics: seq<Nic>)
    requires i <= |reqs|
  {
    && SoFar(objs, status, reqs, entries, i, es, chosen)
    && AllBuilt(objs, chosen, nics) && Compiles(objs, vm, nics)
    && (good ==> Consistent(objs, es) && AllServe(objs, reqs[..i], nics))
  }

  lemma GoingNext(objs: Objects, used: set<Uid>, status: Status, reqs: seq<Request>, entries: seq<Entry>, good: bool,
                  i: nat, es: seq<Entry>, chosen: seq<Choice>, vm: Vm, nics: seq<Nic>, x: Nic)
    requires LabelInv(objs) && (good ==> InOrder(objs, used, status))
    requires i < |reqs| && Going(objs, status, reqs, entries, good, i, es, chosen, vm, nics)
    requires Choose(objs, status, reqs[i], es).Some? && Builds(objs, Choose(objs, status, reqs[i], es).value, x)
    requires FreshName(objs, x, NamesIn(vm))
    ensures Going(objs, status, reqs, entries, good, i + 1, Leaves(objs, status, reqs[i], es),
                  chosen + [Choose(objs, status, reqs[i], es).value], Append(vm, x), nics + [x])
  {
    SoFarNext(objs, status, reqs, entries, i, es, chosen);
    if good {
      LeavesConsistent(objs, used, status, reqs[i], es);
      ChoiceServes(objs, used, status, reqs[i], es, x);
      AllServeNext(objs, reqs, i, nics, x);
    }
    assert forall h :: 0 <= h < |vm.ifaces| ==> vm.ifaces[h].name in NamesIn(vm);
    CompilesNext(objs, vm, nics, Choose(objs, status, reqs[i], es).value, x);
  }

  lemma GoingEnd(objs: Objects, status: Status, reqs: seq<Request>, entries: seq<Entry>, good: bool,
                 es: seq<Entry>, chosen: seq<Choice>, vm: Vm, nics: seq<Nic>)
    requires Going(objs, status, reqs, entries, good, |reqs|, es, chosen, vm, nics)
    ensures ChooseAll(objs, status, reqs, entries) == Some(chosen)
    ensures AllBuilt(objs, chosen, nics) && Compiles(objs, vm, nics) && (good ==> AllServe(objs, reqs, nics))
  {
    assert reqs[..|reqs|] == reqs && reqs[|reqs|..] == [];
    assert chosen + [] == chosen;
  }

  lemma GoingStart(objs: Objects, status: Status, reqs: seq<Request>, entries: seq<Entry>, good: bool)
    requires good ==> Consistent(objs, entries)
    ensures Going(objs, status, reqs, entries, good, 0, entries, [],
                  Vm([VmNet(POD_NETWORK, Pod)], [VmIface(POD_NETWORK, Masquerade, "")], map[]), [])
  {
    assert reqs[0..] == reqs;
    var all := ChooseAll(objs, status, reqs, entries);
    assert all.Some? ==> [] + all.value == all.value;
  }

  /** One request, in place. */
  method ResolveOne(c: Cluster, req: Request, entries: seq<Entry>, taken: set<string>)
    returns (r: Result<Nic>, entries': seq<Entry>)
    requires c.Valid() && LabelInv(c.objs)
    modifies c`faults
    ensures Decides(r, Choose(c.objs, c.status, req, entries), old(c.faults), c.faults)
    ensures r.Ok? ==> Builds(c.objs, Choose(c.objs, c.status, req, entries).value, r.value)
    ensures r.Ok? ==> FreshName(c.objs, r.value, taken)
    ensures r.Ok? ==> entries' == Leaves(c.objs, c.status, req, entries)
  {
    entries' := entries;
    if req.networkId == "" && req.subnetId == "" { return Error(InvalidArgument), entries; }
    if req.subnetId != "" {
      r := ResolveBySubnet(c, req, entries, taken);
    } else {
      r, entries' := ResolveByNetwork(c, req, entries, taken);
    }
  }

  /** A request whose entry gives a static address has it in the VM's annotations, next to its subnet's
      name, unless a later interface on the same NAD brings its own. */
  lemma StaticAddressReachesVm(objs: Objects, vm: Vm, choices: seq<Choice>, nics: seq<Nic>, i: nat)
    requires Compiles(objs, vm, nics) && AllBuilt(objs, choices, nics) && i < |nics| && choices[i].OnEntry?
    requires choices[i].e.ip.Some? && choices[i].e.ip.value.text != ""
    requires forall j :: i < j < |nics| && choices[j].OnEntry? && nics[j].net.source == nics[i].net.source ==>
               choices[j].e.ip.None? || choices[j].e.ip.value.text == ""
    ensures nics[i].net.source.Multus?
    ensures var k := AnnKey(nics[i].net.source.nad, IpAddress);
            k in vm.ann && vm.ann[k] == AddressValue(choices[i].e.ip.value)
  {
    ChosenAnnotations(objs, choices[i].e, nics[i]);
    var k := AnnKey(nics[i].net.source.nad, IpAddress);
    forall j | i < j < |nics| ensures k !in nics[j].ann {
      assert Builds(objs, choices[j], nics[j]);
      if choices[j].OnEntry? { ChosenAnnotations(objs, choices[j].e, nics[j]); }
    }
    var last :| LastSetter(nics, last, k) && vm.ann[k] == nics[last].ann[k];
    assert last == i;
  }

  /** The loop over the requests. */
  method ResolveAll(c: Cluster, reqs: seq<Request>, entries: seq<Entry>)
    returns (r: Result<Vm>, ghost nics: seq<Nic>)
    requires c.Valid() && LabelInv(c.objs)
    modifies c`faults
    ensures Decides(r, ChooseAll(c.objs, c.status, reqs, entries), old(c.faults), c.faults)
    ensures r.Ok? ==> AllBuilt(c.objs, ChooseAll(c.objs, c.status, reqs, entries).value, nics)
    ensures r.Ok? ==> Compiles(c.objs, r.value, nics)
    ensures r.Ok? && Good(c.objs, c.used, c.status, entries) ==> AllServe(c.objs, reqs, nics)
  {
    var vm := Vm([VmNet(POD_NETWORK, Pod)], [VmIface(POD_NETWORK, Masquerade, "")], map[]);
    var es := entries;
    ghost var chosen: seq<Choice>, good := [], Good(c.objs, c.used, c.status, entries);
    nics := [];
    GoingStart(c.objs, c.status, reqs, entries, good);
    for i := 0 to |reqs|
      invariant c.faults >= old(c.faults)
      invariant Going(c.objs, c.status, reqs, entries, good, i, es, chosen, vm, nics)
    {
      var x, es' := ResolveOne(c, reqs[i], es, NamesIn(vm));
      if x.Error? {
        SoFarNext(c.objs, c.status, reqs, entries, i, es, chosen);
        return Error(x.err), nics;
      }
      GoingNext(c.objs, c.used, c.status, reqs, entries, good, i, es, chosen, vm, nics, x.value);
      chosen := chosen + [Choose(c.objs, c.status, reqs[i], es).value];
      vm, nics, es := Append(vm, x.value), nics + [x.value], es';
    }
    GoingEnd(c.objs, c.status, reqs, entries, good, es, chosen, vm, nics);
    r := Ok(vm);
  }

  /** resolveInterfaces: unless a call is lost it succeeds exactly when every request, seen in order
      with the edits of the ones before, resolves; and then there is one interface per request, as
      chosen, and in a store in order and with consistent entries on the requested subnet or network. */
  method ResolveInterfaces(c: Cluster, reqs: seq<Request>, entries: seq<Entry>)
    returns (r: Result<Vm>, ghost nics: seq<Nic>)
    requires c.Valid() && LabelInv(c.objs)
    modifies c`faults
    ensures Decides(r, ChooseAll(c.objs, c.status, reqs, entries), old(c.faults), c.faults)
    ensures r.Ok? ==> AllBuilt(c.objs, ChooseAll(c.objs, c.status, reqs, entries).value, nics)
    ensures r.Ok? ==> Compiles(c.objs, r.value, nics)
    ensures r.Ok? && Good(c.objs, c.used, c.status, entries) ==> AllServe(c.objs, reqs, nics)
    ensures AnyStatic(c.objs, c.status, reqs, entries) ==> r.Error?
  {
    r, nics := ResolveAll(c, reqs, entries);
    StaticListFails(c.objs, c.status, reqs, entries);
  }
}
