/** What the kube-OVN network manager reads: networks and subnets as functions of the store.

    An overlay network is a Vpc, an underlay network a Vlan. The cached reads see managed objects
    only. The subnets of a network come from its `Status.Subnets`.
 */
module Networks {
  import opened Cidr
  import opened Kube
  import opened NetworkLabels

  /** vivnfm.VirtualNetwork */
  datatype Net = Net(id: Uid, name: string, kind: Kind, subnetIds: seq<Uid>,
                     provider: Option<string>, segmentation: Option<nat>)

  /** vivnfm.NetworkSubnet; `labels` is its metadata */
  datatype Sub = Sub(id: Uid, networkId: Option<Uid>, protocol: string, gateway: string,
                     cidr: Prefix, dhcp: bool, labels: Labels)

  /** GetNetwork's options: the name wins over the UID, empty means absent. */
  datatype NetQuery = NetQuery(name: string, uid: string)

  function ByName(name: string): NetQuery { NetQuery(name, "") }
  function ByUid(uid: string): NetQuery { NetQuery("", uid) }

  type Status = map<Key, seq<string>>

  function StatusOf(status: Status, k: Key): seq<string> {
    if k in status then status[k] else []
  }

  predicate IsNetworkKey(k: Key) {
    k.kind == Vpc || k.kind == Vlan
  }

  function TypeLabel(kind: Kind): string {
    if kind == Vpc then OVERLAY else UNDERLAY
  }

  // ---------- conversions ----------

  const TWO_64 := 0x1_0000_0000_0000_0000

  /** Go's conversion from uint64 to int on a 64-bit machine. */
  function ToSigned(u: nat): int {
    var w := u % TWO_64;
    if w < TWO_64 / 2 then w else w - TWO_64
  }

  /** Go's conversion from int to uint64. */
  function ToUnsigned(i: int): nat {
    i % TWO_64
  }

  /** The two conversions undo each other on 64-bit values. */
  lemma SignedRange(u: nat)
    ensures -(TWO_64 / 2) <= ToSigned(u) < TWO_64 / 2
    ensures u < TWO_64 ==> ToUnsigned(ToSigned(u)) == u
  {
  }

  function ToSubnet(o: Obj): Result<Sub> {
    if !Managed(o) then Error(NotManaged)
    else if !o.spec.SubnetSpec? || o.spec.protocol == "" then Error(InvalidArgument)
    else if o.spec.protocol != "IPv4" && o.spec.protocol != "IPv6" then Error(Unsupported)
    else
      var id := Label(o.labels, NetworkId);
      Ok(Sub(o.uid, if id != "" then Some(id) else None, o.spec.protocol, o.spec.gateway,
             o.spec.cidr, o.spec.dhcp, o.labels))
  }

  function ToNetwork(k: Key, o: Obj, ids: seq<Uid>): Result<Net> {
    if k.name == "" then Error(InvalidArgument)
    else if !Managed(o) then Error(NotManaged)
    else if k.kind == Vlan && o.spec.VlanSpec? then
      Ok(Net(o.uid, k.name, Vlan, ids, Some(o.spec.provider), Some(ToUnsigned(o.spec.id))))
    else Ok(Net(o.uid, k.name, k.kind, ids, None, None))
  }

  // ---------- lookups ----------

  /** The object with a given UID: a list of the kind searched for the first match. */
  ghost function FindUid(objs: Objects, kind: Kind, uid: Uid): Option<Key> {
    if k :| Visible(objs, k) && k.kind == kind && objs[k].uid == uid then Some(k) else None
  }

  function SubnetByName(objs: Objects, name: string): Result<Sub> {
    if Visible(objs, SubnetKey(name)) then ToSubnet(objs[SubnetKey(name)]) else Error(ApiNotFound)
  }

  ghost function SubnetByUid(objs: Objects, uid: Uid): Result<Sub> {
    var k := FindUid(objs, Subnet, uid);
    if uid == "" then Error(InvalidArgument)
    else if k.Some? then ToSubnet(objs[k.value])
    else Error(NotFound)
  }

  function SubnetByNad(objs: Objects, nad: string): Result<Sub> {
    if !Visible(objs, Key(Nad, nad)) then Error(ApiNotFound)
    else if SubnetName !in objs[Key(Nad, nad)].labels then Error(InvalidArgument)
    else SubnetByName(objs, objs[Key(Nad, nad)].labels[SubnetName])
  }

  /** The ids of the listed subnets, or the first error met. */
  function SubnetIds(objs: Objects, names: seq<string>): Result<seq<Uid>> {
    if names == [] then Ok([])
    else
      var init := SubnetIds(objs, names[..|names| - 1]);
      if init.Error? then init
      else
        var last := SubnetByName(objs, names[|names| - 1]);
        if last.Error? then Error(last.err) else Ok(init.value + [last.value.id])
  }

  function NetworkAt(objs: Objects, status: Status, k: Key): Result<Net>
    requires k in objs
  {
    var ids := SubnetIds(objs, StatusOf(status, k));
    if ids.Error? then Error(ids.err) else ToNetwork(k, objs[k], ids.value)
  }

  ghost function FindNetwork(objs: Objects, kind: Kind, q: NetQuery): Result<Key> {
    if q.name != "" then
      if Visible(objs, Key(kind, q.name)) then Ok(Key(kind, q.name)) else Error(ApiNotFound)
    else if q.uid != "" then
      var k := FindUid(objs, kind, q.uid);
      if k.Some? then Ok(k.value) else Error(NotFound)
    else Error(InvalidArgument)
  }

  ghost function NetworkOfKind(objs: Objects, status: Status, kind: Kind, q: NetQuery): Result<Net> {
    var k := FindNetwork(objs, kind, q);
    if k.Error? then Error(k.err) else NetworkAt(objs, status, k.value)
  }

  /** GetNetwork: the Vpc if there is one, then the Vlan; every not-found falls through. */
  ghost function NetworkBy(objs: Objects, status: Status, q: NetQuery): Result<Net> {
    var overlay := NetworkOfKind(objs, status, Vpc, q);
    if overlay.Ok? || !overlay.IsNotFound() then overlay
    else
      var underlay := NetworkOfKind(objs, status, Vlan, q);
      if underlay.Ok? || !underlay.IsNotFound() then underlay
      else Error(NotFound)
  }

  // ---------- what the store keeps ----------

  /** The subnet's spec attaches it to this network. */
  predicate Refers(o: Obj, k: Key) {
    o.spec.SubnetSpec? && k.name != "" &&
    ((k.kind == Vpc && o.spec.vpc == k.name) || (k.kind == Vlan && o.spec.vlan == k.name))
  }

  function NadOf(o: Obj): Key {
    Key(Nad, Label(o.labels, SubnetNetAttach))
  }

  /** A managed subnet is labelled with its own name, converts, and has its NAD. */
  predicate SubnetOk(objs: Objects, n: string) {
    Visible(objs, SubnetKey(n)) ==>
      var o := objs[SubnetKey(n)];
      && Label(o.labels, SubnetName) == n
      && ToSubnet(o).Ok?
      && Visible(objs, NadOf(o))
      && SubnetName in objs[NadOf(o)].labels && objs[NadOf(o)].labels[SubnetName] == n
      && NetworkType !in objs[NadOf(o)].labels
  }

  ghost predicate LabelInv(objs: Objects) {
    forall n :: SubnetOk(objs, n)
  }

  /** A managed subnet names an existing network of the matching type and carries its UID, or
      names none at all. */
  predicate RefOk(objs: Objects, n: string) {
    Visible(objs, SubnetKey(n)) && objs[SubnetKey(n)].spec.SubnetSpec? ==>
      var o := objs[SubnetKey(n)];
      if NetworkId in o.labels then
        var k := Key(if o.spec.vpc != "" then Vpc else Vlan, Label(o.labels, NetworkName));
        && k.name != ""
        && o.spec.vpc == (if k.kind == Vpc then k.name else "")
        && o.spec.vlan == (if k.kind == Vlan then k.name else "")
        && Label(o.labels, NetworkType) == TypeLabel(k.kind)
        && Visible(objs, k)
        && o.labels[NetworkId] == objs[k].uid
      else o.spec.vpc == "" && o.spec.vlan == ""
  }

  ghost predicate RefInv(objs: Objects) {
    forall n :: RefOk(objs, n)
  }

  /** What a listing always is, however stale: it names no subnet twice. */
  predicate Distinct(status: Status) {
    forall k :: k in status && IsNetworkKey(k) ==>
      forall i, j :: 0 <= i < j < |status[k]| ==> status[k][i] != status[k][j]
  }

  /** Those of the subnets a network lists that are there belong to it. */
  predicate OwnListing(objs: Objects, status: Status, k: Key) {
    forall i :: 0 <= i < |StatusOf(status, k)| && SubnetKey(StatusOf(status, k)[i]) in objs ==>
      Refers(objs[SubnetKey(StatusOf(status, k)[i])], k)
  }

  /** The listings may lag behind, but name no subnet that has gone over to another network. */
  ghost predicate Lagging(objs: Objects, status: Status) {
    Distinct(status) && forall k :: IsNetworkKey(k) ==> OwnListing(objs, status, k)
  }

  /** Every subnet of the network is listed, and nothing else. */
  ghost predicate ListsAll(objs: Objects, status: Status, k: Key) {
    forall n :: n in StatusOf(status, k) <==> SubnetKey(n) in objs && Refers(objs[SubnetKey(n)], k)
  }

  /** The controller has caught up on every network. */
  ghost predicate Settled(objs: Objects, status: Status) {
    Lagging(objs, status) && forall k :: IsNetworkKey(k) ==> ListsAll(objs, status, k)
  }

  // ---------- facts about lookups ----------

  lemma FindUidUnique(objs: Objects, used: set<Uid>, kind: Kind, k: Key)
    requires UidsOk(objs, used) && Visible(objs, k) && k.kind == kind
    ensures FindUid(objs, kind, objs[k].uid) == Some(k)
  {
    var f := FindUid(objs, kind, objs[k].uid);
    assert f.Some?;
    assert objs[f.value].uid == objs[k].uid;
  }

  lemma {:induction false} SubnetIdsOf(objs: Objects, names: seq<string>)
    ensures SubnetIds(objs, names).Ok? <==> forall i :: 0 <= i < |names| ==> SubnetByName(objs, names[i]).Ok?
    ensures SubnetIds(objs, names).Ok? ==>
              && |SubnetIds(objs, names).value| == |names|
              && forall i :: 0 <= i < |names| ==> SubnetIds(objs, names).value[i] == objs[SubnetKey(names[i])].uid
    ensures SubnetIds(objs, names).Error? ==>
              exists i :: 0 <= i < |names| && SubnetByName(objs, names[i]) == Error(SubnetIds(objs, names).err)
  {
    if names != [] {
      var init := names[..|names| - 1];
      SubnetIdsOf(objs, init);
      if SubnetIds(objs, init).Error? {
        var i :| 0 <= i < |init| && SubnetByName(objs, init[i]) == Error(SubnetIds(objs, init).err);
        assert SubnetByName(objs, names[i]).Error?;
      }
    }
  }

  /** A network that GetNetwork by name can return: visible, and every subnet it lists is there. */
  ghost predicate Answering(objs: Objects, status: Status, k: Key) {
    Visible(objs, k) && forall i :: 0 <= i < |StatusOf(status, k)| ==> Visible(objs, SubnetKey(StatusOf(status, k)[i]))
  }

  lemma AnsweringAt(objs: Objects, status: Status, k: Key)
    requires LabelInv(objs) && k.name != "" && Visible(objs, k)
    ensures NetworkAt(objs, status, k).Ok? <==> Answering(objs, status, k)
    ensures !Answering(objs, status, k) ==> NetworkAt(objs, status, k) == Error(ApiNotFound)
  {
    var names := StatusOf(status, k);
    SubnetIdsOf(objs, names);
    forall i | 0 <= i < |names|
      ensures var s := SubnetByName(objs, names[i]);
              s == Error(ApiNotFound) || (s.Ok? && Visible(objs, SubnetKey(names[i])))
    {
      assert SubnetOk(objs, names[i]);
    }
  }

  lemma AnsweringIsFound(objs: Objects, status: Status, k: Key)
    requires LabelInv(objs) && k.name != ""
    ensures NetworkOfKind(objs, status, k.kind, ByName(k.name)).Ok? <==> Answering(objs, status, k)
    ensures !Answering(objs, status, k) ==> NetworkOfKind(objs, status, k.kind, ByName(k.name)) == Error(ApiNotFound)
  {
    if Visible(objs, k) { AnsweringAt(objs, status, k); }
  }

  /** By UID a network is found exactly when it answers; otherwise nothing is. */
  lemma FoundByUidIff(objs: Objects, used: set<Uid>, status: Status, k: Key)
    requires UidsOk(objs, used) && LabelInv(objs) && IsNetworkKey(k) && Visible(objs, k)
    ensures NetworkBy(objs, status, ByUid(objs[k].uid)).Ok? <==> Answering(objs, status, k)
  {
    var uid, other := objs[k].uid, if k.kind == Vpc then Vlan else Vpc;
    FindUidUnique(objs, used, k.kind, k);
    AnsweringAt(objs, status, k);
    assert FindUid(objs, other, uid).None?;
    assert NetworkOfKind(objs, status, k.kind, ByUid(uid)) == NetworkAt(objs, status, k);
    assert NetworkOfKind(objs, status, other, ByUid(uid)) == Error(NotFound);
  }

  /** The name means this network. */
  ghost predicate NameMeans(objs: Objects, status: Status, k: Key) {
    var found := NetworkBy(objs, status, ByName(k.name));
    found.Ok? && NetKey(found.value) == k
  }

  /** The other network that can have the name. */
  function Twin(k: Key): Key {
    Key(if k.kind == Vpc then Vlan else Vpc, k.name)
  }

  /** The name means a network exactly when that one answers and no Vpc of the name hides it. A Vpc
      whose listing is ahead of the store does not answer, and lets the name fall through. */
  lemma NameMeansIff(objs: Objects, status: Status, k: Key)
    requires LabelInv(objs) && IsNetworkKey(k) && k.name != ""
    ensures NameMeans(objs, status, k) <==>
            Answering(objs, status, k) && (k.kind == Vpc || !Answering(objs, status, Key(Vpc, k.name)))
  {
    AnsweringIsFound(objs, status, Key(Vpc, k.name));
    AnsweringIsFound(objs, status, Key(Vlan, k.name));
    if NetworkBy(objs, status, ByName(k.name)).Ok? { NetworkFound(objs, status, ByName(k.name)); }
  }

  // ---------- removing and adding objects ----------

  /** The keys that deleting these subnets removes. */
  function Doomed(objs: Objects, names: seq<string>): set<Key> {
    (set n | n in names && SubnetKey(n) in objs :: SubnetKey(n)) +
    (set n | n in names && SubnetKey(n) in objs :: NadOf(objs[SubnetKey(n)]))
  }

  lemma DoomedExtends(objs: Objects, names: seq<string>, n: string)
    requires SubnetKey(n) in objs
    ensures Doomed(objs, names + [n]) == Doomed(objs, names) + {SubnetKey(n), NadOf(objs[SubnetKey(n)])}
  {
    var more, d := names + [n], Doomed(objs, names + [n]);
    assert n in more && SubnetKey(n) in d && NadOf(objs[SubnetKey(n)]) in d;
    assert forall x :: x in more <==> x in names || x == n;
  }

  /** Distinct subnets have distinct NADs. */
  lemma NadsDiffer(objs: Objects, m: string, n: string)
    requires LabelInv(objs) && Visible(objs, SubnetKey(m)) && Visible(objs, SubnetKey(n)) && m != n
    ensures NadOf(objs[SubnetKey(m)]) != NadOf(objs[SubnetKey(n)])
  {
    assert SubnetOk(objs, m) && SubnetOk(objs, n);
  }

  /** So removing subnets with their NADs harms no other subnet. */
  lemma DropKeepsLabels(objs: Objects, names: seq<string>)
    requires LabelInv(objs)
    requires forall n :: n in names ==> Visible(objs, SubnetKey(n))
    ensures LabelInv(objs - Doomed(objs, names))
  {
    var left := objs - Doomed(objs, names);
    forall n | Visible(left, SubnetKey(n)) ensures SubnetOk(left, n) {
      assert SubnetOk(objs, n);
      assert n !in names;
      forall x | x in names ensures NadOf(objs[SubnetKey(x)]) != NadOf(objs[SubnetKey(n)]) {
        NadsDiffer(objs, x, n);
      }
      assert NadOf(objs[SubnetKey(n)]) in left;
    }
  }

  lemma DropPair(objs: Objects, name: string)
    requires LabelInv(objs) && Visible(objs, SubnetKey(name))
    ensures var nad := NadOf(objs[SubnetKey(name)]);
            && nad in objs
            && objs - {SubnetKey(name)} - {nad} == objs - Doomed(objs, [name])
            && LabelInv(objs - Doomed(objs, [name]))
  {
    assert SubnetOk(objs, name);
    DoomedExtends(objs, [], name);
    assert [] + [name] == [name];
    assert Doomed(objs, []) == {};
    DropKeepsLabels(objs, [name]);
  }

  /** Removing one subnet and not its NAD is as good. */
  lemma DropSubnetKeepsLabels(objs: Objects, name: string)
    requires LabelInv(objs)
    ensures LabelInv(objs - {SubnetKey(name)})
  {
    forall n ensures SubnetOk(objs - {SubnetKey(name)}, n) {
      assert SubnetOk(objs, n);
    }
  }

  lemma DropNetworkKeepsLabels(objs: Objects, k: Key)
    requires LabelInv(objs) && IsNetworkKey(k)
    ensures LabelInv(objs - {k})
  {
    forall n ensures SubnetOk(objs - {k}, n) {
      assert SubnetOk(objs, n);
    }
  }

  /** As long as the networks stay, removing other objects keeps every reference good. */
  lemma DropKeepsRefs(objs: Objects, gone: set<Key>)
    requires RefInv(objs) && forall k :: k in gone ==> !IsNetworkKey(k)
    ensures RefInv(objs - gone)
  {
    forall n ensures RefOk(objs - gone, n) {
      assert RefOk(objs, n);
    }
  }

  lemma NetworkDropKeepsRef(objs: Objects, gone: set<Key>, k: Key, n: string)
    requires RefInv(objs) && IsNetworkKey(k) && k.name != "" && k in gone
    requires forall g :: g in gone && g != k ==> !IsNetworkKey(g)
    ensures RefOk(objs - gone, n) <==>
            !(Visible(objs - gone, SubnetKey(n)) && Refers(objs[SubnetKey(n)], k))
  {
    assert RefOk(objs, n);
  }

  /** Deleting a network with the subnets its status listed leaves every reference good exactly
      when the status had listed all its managed subnets. */
  lemma NetworkDropKeepsRefsIff(objs: Objects, k: Key, seen: seq<string>)
    requires LabelInv(objs) && RefInv(objs) && IsNetworkKey(k) && k.name != ""
    requires forall n :: n in seen ==> Visible(objs, SubnetKey(n))
    ensures RefInv(objs - Doomed(objs, seen) - {k}) <==>
            forall n :: Visible(objs, SubnetKey(n)) && Refers(objs[SubnetKey(n)], k) ==> n in seen
  {
    var gone := Doomed(objs, seen) + {k};
    assert objs - Doomed(objs, seen) - {k} == objs - gone;
    forall n
      ensures RefOk(objs - gone, n) <==> (Visible(objs, SubnetKey(n)) && Refers(objs[SubnetKey(n)], k) ==> n in seen)
    {
      assert SubnetKey(n) in gone <==> n in seen && SubnetKey(n) in objs;
      NetworkDropKeepsRef(objs, gone, k, n);
    }
  }

  function NetKey(n: Net): Key {
    Key(n.kind, n.name)
  }

  predicate Matches(objs: Objects, k: Key, q: NetQuery)
    requires k in objs
  {
    if q.name != "" then k.name == q.name else objs[k].uid == q.uid
  }

  /** What a successful GetNetwork says about the store. */
  lemma NetworkFound(objs: Objects, status: Status, q: NetQuery)
    requires NetworkBy(objs, status, q).Ok?
    ensures var n := NetworkBy(objs, status, q).value;
            && IsNetworkKey(NetKey(n)) && n.name != ""
            && Visible(objs, NetKey(n)) && objs[NetKey(n)].uid == n.id && Matches(objs, NetKey(n), q)
            && SubnetIds(objs, StatusOf(status, NetKey(n))) == Ok(n.subnetIds)
  {
    var overlay := NetworkOfKind(objs, status, Vpc, q);
    if overlay.Ok? {
      assert FindNetwork(objs, Vpc, q).Ok?;
    } else {
      assert FindNetwork(objs, Vlan, q).Ok?;
    }
  }

  /** The listed subnets of a network found, with their UIDs. */
  lemma ListedSubnets(objs: Objects, status: Status, q: NetQuery)
    requires NetworkBy(objs, status, q).Ok?
    ensures var n := NetworkBy(objs, status, q).value;
            var seen := StatusOf(status, NetKey(n));
            && |n.subnetIds| == |seen|
            && forall i :: 0 <= i < |seen| ==>
                 Visible(objs, SubnetKey(seen[i])) && n.subnetIds[i] == objs[SubnetKey(seen[i])].uid
  {
    NetworkFound(objs, status, q);
    var n := NetworkBy(objs, status, q).value;
    SubnetIdsOf(objs, StatusOf(status, NetKey(n)));
  }

  lemma DropNextPair(objs: Objects, seen: seq<string>, i: nat)
    requires i < |seen| && SubnetKey(seen[i]) in objs - Doomed(objs, seen[..i])
    ensures var left := objs - Doomed(objs, seen[..i]);
            left - Doomed(left, [seen[i]]) == objs - Doomed(objs, seen[..i + 1])
  {
    var left, n := objs - Doomed(objs, seen[..i]), seen[i];
    assert seen[..i + 1] == seen[..i] + [n];
    DoomedExtends(objs, seen[..i], n);
    DoomedExtends(left, [], n);
    assert [] + [n] == [n] && Doomed(left, []) == {};
  }

  /** Deleting the next listed subnet after its predecessors. */
  lemma DropNext(objs: Objects, used: set<Uid>, seen: seq<string>, i: nat)
    requires UidsOk(objs, used) && LabelInv(objs) && NoDup(seen) && i < |seen|
    requires forall n :: n in seen ==> Visible(objs, SubnetKey(n))
    ensures var left := objs - Doomed(objs, seen[..i]);
            && Visible(left, SubnetKey(seen[i])) && left[SubnetKey(seen[i])] == objs[SubnetKey(seen[i])]
            && FindUid(left, Subnet, objs[SubnetKey(seen[i])].uid) == Some(SubnetKey(seen[i]))
            && left - Doomed(left, [seen[i]]) == objs - Doomed(objs, seen[..i + 1])
  {
    var left, n := objs - Doomed(objs, seen[..i]), seen[i];
    assert n !in seen[..i];
    assert SubnetKey(n) in left;
    FindUidUnique(left, used, Subnet, SubnetKey(n));
    DropNextPair(objs, seen, i);
  }
}
