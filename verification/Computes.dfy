/** Listing compute resources by an in-memory join, against looking each one up.

    A snapshot of the cache: managed VMs, managed VM instances (names are unique) and all pods of the
    namespace, each in listing order.
 */
module Computes {
  import opened Kube

  datatype VmObj = VmObj(name: string, uid: Uid)
  datatype Vmi = Vmi(name: string, uid: Uid, node: string)
  datatype Pod = Pod(name: string, createdBy: Option<Uid>, node: string)

  datatype Cache = Cache(vms: seq<VmObj>, vmis: seq<Vmi>, pods: seq<Pod>)

  /** The conversion of a VM with its instance and launcher pod, whatever it is. */
  type Convert<C> = (VmObj, Vmi, Option<Pod>) -> Result<C>

  ghost predicate Valid(s: Cache) {
    && (forall i, j :: 0 <= i < |s.vmis| && 0 <= j < |s.vmis| && s.vmis[i].name == s.vmis[j].name ==> i == j)
    && (forall i, j :: 0 <= i < |s.vms| && 0 <= j < |s.vms| && s.vms[i].uid == s.vms[j].uid ==> i == j)
    && (forall i :: 0 <= i < |s.vmis| ==> s.vmis[i].uid != "")
    && (forall i :: 0 <= i < |s.vms| ==> s.vms[i].uid != "")
  }

  /** The pods that carry this UID in the created-by label, in order. */
  function PodsOf(pods: seq<Pod>, uid: Uid): seq<Pod> {
    if pods == [] then []
    else PodsOf(pods[..|pods| - 1], uid) +
         if pods[|pods| - 1].createdBy == Some(uid) then [pods[|pods| - 1]] else []
  }

  /** selectLauncherPod: the first pod on the node, else the first pod. */
  function SelectLauncher(pods: seq<Pod>, node: string): (p: Option<Pod>)
    ensures p.Some? <==> pods != []
    ensures p.Some? ==>
              && p.value in pods
              && (p.value.node == node || (p.value == pods[0] && forall x :: x in pods ==> x.node != node))
  {
    if pods == [] then None
    else var i := FirstOn(pods, node); Some(if i < |pods| then pods[i] else pods[0])
  }

  function FirstOn(pods: seq<Pod>, node: string): (i: nat)
    ensures i <= |pods| && (i < |pods| ==> pods[i].node == node)
    ensures forall h :: 0 <= h < i ==> pods[h].node != node
  {
    if pods == [] || pods[0].node == node then 0 else 1 + FirstOn(pods[1..], node)
  }

  function VmiNamed(vmis: seq<Vmi>, name: string): Option<Vmi> {
    if vmis == [] then None else if vmis[0].name == name then Some(vmis[0]) else VmiNamed(vmis[1..], name)
  }

  lemma {:induction false} VmiNamedIs(vmis: seq<Vmi>, i: nat)
    requires i < |vmis| && forall h, j :: 0 <= h < |vmis| && 0 <= j < |vmis| && vmis[h].name == vmis[j].name ==> h == j
    ensures VmiNamed(vmis, vmis[i].name) == Some(vmis[i])
  {
    if i != 0 {
      assert vmis[0].name != vmis[i].name;
      VmiNamedIs(vmis[1..], i - 1);
    }
  }

  lemma {:induction false} VmiNamedAbsent(vmis: seq<Vmi>, name: string)
    ensures VmiNamed(vmis, name).None? <==> forall i :: 0 <= i < |vmis| ==> vmis[i].name != name
  {
    if vmis != [] {
      VmiNamedAbsent(vmis[1..], name);
      assert forall i :: 0 < i < |vmis| ==> vmis[i] == vmis[1..][i - 1];
    }
  }

  // ---------- one resource ----------

  /** computeFromVM: the instance by name, the launcher by label. */
  function FromVm<C>(s: Cache, conv: Convert<C>, vm: VmObj): Result<C> {
    var vmi := VmiNamed(s.vmis, vm.name);
    if vmi.None? then Error(ApiNotFound)
    else conv(vm, vmi.value, SelectLauncher(PodsOf(s.pods, vmi.value.uid), vmi.value.node))
  }

  /** What GetComputeResource answers for a UID. */
  ghost predicate Gets<C(!new)>(s: Cache, conv: Convert<C>, uid: Uid, r: Result<C>) {
    if exists i :: 0 <= i < |s.vms| && s.vms[i].uid == uid then
      exists i :: 0 <= i < |s.vms| && s.vms[i].uid == uid && r == FromVm(s, conv, s.vms[i])
    else r == Error(NotFound)
  }

  /** GetComputeResource by UID: the first VM with it. */
  method GetByUid<C(!new)>(s: Cache, conv: Convert<C>, uid: Uid) returns (r: Result<C>)
    requires Valid(s)
    ensures if uid == "" then r == Error(InvalidArgument) else Gets(s, conv, uid, r)
  {
    if uid == "" { return Error(InvalidArgument); }
    for i := 0 to |s.vms|
      invariant forall h :: 0 <= h < i ==> s.vms[h].uid != uid
    {
      if s.vms[i].uid == uid { return FromVm(s, conv, s.vms[i]); }
    }
    r := Error(NotFound);
  }

  // ---------- all resources ----------

  method IndexVmis(s: Cache) returns (byName: map<string, Vmi>)
    requires Valid(s)
    ensures forall name :: name in byName <==> VmiNamed(s.vmis, name).Some?
    ensures forall name :: name in byName ==> VmiNamed(s.vmis, name) == Some(byName[name])
  {
    byName := map[];
    for i := 0 to |s.vmis|
      invariant forall name :: name in byName <==> exists h :: 0 <= h < i && s.vmis[h].name == name
      invariant forall name :: name in byName ==>
                  exists h :: 0 <= h < i && s.vmis[h] == byName[name] && s.vmis[h].name == name
    {
      byName := byName[s.vmis[i].name := s.vmis[i]];
    }
    forall name
      ensures name in byName <==> VmiNamed(s.vmis, name).Some?
      ensures name in byName ==> VmiNamed(s.vmis, name) == Some(byName[name])
    {
      VmiNamedAbsent(s.vmis, name);
      if name in byName {
        var h :| 0 <= h < |s.vmis| && s.vmis[h] == byName[name] && s.vmis[h].name == name;
        VmiNamedIs(s.vmis, h);
      }
    }
  }

  /** Grouping the pods by label value is filtering them by it, for every UID at once. */
  method GroupPods(pods: seq<Pod>) returns (byUid: map<Uid, seq<Pod>>)
    ensures forall uid :: PodsOf(pods, uid) == if uid in byUid then byUid[uid] else []
  {
    byUid := map[];
    for i := 0 to |pods|
      invariant forall uid :: PodsOf(pods[..i], uid) == if uid in byUid then byUid[uid] else []
    {
      assert pods[..i + 1][..i] == pods[..i];
      ghost var before := byUid;
      if pods[i].createdBy.Some? {
        var uid := pods[i].createdBy.value;
        byUid := byUid[uid := (if uid in byUid then byUid[uid] else []) + [pods[i]]];
      }
      forall uid ensures PodsOf(pods[..i + 1], uid) == if uid in byUid then byUid[uid] else [] {
        assert PodsOf(pods[..i], uid) == if uid in before then before[uid] else [];
      }
    }
    assert pods[..|pods|] == pods;
  }

  /** The VMs that have an instance, in order. */
  function Running(s: Cache, vms: seq<VmObj>): seq<VmObj> {
    if vms == [] then []
    else Running(s, vms[..|vms| - 1]) +
         if VmiNamed(s.vmis, vms[|vms| - 1].name).Some? then [vms[|vms| - 1]] else []
  }

  /** Entry by entry, what the lookup of each VM gives. */
  ghost predicate Converted<C>(s: Cache, conv: Convert<C>, vms: seq<VmObj>, out: seq<C>) {
    |out| == |vms| && forall i :: 0 <= i < |vms| ==> FromVm(s, conv, vms[i]) == Ok(out[i])
  }

  /** ListComputeResources: the listed VMs are exactly those with an instance, in order, and each
      entry is what the lookup of that VM gives. */
  method ListComputes<C>(s: Cache, conv: Convert<C>) returns (r: Result<seq<C>>)
    requires Valid(s)
    ensures r.Ok? ==> Converted(s, conv, Running(s, s.vms), r.value)
    ensures r.Error? ==>
              exists i :: 0 <= i < |s.vms| && VmiNamed(s.vmis, s.vms[i].name).Some?
                          && FromVm(s, conv, s.vms[i]) == Error(r.err)
  {
    var byName := IndexVmis(s);
    var byUid := GroupPods(s.pods);
    var out: seq<C> := [];
    ghost var kept: seq<VmObj> := [];
    for i := 0 to |s.vms|
      invariant kept == Running(s, s.vms[..i]) && Converted(s, conv, kept, out)
    {
      assert s.vms[..i + 1][..i] == s.vms[..i];
      var vm := s.vms[i];
      if vm.name in byName {
        var vmi := byName[vm.name];
        var pods := if vmi.uid in byUid then byUid[vmi.uid] else [];
        assert pods == PodsOf(s.pods, vmi.uid);
        var x := conv(vm, vmi, SelectLauncher(pods, vmi.node));
        assert x == FromVm(s, conv, vm);
        if x.Error? { return Error(x.err); }
        kept, out := kept + [vm], out + [x.value];
      }
    }
    assert s.vms[..|s.vms|] == s.vms;
    r := Ok(out);
  }

  lemma PodsOfMembers(pods: seq<Pod>, uid: Uid, p: Pod)
    ensures p in PodsOf(pods, uid) <==> p in pods && p.createdBy == Some(uid)
  {
    PodsOfCount(pods, uid, p);
    assert p in PodsOf(pods, uid) <==> multiset(PodsOf(pods, uid))[p] > 0;
    assert p in pods <==> multiset(pods)[p] > 0;
  }

  /** What the conversion of a VM gets: its instance, and a launcher pod that carries the instance's UID,
      on the instance's node if one of them is; none only if no pod carries it. */
  lemma LauncherBelongs<C>(s: Cache, conv: Convert<C>, vm: VmObj) returns (p: Option<Pod>)
    requires VmiNamed(s.vmis, vm.name).Some?
    ensures var vmi := VmiNamed(s.vmis, vm.name).value;
            && FromVm(s, conv, vm) == conv(vm, vmi, p)
            && (p.Some? ==> p.value in s.pods && p.value.createdBy == Some(vmi.uid))
            && (p.Some? && p.value.node != vmi.node ==>
                  forall x :: x in s.pods && x.createdBy == Some(vmi.uid) ==> x.node != vmi.node)
            && (p.None? ==> forall x :: x in s.pods ==> x.createdBy != Some(vmi.uid))
  {
    var vmi := VmiNamed(s.vmis, vm.name).value;
    var own := PodsOf(s.pods, vmi.uid);
    p := SelectLauncher(own, vmi.node);
    forall x ensures x in own <==> x in s.pods && x.createdBy == Some(vmi.uid) {
      PodsOfMembers(s.pods, vmi.uid, x);
    }
  }

  // ---------- two snapshots in different orders ----------

  /** The same objects, listed in any other order. */
  ghost predicate Reordered(s: Cache, s': Cache) {
    && multiset(s.vms) == multiset(s'.vms)
    && multiset(s.vmis) == multiset(s'.vmis)
    && multiset(s.pods) == multiset(s'.pods)
  }

  predicate OnlyOn(pods: seq<Pod>, node: string, i: int) {
    0 <= i < |pods| && pods[i].node == node && forall j :: 0 <= j < |pods| && pods[j].node == node ==> j == i
  }

  /** At most one pod, or exactly one on the node. */
  ghost predicate Certain(pods: seq<Pod>, node: string) {
    |pods| <= 1 || exists i :: OnlyOn(pods, node, i)
  }

  lemma CertainAgrees(pods: seq<Pod>, pods': seq<Pod>, node: string)
    requires multiset(pods) == multiset(pods') && Certain(pods, node)
    ensures SelectLauncher(pods, node) == SelectLauncher(pods', node)
  {
    assert |pods| == |multiset(pods)| == |multiset(pods')| == |pods'|;
    assert forall p :: p in pods <==> p in multiset(pods);
    assert forall p :: p in pods' <==> p in multiset(pods');
    if |pods| == 1 {
      assert pods[0] in multiset(pods) && pods'[0] in multiset(pods');
    } else if |pods| > 1 {
      var i :| OnlyOn(pods, node, i);
      assert pods[i] in pods && pods[i] in pods';
      assert forall p :: p in pods && p.node == node ==> p == pods[i];
    }
  }

  function Promoted(pods: seq<Pod>, j: nat): (r: seq<Pod>)
    requires j < |pods|
    ensures multiset(r) == multiset(pods) && r[0] == pods[j]
  {
    assert pods == pods[..j] + [pods[j]] + pods[j + 1..];
    [pods[j]] + pods[..j] + pods[j + 1..]
  }

  lemma PromotedIsSelected(pods: seq<Pod>, node: string, j: nat)
    requires j < |pods| && (pods[j].node == node || FirstOn(pods, node) == |pods|)
    ensures SelectLauncher(Promoted(pods, j), node) == Some(pods[j])
  {
    var r := Promoted(pods, j);
    if pods[j].node != node {
      forall h | 0 <= h < |r| ensures r[h].node != node {
        assert r[h] in multiset(r) && r[h] in multiset(pods) && r[h] in pods;
      }
    }
  }

  lemma UncertainDiffers(pods: seq<Pod>, node: string) returns (j: nat)
    requires NoDup(pods) && !Certain(pods, node)
    ensures j < |pods| && SelectLauncher(Promoted(pods, j), node) != SelectLauncher(pods, node)
  {
    var i := FirstOn(pods, node);
    if i < |pods| {
      assert !OnlyOn(pods, node, i);
      j :| 0 <= j < |pods| && pods[j].node == node && j != i;
      assert pods[j] != pods[i];
    } else {
      j := 1;
    }
    PromotedIsSelected(pods, node, j);
  }

  /** The launcher does not depend on the order of the pods exactly when it is certain. */
  lemma LauncherCertainIff(pods: seq<Pod>, node: string)
    requires NoDup(pods)
    ensures Certain(pods, node) <==>
            forall other :: multiset(other) == multiset(pods) ==>
              SelectLauncher(other, node) == SelectLauncher(pods, node)
  {
    if Certain(pods, node) {
      forall other | multiset(other) == multiset(pods)
        ensures SelectLauncher(other, node) == SelectLauncher(pods, node)
      {
        CertainAgrees(pods, other, node);
      }
    } else {
      var j := UncertainDiffers(pods, node);
    }
  }

  lemma {:induction false} PodsOfCount(pods: seq<Pod>, uid: Uid, p: Pod)
    ensures multiset(PodsOf(pods, uid))[p] == if p.createdBy == Some(uid) then multiset(pods)[p] else 0
  {
    if pods != [] {
      var init := pods[..|pods| - 1];
      PodsOfCount(init, uid, p);
      assert pods == init + [pods[|pods| - 1]];
    }
  }

  lemma PodsOfReordered(pods: seq<Pod>, pods': seq<Pod>, uid: Uid)
    requires multiset(pods) == multiset(pods')
    ensures multiset(PodsOf(pods, uid)) == multiset(PodsOf(pods', uid))
  {
    forall p ensures multiset(PodsOf(pods, uid))[p] == multiset(PodsOf(pods', uid))[p] {
      PodsOfCount(pods, uid, p);
      PodsOfCount(pods', uid, p);
    }
  }

  lemma VmiNamedReordered(s: Cache, s': Cache, name: string)
    requires Valid(s) && Valid(s') && Reordered(s, s')
    ensures VmiNamed(s.vmis, name) == VmiNamed(s'.vmis, name)
  {
    VmiNamedAbsent(s.vmis, name);
    VmiNamedAbsent(s'.vmis, name);
    assert forall v :: v in s.vmis <==> v in multiset(s.vmis);
    assert forall v :: v in s'.vmis <==> v in multiset(s'.vmis);
    if i :| 0 <= i < |s.vmis| && s.vmis[i].name == name {
      VmiNamedIs(s.vmis, i);
      assert s.vmis[i] in s.vmis && s.vmis[i] in s'.vmis;
      var j :| 0 <= j < |s'.vmis| && s'.vmis[j] == s.vmis[i];
      VmiNamedIs(s'.vmis, j);
    } else {
      forall j | 0 <= j < |s'.vmis| ensures s'.vmis[j].name != name {
        assert s'.vmis[j] in s'.vmis && s'.vmis[j] in s.vmis;
      }
    }
  }

  /** The launcher pod of a VM is certain. */
  ghost predicate CertainVm(s: Cache, vm: VmObj) {
    var vmi := VmiNamed(s.vmis, vm.name);
    vmi.Some? ==> Certain(PodsOf(s.pods, vmi.value.uid), vmi.value.node)
  }

  lemma FromVmReordered<C>(s: Cache, s': Cache, conv: Convert<C>, vm: VmObj)
    requires Valid(s) && Valid(s') && Reordered(s, s') && CertainVm(s, vm)
    ensures FromVm(s, conv, vm) == FromVm(s', conv, vm)
  {
    VmiNamedReordered(s, s', vm.name);
    var vmi := VmiNamed(s.vmis, vm.name);
    if vmi.Some? {
      PodsOfReordered(s.pods, s'.pods, vmi.value.uid);
      CertainAgrees(PodsOf(s.pods, vmi.value.uid), PodsOf(s'.pods, vmi.value.uid), vmi.value.node);
    }
  }

  /** ListComputeResources refines GetComputeResource: what the latter returns for a listed VM's UID,
      from listings in any other order, is that VM's entry, if its launcher pod is certain. */
  lemma ListRefinesGet<C(!new)>(s: Cache, s': Cache, conv: Convert<C>, listed: seq<C>, i: nat, got: Result<C>)
    requires Valid(s) && Valid(s') && Reordered(s, s')
    requires Converted(s, conv, Running(s, s.vms), listed) && i < |listed|
    requires CertainVm(s, Running(s, s.vms)[i]) && Gets(s', conv, Running(s, s.vms)[i].uid, got)
    ensures got == Ok(listed[i])
  {
    var vm := Running(s, s.vms)[i];
    RunningAreVms(s, s.vms, i);
    assert vm in multiset(s.vms) && vm in s'.vms;
    FromVmReordered(s, s', conv, vm);
  }

  lemma {:induction false} RunningAreVms(s: Cache, vms: seq<VmObj>, i: nat)
    requires i < |Running(s, vms)|
    ensures Running(s, vms)[i] in vms && VmiNamed(s.vmis, Running(s, vms)[i].name).Some?
  {
    var init := vms[..|vms| - 1];
    if i < |Running(s, init)| { RunningAreVms(s, init, i); }
  }

  lemma {:induction false} DroppedHaveNoVmi(s: Cache, vms: seq<VmObj>, vm: VmObj)
    requires vm in vms
    ensures vm in Running(s, vms) <==> VmiNamed(s.vmis, vm.name).Some?
  {
    var init, last := vms[..|vms| - 1], vms[|vms| - 1];
    if vm in init {
      DroppedHaveNoVmi(s, init, vm);
    } else {
      assert vm == last;
      if VmiNamed(s.vmis, vm.name).None? && vm in Running(s, init) {
        var i :| 0 <= i < |Running(s, init)| && Running(s, init)[i] == vm;
        RunningAreVms(s, init, i);
      }
    }
  }
}
