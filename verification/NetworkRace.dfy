/** CreateSubnet against DeleteNetwork, run by any number of concurrent callers.

    CreateSubnet reads a network and later creates a subnet that names it; DeleteNetwork reads a
    network with its listing, deletes the listed subnets one by one and the network last, by name. No
    caller takes a lock. Each write is one atomic step, any call may fail, and a caller may stop at any
    point. The reads of one operation are one step that may return any network that ever existed and
    any listing at all, which covers stale caches and reads made one after the other; the search by UID
    before each subnet's deletion by name is left out, which only allows more. The NADs, which no
    reference goes through, are left to `SubnetToken`.
 */
module NetworkRace {
  import opened Kube
  import opened NetworkLabels
  import opened Networks

  /** Where a caller stands: between reading a network and writing the subnet that names it, or
      between reading a network and deleting it, with the listed subnets that are still to go. */
  datatype Pc =
    | Idle
    | Attaching(k: Key, net: Uid)
    | Removing(k: Key, rest: seq<string>)

  /** `history` has every network that ever existed, with its UID. */
  datatype State = State(objs: Objects, used: set<Uid>, history: set<(Key, Uid)>, pcs: map<nat, Pc>)

  datatype Step =
    | MakeNetwork(t: nat, k: Key, o: Obj)
    | ReadForCreate(t: nat, k: Key, net: Uid)
    | CreateSubnet(t: nat, n: string, o: Obj)
    | ReadForDelete(t: nat, k: Key, net: Uid, seen: seq<string>)
    | DropListed(t: nat)
    | DropNetwork(t: nat)
    | DropSubnet(t: nat, n: string)
    | GiveUp(t: nat)

  /** The subnet names this network and carries this UID, as CreateSubnet writes it. */
  predicate AttachedTo(o: Obj, k: Key, net: Uid) {
    && Managed(o) && o.spec.SubnetSpec? && NetworkId in o.labels && o.labels[NetworkId] == net
    && Label(o.labels, NetworkName) == k.name && Label(o.labels, NetworkType) == TypeLabel(k.kind)
    && o.spec.vpc == (if k.kind == Vpc then k.name else "") && o.spec.vlan == (if k.kind == Vlan then k.name else "")
  }

  /** One step of one caller. A failed call ends the caller: `GiveUp`. */
  predicate NextStep(s: State, s': State, step: Step) {
    step.t in s.pcs &&
    var t, pc := step.t, s.pcs[step.t];
    match step
    case MakeNetwork(_, k, o) =>
      && pc.Idle? && IsNetworkKey(k) && k.name != "" && k !in s.objs && o.uid !in s.used && Managed(o)
      && s' == s.(objs := s.objs[k := o], used := s.used + {o.uid}, history := s.history + {(k, o.uid)})
    case ReadForCreate(_, k, net) =>
      && pc.Idle? && (k, net) in s.history
      && s' == s.(pcs := s.pcs[t := Attaching(k, net)])
    case CreateSubnet(_, n, o) =>
      && pc.Attaching? && SubnetKey(n) !in s.objs && o.uid !in s.used && AttachedTo(o, pc.k, pc.net)
      && s' == s.(objs := s.objs[SubnetKey(n) := o], used := s.used + {o.uid}, pcs := s.pcs[t := Idle])
    case ReadForDelete(_, k, net, seen) =>
      && pc.Idle? && (k, net) in s.history
      && s' == s.(pcs := s.pcs[t := Removing(k, seen)])
    case DropListed(_) =>
      && pc.Removing? && pc.rest != [] && SubnetKey(pc.rest[0]) in s.objs
      && s' == s.(objs := s.objs - {SubnetKey(pc.rest[0])}, pcs := s.pcs[t := Removing(pc.k, pc.rest[1..])])
    case DropNetwork(_) =>
      && pc.Removing? && pc.rest == [] && pc.k in s.objs
      && s' == s.(objs := s.objs - {pc.k}, pcs := s.pcs[t := Idle])
    case DropSubnet(_, n) =>
      pc.Idle? && SubnetKey(n) in s.objs && s' == s.(objs := s.objs - {SubnetKey(n)})
    case GiveUp(_) => s' == s.(pcs := s.pcs[t := Idle])
  }

  ghost predicate Init(s: State) {
    RefInv(s.objs) && HistoryOk(s.history) && forall t :: t in s.pcs ==> s.pcs[t].Idle?
  }

  ghost predicate HistoryOk(history: set<(Key, Uid)>) {
    forall h :: h in history ==> IsNetworkKey(h.0) && h.0.name != ""
  }

  ghost predicate IsRun(run: seq<State>, steps: seq<Step>) {
    && |run| == |steps| + 1
    && Init(run[0])
    && forall i :: 0 <= i < |steps| ==> NextStep(run[i], run[i + 1], steps[i])
  }

  // ---------- which steps keep the references ----------

  predicate SubnetOn(objs: Objects, n: string, k: Key) {
    Visible(objs, SubnetKey(n)) && Refers(objs[SubnetKey(n)], k)
  }

  /** A subnet is written while the very network that was read is still there, and a network goes
      when no managed subnet is on it. */
  ghost predicate Safe(s: State, step: Step) {
    step.t in s.pcs ==>
      var pc := s.pcs[step.t];
      && (step.CreateSubnet? && pc.Attaching? ==> Visible(s.objs, pc.k) && s.objs[pc.k].uid == pc.net)
      && (step.DropNetwork? && pc.Removing? ==> forall n :: !SubnetOn(s.objs, n, pc.k))
  }

  /** A caller works on a network of one of the two kinds. */
  predicate PcOk(pc: Pc) {
    pc.Idle? || (IsNetworkKey(pc.k) && pc.k.name != "")
  }

  lemma WrittenRefOk(objs: Objects, n: string, o: Obj, k: Key, net: Uid)
    requires IsNetworkKey(k) && k.name != "" && AttachedTo(o, k, net)
    ensures RefOk(objs[SubnetKey(n) := o], n) <==> Visible(objs, k) && objs[k].uid == net
  {
  }

  /** Exactly the safe steps keep all references good. */
  lemma StepKeepsRefsIff(s: State, s': State, step: Step)
    requires RefInv(s.objs) && NextStep(s, s', step) && PcOk(s.pcs[step.t])
    ensures RefInv(s'.objs) <==> Safe(s, step)
  {
    var pc := s.pcs[step.t];
    match step
    case CreateSubnet(_, n, o) =>
      WrittenRefOk(s.objs, n, o, pc.k, pc.net);
      forall m | m != n ensures RefOk(s'.objs, m) { assert RefOk(s.objs, m); }
    case DropNetwork(_) =>
      forall n ensures RefOk(s'.objs, n) <==> !SubnetOn(s.objs, n, pc.k) {
        NetworkDropKeepsRef(s.objs, {pc.k}, pc.k, n);
      }
    case MakeNetwork(_, _, _) =>
      forall n ensures RefOk(s'.objs, n) { assert RefOk(s.objs, n); }
    case DropListed(_) => DropKeepsRefs(s.objs, {SubnetKey(pc.rest[0])});
    case DropSubnet(_, n) => DropKeepsRefs(s.objs, {SubnetKey(n)});
    case _ =>
  }

  lemma {:induction false} PcsOk(run: seq<State>, steps: seq<Step>, i: nat, t: nat)
    requires IsRun(run, steps) && i < |run|
    ensures HistoryOk(run[i].history) && (t in run[i].pcs ==> PcOk(run[i].pcs[t]))
  {
    if i > 0 {
      assert NextStep(run[i - 1], run[i], steps[i - 1]);
      PcsOk(run, steps, i - 1, t);
    }
  }

  ghost predicate GoodUpTo(run: seq<State>, i: nat)
    requires i < |run|
  {
    forall j :: 0 <= j <= i ==> RefInv(run[j].objs)
  }

  ghost predicate SafeBefore(run: seq<State>, steps: seq<Step>, i: nat)
    requires |steps| + 1 == |run| && i < |run|
  {
    forall j :: 0 <= j < i ==> Safe(run[j], steps[j])
  }

  lemma OneMore(run: seq<State>, steps: seq<Step>, i: nat)
    requires |steps| + 1 == |run| && 0 < i < |run|
    ensures GoodUpTo(run, i) <==> GoodUpTo(run, i - 1) && RefInv(run[i].objs)
    ensures SafeBefore(run, steps, i) <==> SafeBefore(run, steps, i - 1) && Safe(run[i - 1], steps[i - 1])
  {
  }

  /** So up to any point of any run, the references have been good throughout exactly when every step
      was safe. */
  lemma {:induction false} RunKeepsRefsIff(run: seq<State>, steps: seq<Step>, i: nat)
    requires IsRun(run, steps) && i < |run|
    ensures GoodUpTo(run, i) <==> SafeBefore(run, steps, i)
  {
    if i > 0 {
      RunKeepsRefsIff(run, steps, i - 1);
      OneMore(run, steps, i);
      if RefInv(run[i - 1].objs) { LastStep(run, steps, i); }
    }
  }

  lemma LastStep(run: seq<State>, steps: seq<Step>, i: nat)
    requires IsRun(run, steps) && 0 < i < |run| && RefInv(run[i - 1].objs)
    ensures RefInv(run[i].objs) <==> Safe(run[i - 1], steps[i - 1])
  {
    PcsOk(run, steps, i - 1, steps[i - 1].t);
    StepKeepsRefsIff(run[i - 1], run[i], steps[i - 1]);
  }

  // ---------- what callers would have to do ----------

  /** While a caller removes a network, no other caller works on it. */
  ghost predicate Exclusive(s: State) {
    forall t, u :: t in s.pcs && u in s.pcs && t != u && s.pcs[t].Removing? && !s.pcs[u].Idle? ==>
      s.pcs[t].k != s.pcs[u].k
  }

  /** A read returns a network that is there, and a deletion's a listing that has all its managed
      subnets. */
  ghost predicate FreshRead(s: State, step: Step) {
    && (step.ReadForCreate? ==> Visible(s.objs, step.k) && s.objs[step.k].uid == step.net)
    && (step.ReadForDelete? ==> Visible(s.objs, step.k) && forall n :: SubnetOn(s.objs, n, step.k) ==> n in step.seen)
  }

  /** What a caller read still holds: the network is there, and no subnet has been missed. */
  ghost predicate StillGood(s: State, pc: Pc) {
    && PcOk(pc)
    && (pc.Attaching? ==> Visible(s.objs, pc.k) && s.objs[pc.k].uid == pc.net)
    && (pc.Removing? ==> Visible(s.objs, pc.k) && forall n :: SubnetOn(s.objs, n, pc.k) ==> n in pc.rest)
  }

  ghost predicate Inv(s: State) {
    RefInv(s.objs) && HistoryOk(s.history) && forall t :: t in s.pcs ==> StillGood(s, s.pcs[t])
  }

  lemma InvIsSafe(s: State, s': State, step: Step)
    requires Inv(s) && NextStep(s, s', step)
    ensures Safe(s, step)
  {
    assert StillGood(s, s.pcs[step.t]);
  }

  lemma OwnStep(s: State, s': State, step: Step)
    requires Inv(s) && NextStep(s, s', step) && FreshRead(s, step)
    ensures StillGood(s', s'.pcs[step.t])
  {
    var pc := s.pcs[step.t];
    assert StillGood(s, pc);
    if step.DropListed? {
      forall n | SubnetOn(s'.objs, n, pc.k) ensures n in pc.rest[1..] {
        assert SubnetOn(s.objs, n, pc.k) && n != pc.rest[0];
      }
    }
  }

  /** Only writing a subnet onto the network, or deleting the network, can spoil what another read. */
  lemma OtherStep(s: State, s': State, step: Step, u: nat)
    requires Inv(s) && NextStep(s, s', step) && Exclusive(s) && u in s.pcs && u != step.t
    ensures StillGood(s', s'.pcs[u])
  {
    var pc, own := s.pcs[u], s.pcs[step.t];
    assert StillGood(s, pc) && StillGood(s, own);
    if pc.Removing? {
      forall n | SubnetOn(s'.objs, n, pc.k) ensures n in pc.rest {
        assert SubnetOn(s.objs, n, pc.k);
      }
    }
  }

  lemma InvStep(s: State, s': State, step: Step)
    requires Inv(s) && NextStep(s, s', step) && Exclusive(s) && FreshRead(s, step)
    ensures Inv(s')
  {
    InvIsSafe(s, s', step);
    assert StillGood(s, s.pcs[step.t]);
    StepKeepsRefsIff(s, s', step);
    OwnStep(s, s', step);
    forall u | u in s'.pcs ensures StillGood(s', s'.pcs[u]) {
      if u != step.t { OtherStep(s, s', step, u); }
    }
  }

  /** In every run in which reads are fresh and deletions exclude the other callers of their network,
      every managed subnet names an existing network and carries its UID, at every step. */
  lemma {:induction false} ExclusiveRunKeepsRefs(run: seq<State>, steps: seq<Step>, i: nat)
    requires IsRun(run, steps) && i < |run|
    requires forall j :: 0 <= j < i ==> Exclusive(run[j]) && FreshRead(run[j], steps[j])
    ensures Inv(run[i])
  {
    if i > 0 {
      ExclusiveRunKeepsRefs(run, steps, i - 1);
      InvStep(run[i - 1], run[i], steps[i - 1]);
    }
  }

  // ---------- what happens without ----------

  /** Two idle callers and one network. */
  function Alone(k: Key, net: Obj): State {
    State(map[k := net], {net.uid}, {(k, net.uid)}, map[0 := Idle, 1 := Idle])
  }

  /** The network is gone, and a subnet that names it is written. */
  function Dangling(s: State, n: string, o: Obj): State {
    s.(objs := map[SubnetKey(n) := o], used := s.used + {o.uid}, pcs := map[0 := Idle, 1 := Idle])
  }

  lemma NetworkAlone(k: Key, net: Obj)
    requires IsNetworkKey(k)
    ensures RefInv(map[k := net]) && RefInv(map[]) && forall n :: !SubnetOn(map[k := net], n, k)
    ensures map[k := net] - {k} == map[]
  {
  }

  /** The race: one caller reads the network to create a subnet; another reads it, with a complete
      listing, and deletes it; then the first writes its subnet. Every call succeeds and every read is
      fresh, and the subnet names a network that is gone. */
  lemma RaceBreaksRefs(k: Key, net: Obj, n: string, o: Obj)
    requires IsNetworkKey(k) && k.name != "" && Managed(net) && AttachedTo(o, k, net.uid) && o.uid != net.uid
    ensures var s0 := Alone(k, net);
            var s1 := s0.(pcs := s0.pcs[0 := Attaching(k, net.uid)]);
            var s2 := s1.(pcs := s1.pcs[1 := Removing(k, [])]);
            var s3 := s2.(objs := map[], pcs := s2.pcs[1 := Idle]);
            var s4 := Dangling(s3, n, o);
            var steps := [ReadForCreate(0, k, net.uid), ReadForDelete(1, k, net.uid, []), DropNetwork(1),
                          CreateSubnet(0, n, o)];
            && IsRun([s0, s1, s2, s3, s4], steps)
            && FreshRead(s0, steps[0]) && FreshRead(s1, steps[1])
            && RefInv(s3.objs) && !Safe(s3, steps[3]) && !RefInv(s4.objs)
  {
    NetworkAlone(k, net);
    WrittenRefOk(map[], n, o, k, net.uid);
  }

  /** Exclusion alone would not do: here the deletion is over when the other caller begins, but its
      cache still has the network. */
  lemma StaleReadBreaksRefs(k: Key, net: Obj, n: string, o: Obj)
    requires IsNetworkKey(k) && k.name != "" && Managed(net) && AttachedTo(o, k, net.uid) && o.uid != net.uid
    ensures var s0 := Alone(k, net);
            var s1 := s0.(pcs := s0.pcs[1 := Removing(k, [])]);
            var s2 := s1.(objs := map[], pcs := s1.pcs[1 := Idle]);
            var s3 := s2.(pcs := s2.pcs[0 := Attaching(k, net.uid)]);
            var s4 := Dangling(s3, n, o);
            var steps := [ReadForDelete(1, k, net.uid, []), DropNetwork(1), ReadForCreate(0, k, net.uid),
                          CreateSubnet(0, n, o)];
            && IsRun([s0, s1, s2, s3, s4], steps)
            && Exclusive(s0) && Exclusive(s1) && Exclusive(s2) && Exclusive(s3)
            && FreshRead(s0, steps[0]) && !FreshRead(s2, steps[2])
            && !RefInv(s4.objs)
  {
    NetworkAlone(k, net);
    WrittenRefOk(map[], n, o, k, net.uid);
  }
}
