/** EnsureManagementNetwork run by any number of kube-vim instances at once.

    Each run reads or creates the Vpc, then the Subnet, then the NAD, and patches labels that are
    missing. Every API call is one atomic step and may fail, ending the run. Third parties may edit
    labels that the runs do not require. Nobody deletes the three objects and only runs create them;
    any of them may exist beforehand, with any labels and any spec.
 */
module ManagementNetwork {
  import opened Cidr
  import opened Kube
  import opened NetworkLabels
  import opened Networks

  datatype Config = Config(vpc: string, subnet: string, nad: string, cidr: Prefix, gateway: string)

  // ---------- labels ----------

  /** MergeLabels: required wins; changed exactly if that made a difference. */
  method MergeLabels(current: Labels, required: Labels) returns (changed: bool, merged: Labels)
    ensures merged == current + required
    ensures changed <==> merged != current
  {
    merged, changed := current, false;
    var rest := required.Keys;
    MergeStart(current, required);
    while rest != {}
      invariant Merging(current, required, rest, changed, merged)
      decreases |rest|
    {
      var k :| k in rest;
      MergeStep(current, required, rest, changed, merged, k);
      if k !in merged || merged[k] != required[k] {
        merged, changed := merged[k := required[k]], true;
      }
      rest := rest - {k};
    }
    MergeEnd(current, required, changed, merged);
  }

  /** The required labels that are merged already. */
  function Handled(required: Labels, rest: set<LabelKey>): Labels {
    map k | k in required && k !in rest :: required[k]
  }

  ghost predicate Merging(current: Labels, required: Labels, rest: set<LabelKey>, changed: bool, merged: Labels) {
    && rest <= required.Keys
    && merged == current + Handled(required, rest)
    && (changed <==> !Has(current, Handled(required, rest)))
  }

  lemma MergeStart(current: Labels, required: Labels)
    ensures Merging(current, required, required.Keys, false, current)
  {
    assert Handled(required, required.Keys) == map[];
  }

  lemma MergeStep(current: Labels, required: Labels, rest: set<LabelKey>, changed: bool, merged: Labels, k: LabelKey)
    requires Merging(current, required, rest, changed, merged) && k in rest
    ensures var differs := k !in merged || merged[k] != required[k];
            Merging(current, required, rest - {k}, changed || differs,
                    if differs then merged[k := required[k]] else merged)
  {
    assert Handled(required, rest - {k}) == Handled(required, rest)[k := required[k]];
    MergeOne(current, Handled(required, rest), k, required[k]);
  }

  lemma MergeEnd(current: Labels, required: Labels, changed: bool, merged: Labels)
    requires Merging(current, required, {}, changed, merged)
    ensures merged == current + required && (changed <==> merged != current)
  {
    assert Handled(required, {}) == required;
    NothingMissing(current, required);
  }

  lemma MergeOne(current: Labels, done: Labels, k: LabelKey, v: string)
    requires k !in done
    ensures (current + done)[k := v] == current + done[k := v]
    ensures Has(current, done[k := v]) <==> Has(current, done) && k in current && current[k] == v
    ensures k in current + done && (current + done)[k] == v <==> k in current && current[k] == v
    ensures k in current && current[k] == v ==> current + done == current + done[k := v]
  {
    assert forall j :: j in done[k := v] <==> j in done || j == k;
  }

  /** Nothing is missing exactly when the merge changes nothing. */
  lemma NothingMissing(current: Labels, required: Labels)
    ensures Has(current, required) <==> Missing(current, required) == map[]
    ensures Has(current, required) <==> current + required == current
  {
    if Has(current, required) {
      assert current + required == current;
    } else {
      var k :| k in required && (k !in current || current[k] != required[k]);
      assert k in Missing(current, required);
      assert (current + required)[k] == required[k];
    }
  }

  /** The keys a merge patch from `seen` to `seen + required` carries. */
  function Missing(seen: Labels, required: Labels): Labels {
    map k | k in required && (k !in seen || seen[k] != required[k]) :: required[k]
  }

  predicate Has(labels: Labels, required: Labels) {
    forall k :: k in required ==> k in labels && labels[k] == required[k]
  }

  function MgmtVpcLabels(): Labels {
    map[ManagedBy := KUBE_NFV]
  }

  function MgmtSubnetLabels(cfg: Config, vpcUid: Uid): Labels {
    map[ManagedBy := KUBE_NFV, SubnetName := cfg.subnet, SubnetNetAttach := cfg.nad,
        NetworkName := cfg.vpc, NetworkType := OVERLAY] +
    if vpcUid != "" then map[NetworkId := vpcUid] else map[]
  }

  function MgmtNadLabels(cfg: Config): Labels {
    map[ManagedBy := KUBE_NFV, SubnetName := cfg.subnet]
  }

  // ---------- the runs ----------

  datatype Stage = VpcStage | SubnetStage | NadStage

  /** Where a run stands. `vpcUid` is what it learnt in the first stage. */
  datatype Pc =
    | Reading(stage: Stage, vpcUid: Uid)
    | Patching(stage: Stage, vpcUid: Uid, seen: Labels)
    | Creating(stage: Stage, vpcUid: Uid)
    | Rereading
    | Done(vpcUid: Uid)
    | Failed

  datatype State = State(objs: map<Stage, Obj>, used: set<Uid>, pcs: map<nat, Pc>)

  datatype Step =
    | Run(t: nat)
    | Create(t: nat, uid: Uid)
    | Fail(t: nat)
    | EditLabels(stage: Stage, labels: Labels)

  /** The labels a run requires of the object of a stage, knowing the Vpc's UID. */
  function Required(cfg: Config, stage: Stage, vpcUid: Uid): Labels {
    match stage
    case VpcStage => MgmtVpcLabels()
    case SubnetStage => MgmtSubnetLabels(cfg, vpcUid)
    case NadStage => MgmtNadLabels(cfg)
  }

  function SpecFor(cfg: Config, stage: Stage): Spec {
    match stage
    case VpcStage => VpcSpec
    case SubnetStage => SubnetSpec("IPv4", true, cfg.cidr, cfg.gateway, cfg.vpc, "")
    case NadStage => NadSpec(cfg.nad)
  }

  /** On to the next stage; the first one hands over the Vpc's UID. */
  function After(stage: Stage, vpcUid: Uid, o: Obj): Pc {
    match stage
    case VpcStage => Reading(SubnetStage, o.uid)
    case SubnetStage => Reading(NadStage, vpcUid)
    case NadStage => Done(vpcUid)
  }

  /** The next state of a run that takes a step other than a successful create. */
  function Next(cfg: Config, s: State, t: nat): State
    requires t in s.pcs
  {
    var pc := s.pcs[t];
    match pc
    case Reading(stage, u) =>
      if stage !in s.objs then s.(pcs := s.pcs[t := Creating(stage, u)])
      else if Missing(s.objs[stage].labels, Required(cfg, stage, u)) == map[] then
        s.(pcs := s.pcs[t := After(stage, u, s.objs[stage])])
      else s.(pcs := s.pcs[t := Patching(stage, u, s.objs[stage].labels)])
    case Patching(stage, u, seen) =>
      if stage !in s.objs then s.(pcs := s.pcs[t := Failed])
      else
        var o := Patched(s.objs[stage], Missing(seen, Required(cfg, stage, u)));
        s.(objs := s.objs[stage := o], pcs := s.pcs[t := After(stage, u, o)])
    case Creating(stage, u) =>
      if stage !in s.objs then s
      else if stage == VpcStage then s.(pcs := s.pcs[t := Rereading])
      else s.(pcs := s.pcs[t := After(stage, u, s.objs[stage])])
    case Rereading =>
      if VpcStage !in s.objs then s.(pcs := s.pcs[t := Failed])
      else s.(pcs := s.pcs[t := After(VpcStage, "", s.objs[VpcStage])])
    case _ => s
  }

  /** Labels that no run ever requires of the object. */
  predicate Unrelated(cfg: Config, stage: Stage, k: LabelKey) {
    k !in Required(cfg, stage, "x")
  }

  ghost predicate NextStep(cfg: Config, s: State, s': State, step: Step) {
    match step
    case Run(t) => t in s.pcs && s' == Next(cfg, s, t)
    case Create(t, uid) =>
      t in s.pcs && s.pcs[t].Creating? && s.pcs[t].stage !in s.objs && uid != "" && uid !in s.used &&
      var pc := s.pcs[t];
      var o := Obj(uid, Required(cfg, pc.stage, pc.vpcUid), map[], SpecFor(cfg, pc.stage));
      s' == State(s.objs[pc.stage := o], s.used + {uid}, s.pcs[t := After(pc.stage, pc.vpcUid, o)])
    case Fail(t) => t in s.pcs && !s.pcs[t].Done? && s' == s.(pcs := s.pcs[t := Failed])
    case EditLabels(stage, labels) =>
      && stage in s.objs
      && s' == s.(objs := s.objs[stage := s.objs[stage].(labels := labels)])
      && forall k :: !Unrelated(cfg, stage, k) ==>
           (k in labels <==> k in s.objs[stage].labels) && (k in labels ==> labels[k] == s.objs[stage].labels[k])
  }

  ghost predicate Init(s: State) {
    && (forall t :: t in s.pcs ==> s.pcs[t] == Reading(VpcStage, ""))
    && forall stage :: stage in s.objs ==> s.objs[stage].uid != ""
  }

  ghost predicate IsRun(cfg: Config, run: seq<State>, steps: seq<Step>) {
    && |run| == |steps| + 1
    && Init(run[0])
    && forall i :: 0 <= i < |steps| ==> NextStep(cfg, run[i], run[i + 1], steps[i])
  }

  // ---------- the invariant ----------

  /** The object of the stage is there with the labels that go with this Vpc UID. */
  predicate Labelled(cfg: Config, s: State, stage: Stage, vpcUid: Uid) {
    stage in s.objs && Has(s.objs[stage].labels, Required(cfg, stage, vpcUid))
  }

  predicate VpcIs(cfg: Config, s: State, vpcUid: Uid) {
    Labelled(cfg, s, VpcStage, "") && s.objs[VpcStage].uid == vpcUid && vpcUid != ""
  }

  /** What a run has established before the given stage. */
  predicate Before(cfg: Config, s: State, stage: Stage, u: Uid) {
    && (stage != VpcStage ==> VpcIs(cfg, s, u))
    && (stage == NadStage ==> Labelled(cfg, s, SubnetStage, u))
  }

  /** A required label seen with the right value still has it. */
  predicate StillThere(seen: Labels, now: Labels, required: Labels) {
    forall k :: k in required && k in seen && seen[k] == required[k] ==> k in now && now[k] == required[k]
  }

  predicate PcInv(cfg: Config, s: State, pc: Pc) {
    match pc
    case Reading(stage, u) => Before(cfg, s, stage, u)
    case Patching(stage, u, seen) =>
      && Before(cfg, s, stage, u) && stage in s.objs
      && StillThere(seen, s.objs[stage].labels, Required(cfg, stage, u))
    case Creating(stage, u) => Before(cfg, s, stage, u) && (stage in s.objs ==> Labelled(cfg, s, stage, u))
    case Rereading => Labelled(cfg, s, VpcStage, "")
    case Done(u) => Before(cfg, s, NadStage, u) && Labelled(cfg, s, NadStage, u)
    case Failed => true
  }

  predicate Inv(cfg: Config, s: State) {
    && (forall t :: t in s.pcs ==> PcInv(cfg, s, s.pcs[t]))
    && forall stage :: stage in s.objs ==> s.objs[stage].uid != ""
  }

  /** `u` is the UID of the Vpc. */
  predicate Agreed(s: State, u: Uid) {
    VpcStage in s.objs && u == s.objs[VpcStage].uid
  }

  /** What every step leaves alone: no object goes, no UID and no spec changes, a required label with
      the right value keeps it, and a new object comes with all its labels. */
  ghost predicate Grows(cfg: Config, s: State, s': State) {
    && (forall stage :: stage in s.objs ==>
          && stage in s'.objs && s'.objs[stage].uid == s.objs[stage].uid && s'.objs[stage].spec == s.objs[stage].spec)
    && (forall stage, u :: stage in s.objs && (stage == SubnetStage ==> Agreed(s, u)) ==>
          StillThere(s.objs[stage].labels, s'.objs[stage].labels, Required(cfg, stage, u)))
    && (forall stage, u :: stage in s'.objs && stage !in s.objs && (stage == SubnetStage ==> Agreed(s', u)) ==>
          Labelled(cfg, s', stage, u))
  }

  /** A patch writes required values only. */
  lemma PatchKeeps(labels: Labels, seen: Labels, required: Labels)
    ensures StillThere(labels, labels + Missing(seen, required), required)
    ensures StillThere(seen, labels, required) ==> Has(labels + Missing(seen, required), required)
  {
  }

  lemma PatchGrows(cfg: Config, s: State, s': State, t: nat)
    requires Inv(cfg, s) && t in s.pcs && s.pcs[t].Patching? && s' == Next(cfg, s, t)
    ensures Grows(cfg, s, s')
  {
    var pc := s.pcs[t];
    assert PcInv(cfg, s, pc);
    PatchKeeps(s.objs[pc.stage].labels, pc.seen, Required(cfg, pc.stage, pc.vpcUid));
  }

  lemma CreateGrows(cfg: Config, s: State, s': State, step: Step)
    requires Inv(cfg, s) && step.Create? && NextStep(cfg, s, s', step)
    ensures Grows(cfg, s, s')
  {
    assert PcInv(cfg, s, s.pcs[step.t]);
  }

  lemma EditGrows(cfg: Config, s: State, s': State, step: Step)
    requires step.EditLabels? && NextStep(cfg, s, s', step)
    ensures Grows(cfg, s, s')
  {
    forall u, k | k in Required(cfg, step.stage, u) ensures !Unrelated(cfg, step.stage, k) {
    }
  }

  lemma StepGrows(cfg: Config, s: State, s': State, step: Step)
    requires Inv(cfg, s) && NextStep(cfg, s, s', step)
    ensures Grows(cfg, s, s')
  {
    match step
    case EditLabels(_, _) => EditGrows(cfg, s, s', step);
    case Create(_, _) => CreateGrows(cfg, s, s', step);
    case Run(t) => if s.pcs[t].Patching? { PatchGrows(cfg, s, s', t); } else { SameGrows(cfg, s, s'); }
    case Fail(_) => SameGrows(cfg, s, s');
  }

  lemma SameGrows(cfg: Config, s: State, s': State)
    requires Inv(cfg, s) && s'.objs == s.objs && s'.used == s.used
    ensures Grows(cfg, s, s')
  {
  }

  /** What one run has established no step of another undoes. */
  lemma OthersKeep(cfg: Config, s: State, s': State, pc: Pc)
    requires Grows(cfg, s, s') && PcInv(cfg, s, pc)
    ensures PcInv(cfg, s', pc)
  {
  }

  lemma OwnPatch(cfg: Config, s: State, s': State, t: nat)
    requires t in s.pcs && PcInv(cfg, s, s.pcs[t]) && s.pcs[t].Patching? && s' == Next(cfg, s, t)
    requires forall stage :: stage in s.objs ==> s.objs[stage].uid != ""
    ensures PcInv(cfg, s', s'.pcs[t])
  {
    var pc := s.pcs[t];
    PatchKeeps(s.objs[pc.stage].labels, pc.seen, Required(cfg, pc.stage, pc.vpcUid));
  }

  lemma OwnRun(cfg: Config, s: State, s': State, t: nat)
    requires t in s.pcs && PcInv(cfg, s, s.pcs[t]) && !s.pcs[t].Patching? && s' == Next(cfg, s, t)
    requires forall stage :: stage in s.objs ==> s.objs[stage].uid != ""
    ensures PcInv(cfg, s', s'.pcs[t])
  {
    var pc := s.pcs[t];
    if pc.Reading? && pc.stage in s.objs {
      NothingMissing(s.objs[pc.stage].labels, Required(cfg, pc.stage, pc.vpcUid));
    }
  }

  lemma OwnCreate(cfg: Config, s: State, s': State, step: Step)
    requires step.Create? && NextStep(cfg, s, s', step) && PcInv(cfg, s, s.pcs[step.t])
    ensures PcInv(cfg, s', s'.pcs[step.t])
  {
  }

  lemma OwnStep(cfg: Config, s: State, s': State, step: Step)
    requires Inv(cfg, s) && NextStep(cfg, s, s', step) && !step.EditLabels?
    ensures PcInv(cfg, s', s'.pcs[step.t])
  {
    assert PcInv(cfg, s, s.pcs[step.t]);
    match step
    case Run(t) => if s.pcs[t].Patching? { OwnPatch(cfg, s, s', t); } else { OwnRun(cfg, s, s', t); }
    case Create(_, _) => OwnCreate(cfg, s, s', step);
    case Fail(_) =>
  }

  lemma InvStep(cfg: Config, s: State, s': State, step: Step)
    requires Inv(cfg, s) && NextStep(cfg, s, s', step)
    ensures Inv(cfg, s')
  {
    StepGrows(cfg, s, s', step);
    if !step.EditLabels? { OwnStep(cfg, s, s', step); }
    forall t | t in s'.pcs && (step.EditLabels? || t != step.t) ensures PcInv(cfg, s', s'.pcs[t]) {
      assert PcInv(cfg, s, s.pcs[t]);
      OthersKeep(cfg, s, s', s.pcs[t]);
    }
  }

  lemma {:induction false} InvRun(cfg: Config, run: seq<State>, steps: seq<Step>, i: nat)
    requires IsRun(cfg, run, steps) && i < |run|
    ensures Inv(cfg, run[i])
  {
    if i > 0 {
      InvRun(cfg, run, steps, i - 1);
      InvStep(cfg, run[i - 1], run[i], steps[i - 1]);
    }
  }

  // ---------- what the runs guarantee ----------

  /** The management network is in place: all three objects, all required labels, one Vpc UID. */
  predicate Ready(cfg: Config, s: State, vpcUid: Uid) {
    VpcIs(cfg, s, vpcUid) && Labelled(cfg, s, SubnetStage, vpcUid) && Labelled(cfg, s, NadStage, vpcUid)
  }

  lemma {:induction false} DoneStays(cfg: Config, run: seq<State>, steps: seq<Step>, i: nat, j: nat, t: nat)
    requires IsRun(cfg, run, steps) && i <= j < |run| && t in run[i].pcs && run[i].pcs[t].Done?
    ensures t in run[j].pcs && run[j].pcs[t] == run[i].pcs[t]
    decreases j
  {
    if i < j {
      DoneStays(cfg, run, steps, i, j - 1, t);
      assert NextStep(cfg, run[j - 1], run[j], steps[j - 1]);
    }
  }

  /** A run that returned success leaves the network in place, then and ever after. */
  lemma SuccessMeansReady(cfg: Config, run: seq<State>, steps: seq<Step>, i: nat, j: nat, t: nat)
    requires IsRun(cfg, run, steps) && i <= j < |run| && t in run[i].pcs && run[i].pcs[t].Done?
    ensures Ready(cfg, run[j], run[i].pcs[t].vpcUid)
  {
    DoneStays(cfg, run, steps, i, j, t);
    InvRun(cfg, run, steps, j);
    assert PcInv(cfg, run[j], run[j].pcs[t]);
  }

  /** Any two successful runs agree on the Vpc's UID. */
  lemma RunsAgree(cfg: Config, run: seq<State>, steps: seq<Step>, i: nat, j: nat, t: nat, u: nat)
    requires IsRun(cfg, run, steps) && i < |run| && j < |run|
    requires t in run[i].pcs && run[i].pcs[t].Done? && u in run[j].pcs && run[j].pcs[u].Done?
    ensures run[i].pcs[t].vpcUid == run[j].pcs[u].vpcUid
  {
    var last := |run| - 1;
    SuccessMeansReady(cfg, run, steps, i, last, t);
    SuccessMeansReady(cfg, run, steps, j, last, u);
  }

  lemma StepKeepsSpec(cfg: Config, s: State, s': State, step: Step, stage: Stage)
    requires NextStep(cfg, s, s', step) && stage in s.objs
    ensures stage in s'.objs && s'.objs[stage].spec == s.objs[stage].spec && s'.objs[stage].uid == s.objs[stage].uid
  {
  }

  /** An object that exists keeps its UID and its spec for good, whatever the configuration says. */
  lemma {:induction false} SpecNeverChanges(cfg: Config, run: seq<State>, steps: seq<Step>, i: nat, j: nat,
                                            stage: Stage)
    requires IsRun(cfg, run, steps) && i <= j < |run| && stage in run[i].objs
    ensures stage in run[j].objs
    ensures run[j].objs[stage].spec == run[i].objs[stage].spec && run[j].objs[stage].uid == run[i].objs[stage].uid
    decreases j
  {
    if i < j {
      SpecNeverChanges(cfg, run, steps, i, j - 1, stage);
      StepKeepsSpec(cfg, run[j - 1], run[j], steps[j - 1], stage);
    }
  }

  // ---------- the network that comes of it ----------

  /** What a run creates as the subnet: in the management Vpc, with the configured block and gateway. */
  predicate AsConfigured(cfg: Config, spec: Spec) {
    && spec.SubnetSpec? && spec.protocol == "IPv4" && spec.dhcp
    && spec.vpc == cfg.vpc && spec.vlan == "" && spec.cidr == cfg.cidr && spec.gateway == cfg.gateway
  }

  /** In a run that starts without the subnet, the subnet is as configured whenever it is there. */
  lemma {:induction false} CreatedAsConfigured(cfg: Config, run: seq<State>, steps: seq<Step>, i: nat)
    requires IsRun(cfg, run, steps) && i < |run| && SubnetStage !in run[0].objs
    ensures SubnetStage in run[i].objs ==> AsConfigured(cfg, run[i].objs[SubnetStage].spec)
  {
    if i > 0 {
      CreatedAsConfigured(cfg, run, steps, i - 1);
      NewSubnet(cfg, run[i - 1], run[i], steps[i - 1]);
    }
  }

  lemma NewSubnet(cfg: Config, s: State, s': State, step: Step)
    requires NextStep(cfg, s, s', step)
    ensures SubnetStage in s.objs ==> SubnetStage in s'.objs && s'.objs[SubnetStage].spec == s.objs[SubnetStage].spec
    ensures SubnetStage in s'.objs && SubnetStage !in s.objs ==> AsConfigured(cfg, s'.objs[SubnetStage].spec)
  {
  }

  predicate AllThere(s: State) {
    VpcStage in s.objs && SubnetStage in s.objs && NadStage in s.objs
  }

  /** The three objects as a store of the network manager. */
  function StoreOf(cfg: Config, s: State): Objects
    requires AllThere(s)
  {
    map[Key(Vpc, cfg.vpc) := s.objs[VpcStage], SubnetKey(cfg.subnet) := s.objs[SubnetStage],
        Key(Nad, cfg.nad) := s.objs[NadStage]]
  }

  /** With the required labels the network manager finds the subnet by its NAD and by its name, with the
      Vpc's UID as network id; the subnet's reference is good exactly if its spec puts it into that Vpc
      alone. */
  lemma ReadyIsUsable(cfg: Config, s: State, u: Uid)
    requires cfg.vpc != "" && Ready(cfg, s, u) && s.objs[SubnetStage].spec.SubnetSpec?
    ensures AllThere(s)
    ensures var objs, spec := StoreOf(cfg, s), s.objs[SubnetStage].spec;
            && (forall k :: k in objs ==> Managed(objs[k])) && objs[Key(Vpc, cfg.vpc)].uid == u
            && SubnetByNad(objs, cfg.nad) == SubnetByName(objs, cfg.subnet) == ToSubnet(s.objs[SubnetStage])
            && (ToSubnet(s.objs[SubnetStage]).Ok? ==> ToSubnet(s.objs[SubnetStage]).value.networkId == Some(u))
            && (RefOk(objs, cfg.subnet) <==> spec.vpc == cfg.vpc && spec.vlan == "")
            && (SubnetOk(objs, cfg.subnet) <==>
                ToSubnet(s.objs[SubnetStage]).Ok? && NetworkType !in s.objs[NadStage].labels)
  {
    var objs := StoreOf(cfg, s);
    var vpc, subnet, nad := s.objs[VpcStage], s.objs[SubnetStage], s.objs[NadStage];
    RequiredOfSubnet(cfg, u, subnet.labels);
    RequiredOfNad(cfg, nad.labels);
    assert Managed(vpc) by { assert ManagedBy in MgmtVpcLabels(); }
  }

  lemma RequiredOfSubnet(cfg: Config, u: Uid, labels: Labels)
    requires Has(labels, MgmtSubnetLabels(cfg, u)) && u != ""
    ensures ManagedBy in labels && labels[ManagedBy] == KUBE_NFV
    ensures SubnetName in labels && labels[SubnetName] == cfg.subnet
    ensures SubnetNetAttach in labels && labels[SubnetNetAttach] == cfg.nad
    ensures NetworkName in labels && labels[NetworkName] == cfg.vpc
    ensures NetworkId in labels && labels[NetworkId] == u
    ensures NetworkType in labels && labels[NetworkType] == "NETWORK_TYPE_OVERLAY"
  {
    var required := MgmtSubnetLabels(cfg, u);
    assert ManagedBy in required && SubnetName in required && SubnetNetAttach in required;
    assert NetworkName in required && NetworkId in required && NetworkType in required;
  }

  lemma RequiredOfNad(cfg: Config, labels: Labels)
    requires Has(labels, MgmtNadLabels(cfg))
    ensures ManagedBy in labels && labels[ManagedBy] == KUBE_NFV
    ensures SubnetName in labels && labels[SubnetName] == cfg.subnet
  {
    assert ManagedBy in MgmtNadLabels(cfg) && SubnetName in MgmtNadLabels(cfg);
  }

  /** A run from a store without the subnet that returned success has made a network that works, then
      and ever after: the subnet is attached to the management Vpc, with the configured block and
      gateway, and the network manager finds it by its NAD, with the Vpc's UID. */
  lemma SuccessMeansUsable(cfg: Config, run: seq<State>, steps: seq<Step>, i: nat, j: nat, t: nat)
    requires IsRun(cfg, run, steps) && i <= j < |run| && t in run[i].pcs && run[i].pcs[t].Done?
    requires cfg.vpc != "" && SubnetStage !in run[0].objs
    ensures AllThere(run[j])
    ensures var objs, k := StoreOf(cfg, run[j]), SubnetKey(cfg.subnet);
            && Refers(objs[k], Key(Vpc, cfg.vpc)) && RefOk(objs, cfg.subnet)
            && objs[k].spec.cidr == cfg.cidr && objs[k].spec.gateway == cfg.gateway
            && SubnetByNad(objs, cfg.nad).Ok? && SubnetByNad(objs, cfg.nad) == SubnetByName(objs, cfg.subnet)
            && SubnetByNad(objs, cfg.nad).value.networkId == Some(objs[Key(Vpc, cfg.vpc)].uid)
  {
    SuccessMeansReady(cfg, run, steps, i, j, t);
    CreatedAsConfigured(cfg, run, steps, j);
    ReadyIsUsable(cfg, run[j], run[i].pcs[t].vpcUid);
  }

  /** No step of a run touches a label that it does not require, on any object. */
  lemma UnrelatedLabelsKept(cfg: Config, s: State, s': State, step: Step, stage: Stage, k: LabelKey)
    requires NextStep(cfg, s, s', step) && !step.EditLabels? && stage in s.objs && Unrelated(cfg, stage, k)
    ensures stage in s'.objs
    ensures k in s'.objs[stage].labels <==> k in s.objs[stage].labels
    ensures k in s.objs[stage].labels ==> s'.objs[stage].labels[k] == s.objs[stage].labels[k]
  {
    forall u ensures k !in Required(cfg, stage, u) {
    }
  }

  /** About to read, or finished: no write in preparation. */
  predicate Quiet(pc: Pc) {
    pc.Reading? || pc.Done? || pc.Failed?
  }

  lemma QuietStep(cfg: Config, s: State, s': State, step: Step, t: nat, vpcUid: Uid)
    requires Inv(cfg, s) && NextStep(cfg, s, s', step) && Ready(cfg, s, vpcUid) && t in s.pcs && Quiet(s.pcs[t])
    ensures t in s'.pcs && Quiet(s'.pcs[t])
    ensures !step.EditLabels? && step.t == t ==> s'.objs == s.objs
  {
    assert PcInv(cfg, s, s.pcs[t]);
    if step == Run(t) && s.pcs[t].Reading? {
      var stage, u := s.pcs[t].stage, s.pcs[t].vpcUid;
      assert Labelled(cfg, s, stage, u);
      NothingMissing(s.objs[stage].labels, Required(cfg, stage, u));
    }
  }

  lemma ReadyStep(cfg: Config, s: State, s': State, step: Step, vpcUid: Uid)
    requires Inv(cfg, s) && NextStep(cfg, s, s', step) && Ready(cfg, s, vpcUid)
    ensures Ready(cfg, s', vpcUid)
  {
    StepGrows(cfg, s, s', step);
    OthersKeep(cfg, s, s', Done(vpcUid));
  }

  /** The network is in place and the run has no write in preparation. */
  ghost predicate Waiting(cfg: Config, s: State, t: nat, vpcUid: Uid) {
    Inv(cfg, s) && Ready(cfg, s, vpcUid) && t in s.pcs && Quiet(s.pcs[t])
  }

  lemma WaitingStep(cfg: Config, s: State, s': State, step: Step, t: nat, vpcUid: Uid)
    requires Waiting(cfg, s, t, vpcUid) && NextStep(cfg, s, s', step)
    ensures Waiting(cfg, s', t, vpcUid)
  {
    InvStep(cfg, s, s', step);
    ReadyStep(cfg, s, s', step, vpcUid);
    QuietStep(cfg, s, s', step, t, vpcUid);
  }

  lemma {:induction false} WaitingStays(cfg: Config, run: seq<State>, steps: seq<Step>, i: nat, j: nat, t: nat,
                                        vpcUid: Uid)
    requires IsRun(cfg, run, steps) && i <= j < |run| && Waiting(cfg, run[i], t, vpcUid)
    ensures Waiting(cfg, run[j], t, vpcUid)
    decreases j
  {
    if i < j {
      WaitingStays(cfg, run, steps, i, j - 1, t, vpcUid);
      WaitingStep(cfg, run[j - 1], run[j], steps[j - 1], t, vpcUid);
    }
  }

  /** Idempotence: once the network is in place, a run that has yet to write never writes. */
  lemma LaterRunWritesNothing(cfg: Config, run: seq<State>, steps: seq<Step>, i: nat, j: nat, t: nat, vpcUid: Uid)
    requires IsRun(cfg, run, steps) && i <= j < |steps| && Ready(cfg, run[i], vpcUid)
    requires t in run[i].pcs && Quiet(run[i].pcs[t])
    requires !steps[j].EditLabels? && steps[j].t == t
    ensures run[j + 1].objs == run[j].objs
  {
    InvRun(cfg, run, steps, i);
    WaitingStays(cfg, run, steps, i, j, t, vpcUid);
    QuietStep(cfg, run[j], run[j + 1], steps[j], t, vpcUid);
  }
}
