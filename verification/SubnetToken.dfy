/** CreateSubnet and DeleteSubnet run by any number of concurrent callers.

    CreateSubnet creates the NetworkAttachmentDefinition (NAD) first and the Subnet second;
    DeleteSubnet removes them in the opposite order. No caller takes a lock. Each API call is one
    atomic step, any call may fail without effect, a caller may stop at any point, and the read
    that starts a deletion may return any version of any subnet that ever existed.
 */
module SubnetToken {
  import opened Kube
  import opened NetworkLabels

  /** Where a caller stands between two API calls. `nad` is the UID of the NAD it works on,
      recorded for the proof only: the code deletes by name. */
  datatype Pc =
    | Idle
    | Creating(name: string, nad: Uid)
    | CleaningUp(name: string, nad: Uid)
    | Deleting(seen: Obj)
    | Detaching(name: string, nadName: string, nad: Uid)
  {
    /** Past its NAD create, or past its Subnet delete, with the NAD still to be dealt with. */
    predicate Holds() {
      Creating? || CleaningUp? || Detaching?
    }
  }

  /** `pairedNad` and `orphans` are bookkeeping: the NAD UID each live subnet was created with,
      and the subnet names whose NAD was left behind by a failed delete or a vanished caller. */
  datatype State = State(
    objs: Objects,
    used: set<Uid>,
    pcs: map<nat, Pc>,
    history: set<Obj>,
    pairedNad: map<string, Uid>,
    orphans: set<string>)

  datatype Step =
    | CreateNad(t: nat, name: string, o: Obj)
    | CreateSubnet(t: nat, o: Obj)
    | CreateSubnetFails(t: nat)
    | CleanUpNad(t: nat)
    | ReadSubnet(t: nat, seen: Obj)
    | DeleteSubnet(t: nat)
    | DetachNad(t: nat)
    | GiveUp(t: nat)

  /** What CreateSubnet writes into the labels of a subnet called `name`. */
  predicate SubnetLabelled(name: string, o: Obj) {
    && Managed(o)
    && Label(o.labels, SubnetName) == name
    && Label(o.labels, SubnetNetAttach) == NadName(name)
  }

  predicate NewObj(s: State, o: Obj) {
    o.uid !in s.used
  }

  function PcOf(s: State, t: nat): Pc {
    if t in s.pcs then s.pcs[t] else Idle
  }

  /** One atomic API call by one caller. A failed call that only ends the caller is `GiveUp`. */
  predicate NextStep(s: State, s': State, step: Step) {
    step.t in s.pcs &&
    var pc := s.pcs[step.t];
    match step
    case CreateNad(t, name, o) =>
      && pc.Idle? && NadKey(name) !in s.objs && NewObj(s, o)
      && s' == s.(objs := s.objs[NadKey(name) := o], used := s.used + {o.uid},
                  pcs := s.pcs[t := Creating(name, o.uid)])
    case CreateSubnet(t, o) =>
      && pc.Creating? && SubnetKey(pc.name) !in s.objs && NewObj(s, o) && SubnetLabelled(pc.name, o)
      && s' == s.(objs := s.objs[SubnetKey(pc.name) := o], used := s.used + {o.uid},
                  pcs := s.pcs[t := Idle], history := s.history + {o},
                  pairedNad := s.pairedNad[pc.name := pc.nad])
    case CreateSubnetFails(t) =>
      && pc.Creating?
      && s' == s.(pcs := s.pcs[t := CleaningUp(pc.name, pc.nad)])
    case CleanUpNad(t) =>
      && pc.CleaningUp? && NadKey(pc.name) in s.objs
      && s' == s.(objs := s.objs - {NadKey(pc.name)}, pcs := s.pcs[t := Idle])
    case ReadSubnet(t, seen) =>
      && pc.Idle? && seen in s.history
      && s' == s.(pcs := s.pcs[t := Deleting(seen)])
    case DeleteSubnet(t) =>
      && pc.Deleting?
      && var name := Label(pc.seen.labels, SubnetName);
      && SubnetKey(name) in s.objs
      && s' == s.(objs := s.objs - {SubnetKey(name)},
                  pairedNad := s.pairedNad - {name},
                  pcs := s.pcs[t := Detaching(name, Label(pc.seen.labels, SubnetNetAttach),
                                              if name in s.pairedNad then s.pairedNad[name] else "")])
    case DetachNad(t) =>
      && pc.Detaching? && Key(Nad, pc.nadName) in s.objs
      && s' == s.(objs := s.objs - {Key(Nad, pc.nadName)}, pcs := s.pcs[t := Idle])
    case GiveUp(t) =>
      && s' == s.(pcs := s.pcs[t := Idle],
                  orphans := if pc.Holds() then s.orphans + {pc.name} else s.orphans)
  }

  /** All callers idle, every subnet labelled and with its NAD. */
  ghost predicate Init(s: State) {
    && (forall t :: t in s.pcs ==> s.pcs[t].Idle?)
    && UidsOk(s.objs, s.used)
    && (forall n :: SubnetKey(n) in s.objs ==>
          && SubnetLabelled(n, s.objs[SubnetKey(n)])
          && NadKey(n) in s.objs
          && n in s.pairedNad && s.pairedNad[n] == s.objs[NadKey(n)].uid)
    && (forall n :: SubnetKey(n) in s.objs ==> s.objs[SubnetKey(n)] in s.history)
    && (forall o :: o in s.history ==> SubnetLabelled(Label(o.labels, SubnetName), o))
    && (forall n :: n in s.orphans <==> NadKey(n) in s.objs && SubnetKey(n) !in s.objs)
  }

  /** A run: any interleaving of the callers' steps, of any length. */
  ghost predicate IsRun(run: seq<State>, steps: seq<Step>) {
    && |run| == |steps| + 1
    && Init(run[0])
    && forall i :: 0 <= i < |steps| ==> NextStep(run[i], run[i + 1], steps[i])
  }

  predicate HeldBy(s: State, t: nat, n: string) {
    t in s.pcs && s.pcs[t].Holds() && s.pcs[t].name == n
  }

  /** A live subnet is labelled, has its NAD, and that NAD is the one it was created with. */
  ghost predicate SubnetInv(s: State, n: string) {
    SubnetKey(n) in s.objs ==>
      && SubnetLabelled(n, s.objs[SubnetKey(n)])
      && NadKey(n) in s.objs && n !in s.orphans
      && n in s.pairedNad && s.pairedNad[n] == s.objs[NadKey(n)].uid
  }

  /** A caller that holds a name has exactly its own NAD and no subnet under that name. */
  ghost predicate CallerInv(s: State, pc: Pc) {
    && (pc.Deleting? ==> SubnetLabelled(Label(pc.seen.labels, SubnetName), pc.seen))
    && (pc.Detaching? ==> pc.nadName == NadName(pc.name))
    && (pc.Holds() ==>
          && NadKey(pc.name) in s.objs && s.objs[NadKey(pc.name)].uid == pc.nad
          && SubnetKey(pc.name) !in s.objs && pc.name !in s.orphans)
  }

  ghost predicate Accounted(s: State, n: string) {
    NadKey(n) in s.objs <==> SubnetKey(n) in s.objs || n in s.orphans || exists t :: HeldBy(s, t, n)
  }

  /** The inductive invariant. */
  ghost predicate Inv(s: State) {
    && (forall n :: SubnetInv(s, n))
    && (forall o :: o in s.history ==> SubnetLabelled(Label(o.labels, SubnetName), o))
    && (forall t :: t in s.pcs ==> CallerInv(s, s.pcs[t]))
    && (forall t, u, n :: HeldBy(s, t, n) && HeldBy(s, u, n) ==> t == u)
    && (forall n :: Accounted(s, n))
  }

  lemma InvInit(s: State)
    requires Init(s)
    ensures Inv(s)
  {
    forall n ensures Accounted(s, n) {
      assert n in s.orphans <==> NadKey(n) in s.objs && SubnetKey(n) !in s.objs;
    }
  }

  /** What a step by caller `t` changes: only the NAD and the subnet of one name. */
  function Touched(s: State, step: Step): string
    requires step.t in s.pcs
  {
    var pc := s.pcs[step.t];
    match step
    case CreateNad(_, name, _) => name
    case ReadSubnet(_, _) => ""
    case _ =>
      if pc.Holds() then pc.name
      else if pc.Deleting? then Label(pc.seen.labels, SubnetName)
      else ""
  }

  lemma StepFrame(s: State, s': State, step: Step, n: string)
    requires Inv(s) && NextStep(s, s', step) && n != Touched(s, step)
    ensures NadKey(n) in s'.objs <==> NadKey(n) in s.objs
    ensures NadKey(n) in s.objs ==> s'.objs[NadKey(n)] == s.objs[NadKey(n)]
    ensures SubnetKey(n) in s'.objs <==> SubnetKey(n) in s.objs
    ensures SubnetKey(n) in s.objs ==> s'.objs[SubnetKey(n)] == s.objs[SubnetKey(n)]
    ensures n in s'.orphans <==> n in s.orphans
    ensures forall u :: HeldBy(s', u, n) <==> HeldBy(s, u, n)
    ensures n in s.pairedNad ==> n in s'.pairedNad && s'.pairedNad[n] == s.pairedNad[n]
  {
    assert CallerInv(s, s.pcs[step.t]);
    if NadKey(n) == NadKey(Touched(s, step)) {
      NadNameInjective(n, Touched(s, step));
    }
  }

  /** The name a step touches: before and after, spelled out. */
  lemma StepOnName(s: State, s': State, step: Step)
    requires Inv(s) && NextStep(s, s', step)
    ensures var n := Touched(s, step);
            && SubnetInv(s', n) && CallerInv(s', s'.pcs[step.t]) && Accounted(s', n)
            && forall t, u :: HeldBy(s', t, n) && HeldBy(s', u, n) ==> t == u
  {
    var t, n := step.t, Touched(s, step);
    assert CallerInv(s, s.pcs[t]);
    assert SubnetInv(s, n) && Accounted(s, n);
    assert forall u :: u != t ==> (HeldBy(s', u, n) <==> HeldBy(s, u, n));
    assert s.pcs[t].Holds() ==> HeldBy(s, t, s.pcs[t].name);
    assert s'.pcs[t].Holds() ==> HeldBy(s', t, s'.pcs[t].name);
  }

  lemma InvStep(s: State, s': State, step: Step)
    requires Inv(s) && NextStep(s, s', step)
    ensures Inv(s')
  {
    StepOnName(s, s', step);
    forall n ensures SubnetInv(s', n) && Accounted(s', n) {
      assert SubnetInv(s, n) && Accounted(s, n);
      if n != Touched(s, step) { StepFrame(s, s', step, n); }
    }
    forall u | u in s'.pcs ensures CallerInv(s', s'.pcs[u]) {
      if u != step.t { OtherCaller(s, s', step, u); }
    }
    forall t, u, n | HeldBy(s', t, n) && HeldBy(s', u, n) ensures t == u {
      if n != Touched(s, step) { StepFrame(s, s', step, n); }
    }
  }

  lemma OtherCaller(s: State, s': State, step: Step, u: nat)
    requires Inv(s) && NextStep(s, s', step) && u in s.pcs && u != step.t
    ensures CallerInv(s', s'.pcs[u])
  {
    var pc := s.pcs[u];
    assert CallerInv(s, pc);
    if pc.Holds() {
      if pc.name != Touched(s, step) {
        StepFrame(s, s', step, pc.name);
      } else {
        assert HeldBy(s, u, pc.name);
        assert SubnetInv(s, pc.name) && Accounted(s, pc.name);
        assert s.pcs[step.t].Holds() ==> HeldBy(s, step.t, s.pcs[step.t].name);
      }
    }
  }

  /** Every state of every run satisfies the invariant. */
  lemma {:induction false} InvRun(run: seq<State>, steps: seq<Step>, i: nat)
    requires IsRun(run, steps) && i < |run|
    ensures Inv(run[i])
  {
    if i == 0 {
      InvInit(run[0]);
    } else {
      InvRun(run, steps, i - 1);
      InvStep(run[i - 1], run[i], steps[i - 1]);
    }
  }

  function Holders(s: State, n: string): set<nat> {
    set t | t in s.pcs && HeldBy(s, t, n)
  }

  function One(b: bool): nat {
    if b then 1 else 0
  }

  /** The NAD is a mutual-exclusion token. For every subnet name, at every point of every
      interleaving, a NAD exists exactly when one of these does, and never more than one of
      them: the subnet, one caller between its two calls, a NAD left behind. */
  lemma NadIsToken(run: seq<State>, steps: seq<Step>, i: nat, n: string)
    requires IsRun(run, steps) && i < |run|
    ensures var s := run[i];
            One(SubnetKey(n) in s.objs) + |Holders(s, n)| + One(n in s.orphans)
              == One(NadKey(n) in s.objs)
  {
    InvRun(run, steps, i);
    var s := run[i];
    assert SubnetInv(s, n) && Accounted(s, n);
    if t :| t in Holders(s, n) {
      assert CallerInv(s, s.pcs[t]);
      assert Holders(s, n) == {t};
    } else {
      assert Holders(s, n) == {};
      assert forall t :: !HeldBy(s, t, n) by {
        forall t ensures !HeldBy(s, t, n) {
          assert t !in Holders(s, n);
        }
      }
    }
  }

  /** A subnet that exists always has its NAD, and it is the NAD created together with it. */
  lemma SubnetHasItsNad(run: seq<State>, steps: seq<Step>, i: nat, n: string)
    requires IsRun(run, steps) && i < |run| && SubnetKey(n) in run[i].objs
    ensures NadKey(n) in run[i].objs
    ensures n in run[i].pairedNad && run[i].pairedNad[n] == run[i].objs[NadKey(n)].uid
  {
    InvRun(run, steps, i);
    assert SubnetInv(run[i], n);
  }

  /** Clean-up and detach delete by name, yet the NAD they remove is always the very one that
      the same call created, or that the subnet it just deleted was created with. */
  lemma DeletesOnlyItsOwnNad(run: seq<State>, steps: seq<Step>, i: nat)
    requires IsRun(run, steps) && i < |steps| && (steps[i].CleanUpNad? || steps[i].DetachNad?)
    ensures var pc := PcOf(run[i], steps[i].t);
            && pc.Holds() && NadKey(pc.name) in run[i].objs && run[i].objs[NadKey(pc.name)].uid == pc.nad
            && run[i + 1].objs == run[i].objs - {NadKey(pc.name)}
  {
    InvRun(run, steps, i);
    assert NextStep(run[i], run[i + 1], steps[i]);
    assert CallerInv(run[i], run[i].pcs[steps[i].t]);
  }

  /** While a caller stands between its two calls, neither of them can be refused: a creator
      never finds the subnet name taken, and no holder ever finds its NAD gone. */
  lemma HolderIsNeverRefused(run: seq<State>, steps: seq<Step>, i: nat, t: nat)
    requires IsRun(run, steps) && i < |run| && t in run[i].pcs && run[i].pcs[t].Holds()
    ensures var pc := run[i].pcs[t];
            && SubnetKey(pc.name) !in run[i].objs
            && NadKey(pc.name) in run[i].objs
            && (pc.Detaching? ==> Key(Nad, pc.nadName) == NadKey(pc.name))
  {
    InvRun(run, steps, i);
    assert CallerInv(run[i], run[i].pcs[t]);
  }

  /** A NAD is left behind only by a caller that stopped, or whose last call failed, while it
      held the name; without such a caller the orphans are those of the start. */
  lemma {:induction false} OrphansNeedAFailure(run: seq<State>, steps: seq<Step>, i: nat)
    requires IsRun(run, steps) && i < |run|
    requires forall j :: 0 <= j < i && steps[j].GiveUp? ==> !PcOf(run[j], steps[j].t).Holds()
    ensures run[i].orphans == run[0].orphans
  {
    if i != 0 {
      OrphansNeedAFailure(run, steps, i - 1);
      assert NextStep(run[i - 1], run[i], steps[i - 1]);
    }
  }

  /** So once every caller is idle, NADs and subnets match one to one. */
  lemma QuietStateIsPaired(run: seq<State>, steps: seq<Step>, i: nat, n: string)
    requires IsRun(run, steps) && i < |run| && run[0].orphans == {}
    requires forall j :: 0 <= j < i && steps[j].GiveUp? ==> !PcOf(run[j], steps[j].t).Holds()
    requires forall t :: t in run[i].pcs ==> run[i].pcs[t].Idle?
    ensures NadKey(n) in run[i].objs <==> SubnetKey(n) in run[i].objs
  {
    OrphansNeedAFailure(run, steps, i);
    NadIsToken(run, steps, i, n);
    assert Holders(run[i], n) == {};
  }

  lemma OrphanStep(s: State, s': State, step: Step, n: string)
    requires Inv(s) && NextStep(s, s', step) && n in s.orphans
    ensures n in s'.orphans && NadKey(n) in s.objs && NadKey(n) in s'.objs && s'.objs[NadKey(n)] == s.objs[NadKey(n)]
    ensures step.CreateNad? ==> step.name != n
  {
    assert SubnetInv(s, n) && Accounted(s, n) && CallerInv(s, s.pcs[step.t]);
    if n != Touched(s, step) { StepFrame(s, s', step, n); }
  }

  /** A NAD that was left behind blocks its subnet name for good: the very object stays, the subnet
      never exists, and no creation under that name gets past its first call. */
  lemma {:induction false} OrphanBlocksName(run: seq<State>, steps: seq<Step>, i: nat, j: nat, n: string)
    requires IsRun(run, steps) && i <= j < |run| && n in run[i].orphans
    ensures n in run[j].orphans && SubnetKey(n) !in run[j].objs
    ensures NadKey(n) in run[i].objs && NadKey(n) in run[j].objs && run[j].objs[NadKey(n)] == run[i].objs[NadKey(n)]
    ensures j < |steps| && steps[j].CreateNad? ==> steps[j].name != n
    decreases j
  {
    if i < j {
      OrphanBlocksName(run, steps, i, j - 1, n);
      InvRun(run, steps, j - 1);
      OrphanStep(run[j - 1], run[j], steps[j - 1], n);
    }
    InvRun(run, steps, j);
    assert SubnetInv(run[j], n) && Accounted(run[j], n);
    if j < |steps| { OrphanStep(run[j], run[j + 1], steps[j], n); }
  }
}
