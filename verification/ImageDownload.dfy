/** DownloadImage run by any number of concurrent callers.

    A call creates the VolumeImportSource, reads the storage class, creates the DataVolume and
    labels the source with the volume's UID; a failure on the way deletes what the call created, the
    source before the volume. Each API call is one atomic step, any may fail without effect, and a
    caller may stop at any point. Deletes are by name.
 */
module ImageDownload {
  import opened Kube
  import opened NetworkLabels
  import opened Networks

  function SourceKey(name: string): Key { Key(ImportSource, name) }
  function VolumeKey(name: string): Key { Key(DataVolume, name) }

  /** Where a call stands; `vis` and `dv` are the UIDs of the objects it created. */
  datatype Pc =
    | Start
    | HasSource(name: string, vis: Uid)
    | HasVolume(name: string, vis: Uid, dv: Uid)
    | DropSource(name: string, vis: Uid)
    | DropBoth(name: string, vis: Uid, dv: Uid)
    | DropVolume(name: string, dv: Uid)
    | Lazy(name: string, vis: Uid)
    | Ready(name: string, vis: Uid, dv: Uid)
    | Failed
  {
    /** The keys of the objects that this call created and has not given up. */
    function Keys(): set<Key> {
      match this
      case Start => {}
      case HasSource(n, _) => {SourceKey(n)}
      case HasVolume(n, _, _) => {SourceKey(n), VolumeKey(n)}
      case DropSource(n, _) => {SourceKey(n)}
      case DropBoth(n, _, _) => {SourceKey(n), VolumeKey(n)}
      case DropVolume(n, _) => {VolumeKey(n)}
      case Lazy(n, _) => {SourceKey(n)}
      case Ready(n, _, _) => {SourceKey(n), VolumeKey(n)}
      case Failed => {}
    }

    /** The UID of the object it created under a key. */
    function UidOf(k: Key): Uid
      requires k in Keys()
    {
      if k.kind == ImportSource then vis else dv
    }
  }

  /** `leaked` are the keys of objects whose creator stopped, or whose delete failed. */
  datatype State = State(objs: Objects, used: set<Uid>, calls: map<nat, Pc>, leaked: set<Key>)

  datatype Step =
    | CreateSource(t: nat, name: string, uid: Uid)
    | ReturnLazy(t: nat)
    | CreateVolume(t: nat, uid: Uid)
    | CreateVolumeFails(t: nat)
    | PatchSource(t: nat)
    | PatchFails(t: nat)
    | Delete(t: nat)
    | DeleteFails(t: nat)
    | Stop(t: nat)

  function SourceObj(uid: Uid): Obj {
    Obj(uid, map[ManagedBy := KUBE_NFV], map[], ImportSpec(""))
  }

  function VolumeObj(uid: Uid, name: string, vis: Uid): Obj {
    Obj(uid, map[ManagedBy := KUBE_NFV, ImageId := vis], map[], VolumeSpec(name))
  }

  predicate Fresh(s: State, uid: Uid) {
    uid !in s.used && IsUuid(uid)
  }

  /** The key a roll-back deletes next, and where the call stands afterwards. */
  function NextDelete(pc: Pc): (Key, Pc)
    requires pc.DropSource? || pc.DropBoth? || pc.DropVolume?
  {
    match pc
    case DropSource(n, _) => (SourceKey(n), Failed)
    case DropBoth(n, _, dv) => (SourceKey(n), DropVolume(n, dv))
    case DropVolume(n, _) => (VolumeKey(n), Failed)
  }

  predicate Dropping(pc: Pc) {
    pc.DropSource? || pc.DropBoth? || pc.DropVolume?
  }

  predicate NextStep(s: State, s': State, step: Step) {
    step.t in s.calls &&
    var t, pc := step.t, s.calls[step.t];
    match step
    case CreateSource(_, name, uid) =>
      && pc.Start? && name != "" && SourceKey(name) !in s.objs && Fresh(s, uid)
      && s' == s.(objs := s.objs[SourceKey(name) := SourceObj(uid)], used := s.used + {uid},
                  calls := s.calls[t := HasSource(name, uid)])
    case ReturnLazy(_) =>
      pc.HasSource? && s' == s.(calls := s.calls[t := Lazy(pc.name, pc.vis)])
    case CreateVolume(_, uid) =>
      && pc.HasSource? && VolumeKey(pc.name) !in s.objs && Fresh(s, uid)
      && s' == s.(objs := s.objs[VolumeKey(pc.name) := VolumeObj(uid, pc.name, pc.vis)], used := s.used + {uid},
                  calls := s.calls[t := HasVolume(pc.name, pc.vis, uid)])
    case CreateVolumeFails(_) =>
      pc.HasSource? && s' == s.(calls := s.calls[t := DropSource(pc.name, pc.vis)])
    case PatchSource(_) =>
      && pc.HasVolume? && SourceKey(pc.name) in s.objs
      && var o := Patched(s.objs[SourceKey(pc.name)], map[DataVolumeId := pc.dv]);
      && s' == s.(objs := s.objs[SourceKey(pc.name) := o],
                  calls := s.calls[t := Ready(pc.name, pc.vis, pc.dv)])
    case PatchFails(_) =>
      pc.HasVolume? && s' == s.(calls := s.calls[t := DropBoth(pc.name, pc.vis, pc.dv)])
    case Delete(_) =>
      && Dropping(pc) && NextDelete(pc).0 in s.objs
      && s' == s.(objs := s.objs - {NextDelete(pc).0}, calls := s.calls[t := NextDelete(pc).1])
    case DeleteFails(_) =>
      && Dropping(pc)
      && s' == s.(calls := s.calls[t := NextDelete(pc).1], leaked := s.leaked + {NextDelete(pc).0})
    case Stop(_) =>
      s' == s.(calls := s.calls[t := Failed], leaked := s.leaked + pc.Keys())
  }

  ghost predicate IsRun(run: seq<State>, steps: seq<Step>) {
    && |run| == |steps| + 1
    && UidsOk(run[0].objs, run[0].used) && run[0].leaked == {}
    && (forall t :: t in run[0].calls ==> run[0].calls[t].Start?)
    && forall i :: 0 <= i < |steps| ==> NextStep(run[i], run[i + 1], steps[i])
  }

  // ---------- the invariant ----------

  /** What a call created is there, with the UID it was created with; a finished call's objects
      carry each other's UIDs. */
  ghost predicate CallInv(s: State, pc: Pc) {
    && (forall k :: k in pc.Keys() ==> k in s.objs && s.objs[k].uid == pc.UidOf(k) && Managed(s.objs[k]))
    && (pc.HasVolume? || pc.DropBoth? || pc.Ready? ==>
          && Label(s.objs[VolumeKey(pc.name)].labels, ImageId) == pc.vis
          && s.objs[VolumeKey(pc.name)].spec.VolumeSpec?
          && SourceKey(s.objs[VolumeKey(pc.name)].spec.source) == SourceKey(pc.name))
    && (pc.Ready? ==> Label(s.objs[SourceKey(pc.name)].labels, DataVolumeId) == pc.dv)
  }

  /** A key in the store is an initial object, untouched, or belongs to exactly one call, or leaked. */
  ghost predicate KeyInv(init: Objects, s: State, k: Key) {
    && (k in init ==> k in s.objs && s.objs[k] == init[k] && k !in s.leaked)
    && (k in s.leaked ==> k in s.objs)
    && (k in s.objs ==> k in init || k in s.leaked || exists t :: Owns(s, t, k))
    && (forall t :: Owns(s, t, k) ==> k !in init && k !in s.leaked)
    && forall t, u :: Owns(s, t, k) && Owns(s, u, k) ==> t == u
  }

  predicate Owns(s: State, t: nat, k: Key) {
    t in s.calls && k in s.calls[t].Keys()
  }

  ghost predicate Inv(init: Objects, s: State) {
    && UidsOk(s.objs, s.used)
    && (forall t :: t in s.calls ==> CallInv(s, s.calls[t]))
    && forall k :: KeyInv(init, s, k)
  }

  /** What a step does to one key: nothing, or it creates it for the caller, or the caller removes
      it, or the caller leaves it behind. Only an object of the caller's own can change. */
  datatype Effect = Same | Created | Removed | Left

  function EffectOn(s: State, s': State, step: Step, k: Key): Effect
    requires step.t in s.calls && step.t in s'.calls
  {
    var had, has := k in s.calls[step.t].Keys(), k in s'.calls[step.t].Keys();
    if had == has then Same else if has then Created else if step.Delete? then Removed else Left
  }

  lemma EffectIs(s: State, s': State, step: Step, k: Key)
    requires NextStep(s, s', step)
    ensures step.t in s'.calls
    ensures match EffectOn(s, s', step, k)
            case Same => && (k in s'.objs <==> k in s.objs) && (k in s'.leaked <==> k in s.leaked)
                         && (k in s.objs && k !in s.calls[step.t].Keys() ==> s'.objs[k] == s.objs[k])
            case Created => k !in s.objs && k in s'.objs && s'.leaked == s.leaked
            case Removed => k !in s'.objs && s'.leaked == s.leaked
            case Left => s'.objs == s.objs && k in s'.leaked
  {
  }

  lemma OthersOwn(s: State, s': State, step: Step)
    requires NextStep(s, s', step)
    ensures s'.calls.Keys == s.calls.Keys
    ensures forall u :: u in s.calls && u != step.t ==> s'.calls[u] == s.calls[u]
  {
  }

  /** Who owns a key after a step: as before, but for the caller. */
  lemma OwnersStep(s: State, s': State, step: Step, k: Key)
    requires NextStep(s, s', step)
    ensures step.t in s'.calls
    ensures Owns(s, step.t, k) <==> k in s.calls[step.t].Keys()
    ensures Owns(s', step.t, k) <==> k in s'.calls[step.t].Keys()
    ensures forall u :: u != step.t ==> (Owns(s', u, k) <==> Owns(s, u, k))
  {
    OthersOwn(s, s', step);
  }

  lemma KeyStep(init: Objects, s: State, s': State, step: Step, k: Key)
    requires Inv(init, s) && NextStep(s, s', step)
    ensures KeyInv(init, s', k)
  {
    assert KeyInv(init, s, k) && CallInv(s, s.calls[step.t]);
    EffectIs(s, s', step, k);
    OwnersStep(s, s', step, k);
  }

  /** The objects of another call are not touched. */
  lemma OthersKeep(init: Objects, s: State, s': State, step: Step, u: nat, k: Key)
    requires Inv(init, s) && NextStep(s, s', step) && Owns(s, u, k) && u != step.t
    ensures k in s'.objs && s'.objs[k] == s.objs[k]
  {
    assert KeyInv(init, s, k) && CallInv(s, s.calls[u]);
    EffectIs(s, s', step, k);
    assert !Owns(s, step.t, k);
  }

  lemma CallFrame(s: State, s': State, pc: Pc)
    requires CallInv(s, pc) && forall k :: k in pc.Keys() ==> k in s'.objs && s'.objs[k] == s.objs[k]
    ensures CallInv(s', pc)
  {
    if pc.HasVolume? || pc.DropBoth? || pc.Ready? {
      assert SourceKey(pc.name) in pc.Keys() && VolumeKey(pc.name) in pc.Keys();
    }
  }

  lemma OtherCallStep(init: Objects, s: State, s': State, step: Step, u: nat)
    requires Inv(init, s) && NextStep(s, s', step) && u in s.calls && u != step.t
    ensures CallInv(s', s.calls[u])
  {
    assert CallInv(s, s.calls[u]);
    forall k | k in s.calls[u].Keys() ensures k in s'.objs && s'.objs[k] == s.objs[k] {
      assert Owns(s, u, k);
      OthersKeep(init, s, s', step, u, k);
    }
    CallFrame(s, s', s.calls[u]);
  }

  lemma OwnCreate(s: State, s': State, step: Step)
    requires step.t in s.calls && CallInv(s, s.calls[step.t]) && NextStep(s, s', step)
    requires step.CreateSource? || step.CreateVolume?
    ensures CallInv(s', s'.calls[step.t])
  {
    var pc := s.calls[step.t];
    if step.CreateVolume? { assert SourceKey(pc.name) in pc.Keys(); }
  }

  lemma OwnPatch(s: State, s': State, step: Step)
    requires step.t in s.calls && CallInv(s, s.calls[step.t]) && NextStep(s, s', step) && step.PatchSource?
    ensures CallInv(s', s'.calls[step.t])
  {
    var pc := s.calls[step.t];
    assert SourceKey(pc.name) in pc.Keys() && VolumeKey(pc.name) in pc.Keys();
  }

  /** A step that neither creates nor patches: the call's remaining objects were its own before. */
  lemma OwnRest(s: State, s': State, step: Step)
    requires step.t in s.calls && CallInv(s, s.calls[step.t]) && NextStep(s, s', step)
    requires !step.CreateSource? && !step.CreateVolume? && !step.PatchSource?
    ensures CallInv(s', s'.calls[step.t])
  {
    var pc, pc' := s.calls[step.t], s'.calls[step.t];
    forall k | k in pc'.Keys() ensures k in pc.Keys() && k in s'.objs && s'.objs[k] == s.objs[k] {
      assert k in pc.Keys();
    }
    if pc'.DropBoth? { assert VolumeKey(pc.name) in pc'.Keys(); }
  }

  lemma OwnCallStep(s: State, s': State, step: Step)
    requires step.t in s.calls && CallInv(s, s.calls[step.t]) && NextStep(s, s', step)
    ensures step.t in s'.calls && CallInv(s', s'.calls[step.t])
  {
    match step
    case CreateSource(_, _, _) => OwnCreate(s, s', step);
    case CreateVolume(_, _) => OwnCreate(s, s', step);
    case PatchSource(_) => OwnPatch(s, s', step);
    case _ => OwnRest(s, s', step);
  }

  lemma UidsStep(s: State, s': State, step: Step)
    requires UidsOk(s.objs, s.used) && NextStep(s, s', step) && CallInv(s, s.calls[step.t])
    ensures UidsOk(s'.objs, s'.used)
  {
    match step
    case CreateSource(_, name, uid) => FreshUid(s.objs, s.used, SourceKey(name), SourceObj(uid));
    case CreateVolume(_, uid) =>
      var pc := s.calls[step.t];
      assert SourceKey(pc.name) in pc.Keys();
      FreshUid(s.objs, s.used, VolumeKey(pc.name), VolumeObj(uid, pc.name, pc.vis));
    case _ => SameUids(s.objs, s'.objs, s.used);
  }

  lemma SameUids(objs: Objects, objs': Objects, used: set<Uid>)
    requires UidsOk(objs, used) && forall k :: k in objs' ==> k in objs && objs'[k].uid == objs[k].uid
    ensures UidsOk(objs', used)
  {
  }

  lemma FreshUid(objs: Objects, used: set<Uid>, k: Key, o: Obj)
    requires UidsOk(objs, used) && k.name != "" && IsUuid(o.uid) && o.uid !in used
    ensures UidsOk(objs[k := o], used + {o.uid})
  {
  }

  lemma InvStep(init: Objects, s: State, s': State, step: Step)
    requires Inv(init, s) && NextStep(s, s', step)
    ensures Inv(init, s')
  {
    assert CallInv(s, s.calls[step.t]);
    UidsStep(s, s', step);
    OthersOwn(s, s', step);
    forall u | u in s'.calls ensures CallInv(s', s'.calls[u]) {
      if u == step.t { OwnCallStep(s, s', step); } else { OtherCallStep(init, s, s', step, u); }
    }
    forall k ensures KeyInv(init, s', k) {
      KeyStep(init, s, s', step, k);
    }
  }

  lemma {:induction false} InvRun(run: seq<State>, steps: seq<Step>, i: nat)
    requires IsRun(run, steps) && i < |run|
    ensures Inv(run[0].objs, run[i])
  {
    if i > 0 {
      InvRun(run, steps, i - 1);
      InvStep(run[0].objs, run[i - 1], run[i], steps[i - 1]);
    }
  }

  // ---------- what the calls guarantee ----------

  /** A roll-back deletes by name, yet what it deletes is always the object that the same call
      created, in every interleaving. */
  lemma RollBackDeletesOnlyItsOwn(run: seq<State>, steps: seq<Step>, i: nat)
    requires IsRun(run, steps) && i < |steps| && steps[i].Delete?
    ensures steps[i].t in run[i].calls && Dropping(run[i].calls[steps[i].t])
    ensures var pc := run[i].calls[steps[i].t];
            var k := NextDelete(pc).0;
            && k in run[i].objs && k in pc.Keys() && run[i].objs[k].uid == pc.UidOf(k)
            && run[i + 1].objs == run[i].objs - {k}
  {
    InvRun(run, steps, i);
    assert NextStep(run[i], run[i + 1], steps[i]);
    assert CallInv(run[i], run[i].calls[steps[i].t]);
  }

  /** Objects that were there before are never touched. */
  lemma OthersUntouched(run: seq<State>, steps: seq<Step>, i: nat, k: Key)
    requires IsRun(run, steps) && i < |run| && k in run[0].objs
    ensures k in run[i].objs && run[i].objs[k] == run[0].objs[k]
  {
    InvRun(run, steps, i);
    assert KeyInv(run[0].objs, run[i], k);
  }

  /** If every call has failed and no delete was lost and no caller stopped, the store is exactly as
      it began; for a single call this is all-or-nothing. */
  lemma FailureRestoresStore(run: seq<State>, steps: seq<Step>, i: nat)
    requires IsRun(run, steps) && i < |run| && run[i].leaked == {}
    requires forall t :: t in run[i].calls ==> run[i].calls[t].Failed? || run[i].calls[t].Start?
    ensures run[i].objs == run[0].objs
  {
    InvRun(run, steps, i);
    forall k ensures k in run[i].objs <==> k in run[0].objs {
      assert KeyInv(run[0].objs, run[i], k);
      assert forall t :: !Owns(run[i], t, k);
    }
    forall k | k in run[0].objs ensures run[i].objs[k] == run[0].objs[k] {
      assert KeyInv(run[0].objs, run[i], k);
    }
  }

  /** Only a failed delete or a caller that stops leaves anything behind. */
  lemma {:induction false} LeaksNeedAFailure(run: seq<State>, steps: seq<Step>, i: nat)
    requires IsRun(run, steps) && i < |run|
    requires forall j :: 0 <= j < i ==> !steps[j].DeleteFails? && !steps[j].Stop?
    ensures run[i].leaked == {}
  {
    if i > 0 {
      LeaksNeedAFailure(run, steps, i - 1);
      assert NextStep(run[i - 1], run[i], steps[i - 1]);
    }
  }

  /** GetImage: the managed source with that UID, then the volume of the same name. */
  ghost function ImageBy(objs: Objects, uid: Uid): Result<(Key, Key)> {
    var k := FindUid(objs, ImportSource, uid);
    if k.None? then Error(NotFound)
    else if !Visible(objs, VolumeKey(k.value.name)) then Error(ApiNotFound)
    else Ok((k.value, VolumeKey(k.value.name)))
  }

  /** A non-lazy success leaves source and volume labelled with each other's UIDs, and GetImage
      finds them. */
  lemma SuccessIsFindable(run: seq<State>, steps: seq<Step>, i: nat, t: nat)
    requires IsRun(run, steps) && i < |run| && t in run[i].calls && run[i].calls[t].Ready?
    ensures var pc, objs := run[i].calls[t], run[i].objs;
            && ImageBy(objs, pc.vis) == Ok((SourceKey(pc.name), VolumeKey(pc.name)))
            && SourceKey(pc.name) in objs && VolumeKey(pc.name) in objs
            && objs[SourceKey(pc.name)].uid == pc.vis && objs[VolumeKey(pc.name)].uid == pc.dv
            && Label(objs[SourceKey(pc.name)].labels, DataVolumeId) == pc.dv
            && Label(objs[VolumeKey(pc.name)].labels, ImageId) == pc.vis
            && objs[VolumeKey(pc.name)].spec.VolumeSpec? && objs[VolumeKey(pc.name)].spec.source == pc.name
  {
    InvRun(run, steps, i);
    var pc, objs := run[i].calls[t], run[i].objs;
    assert CallInv(run[i], pc);
    assert SourceKey(pc.name) in pc.Keys() && VolumeKey(pc.name) in pc.Keys();
    FindUidUnique(objs, run[i].used, ImportSource, SourceKey(pc.name));
  }
}
