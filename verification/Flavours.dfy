/** Flavours: each one an instance type and a preference, tied together by a label. */
module Flavours {
  import opened Kube
  import opened NetworkLabels

  const VOLUMES := "flavour.kubevim.kubenfv.io/volumes"
  const ATTACHED_NAME := "flavour.kubevim.kubenfv.io/attached-name"

  datatype Volume = Volume(kind: string, size: int)

  /** The JSON text of the storage attributes, and its parser. */
  datatype Codec = Codec(render: seq<Volume> -> string, parse: string -> Option<seq<Volume>>)

  ghost predicate Faithful(json: Codec) {
    forall v :: json.parse(json.render(v)) == Some(v)
  }

  /** vivnfm.VirtualComputeFlavour as a request */
  datatype Flavour = Flavour(id: string, cpus: nat, memory: Option<int>, storage: seq<Volume>, metadata: Annotations)

  /** A flavour as read back; `pref` is the UID of its preference, if any, `attached` the name it is
      attached under. */
  datatype Info = Info(id: string, cpus: nat, memory: int, storage: seq<Volume>, attached: Option<string>,
                       instanceType: Uid, pref: Option<Uid>)

  function TypeKey(id: string): Key { Key(InstanceType, "flavour-" + id) }
  function PrefKey(id: string): Key { Key(Preference, "flavour-pref-" + id) }

  function KeyFor(kind: Kind, id: string): Key {
    if kind == InstanceType then TypeKey(id) else PrefKey(id)
  }

  /** Different flavours have different objects. */
  lemma KeysDiffer(kind: Kind, a: string, b: string)
    requires KeyFor(kind, a) == KeyFor(kind, b)
    ensures a == b
  {
    assert a == ("flavour-" + a)[8..] && b == ("flavour-" + b)[8..];
    assert a == ("flavour-pref-" + a)[13..] && b == ("flavour-pref-" + b)[13..];
  }

  predicate Carries(objs: Objects, k: Key, kind: Kind, id: string) {
    Visible(objs, k) && k.kind == kind && FlavourId in objs[k].labels && objs[k].labels[FlavourId] == id
  }

  /** An object that carries a flavour id is named after it. */
  ghost predicate FlavourInv(objs: Objects) {
    forall k, id :: Carries(objs, k, InstanceType, id) || Carries(objs, k, Preference, id) ==> k == KeyFor(k.kind, id)
  }

  /** So there is at most one of each kind, and a search by label is a lookup by name. */
  lemma AtMostOne(objs: Objects, kind: Kind, id: string, j: Key, k: Key)
    requires FlavourInv(objs) && (kind == InstanceType || kind == Preference)
    requires Carries(objs, j, kind, id) && Carries(objs, k, kind, id)
    ensures j == k == KeyFor(kind, id)
  {
  }

  // ---------- writes ----------

  /** Caller metadata is written over the annotations, the volumes entry included. */
  function AnnotationsFor(json: Codec, f: Flavour): Annotations {
    map[VOLUMES := json.render(f.storage)] + f.metadata
  }

  function LabelsFor(id: string): Labels {
    map[ManagedBy := KUBE_NFV, FlavourId := id]
  }

  /** The two objects of a flavour are in the store. */
  ghost predicate Describes(json: Codec, objs: Objects, f: Flavour, id: string) {
    && TypeKey(id) in objs && PrefKey(id) in objs && f.memory.Some?
    && objs[TypeKey(id)].labels == LabelsFor(id) == objs[PrefKey(id)].labels
    && objs[TypeKey(id)].annotations == AnnotationsFor(json, f) == objs[PrefKey(id)].annotations
    && objs[TypeKey(id)].spec == FlavourSpec(f.cpus, f.memory.value)
  }

  /** Why CreateFlavour refuses: bad data, or a name that is taken. */
  function FlavourRefusal(objs: Objects, f: Flavour, id: string): Option<Err> {
    if f.cpus == 0 || f.memory.None? then Some(InvalidArgument)
    else if TypeKey(id) in objs || PrefKey(id) in objs then Some(AlreadyExists)
    else None
  }

  function IdFor(f: Flavour, drawn: string): string {
    if f.id != "" then f.id else drawn
  }

  /** The two creates. */
  method CreateBoth(c: Cluster, json: Codec, f: Flavour, drawn: string) returns (r: Result<string>)
    requires c.Valid() && FlavourInv(c.objs)
    modifies c`objs, c`used, c`faults
    ensures c.Valid() && FlavourInv(c.objs)
    ensures Follows(r, FlavourRefusal(old(c.objs), f, IdFor(f, drawn)), c.faults > old(c.faults))
    ensures r.Ok? ==>
              var id := IdFor(f, drawn);
              && r.value == id == (if f.id != "" then f.id else drawn)
              && f.memory.Some? && TypeKey(id) in c.objs && PrefKey(id) in c.objs
              && c.objs == old(c.objs)[TypeKey(id) := c.objs[TypeKey(id)]][PrefKey(id) := c.objs[PrefKey(id)]]
              && Describes(json, c.objs, f, id)
    ensures r.Error? ==>
              var id := IdFor(f, drawn);
              || c.objs == old(c.objs)
              || (TypeKey(id) !in old(c.objs) && TypeKey(id) in c.objs
                  && c.objs == old(c.objs)[TypeKey(id) := c.objs[TypeKey(id)]])
    ensures r.Error? && c.faults == old(c.faults) ==>
              var id := IdFor(f, drawn);
              (TypeKey(id) in c.objs <==> TypeKey(id) in old(c.objs) || (f.cpus != 0 && f.memory.Some?))
  {
    var id := IdFor(f, drawn);
    if f.cpus == 0 || f.memory.None? { return Error(InvalidArgument); }
    ghost var before := c.objs;
    var t := c.Create(TypeKey(id), LabelsFor(id), AnnotationsFor(json, f), FlavourSpec(f.cpus, f.memory.value));
    if t.Error? { return Error(t.err); }
    ghost var mid := c.objs;
    NamedCreateKeeps(before, InstanceType, id, t.value);
    var p := c.Create(PrefKey(id), LabelsFor(id), AnnotationsFor(json, f), FlavourSpec(0, 0));
    if p.Error? { return Error(p.err); }
    NamedCreateKeeps(mid, Preference, id, p.value);
    r := Ok(id);
  }

  /** CreateFlavour, with the id given, or else the UUID drawn for it: the instance type, then the
      preference. A failed second create leaves the first in place. */
  method CreateFlavour(c: Cluster, json: Codec, f: Flavour, drawn: string) returns (r: Result<string>)
    requires c.Valid() && FlavourInv(c.objs)
    modifies c`objs, c`used, c`faults
    ensures c.Valid() && FlavourInv(c.objs)
    ensures Follows(r, FlavourRefusal(old(c.objs), f, IdFor(f, drawn)), c.faults > old(c.faults))
    ensures r.Ok? ==>
              var id := IdFor(f, drawn);
              && r.value == id == (if f.id != "" then f.id else drawn)
              && f.memory.Some? && TypeKey(id) in c.objs && PrefKey(id) in c.objs
              && c.objs == old(c.objs)[TypeKey(id) := c.objs[TypeKey(id)]][PrefKey(id) := c.objs[PrefKey(id)]]
              && Describes(json, c.objs, f, id)
    ensures r.Error? ==>
              var id := IdFor(f, drawn);
              || c.objs == old(c.objs)
              || (TypeKey(id) !in old(c.objs) && TypeKey(id) in c.objs
                  && c.objs == old(c.objs)[TypeKey(id) := c.objs[TypeKey(id)]])
    ensures forall other :: other != IdFor(f, drawn) ==> SameFlavour(old(c.objs), c.objs, other)
    ensures r.Error? && c.faults == old(c.faults) ==>
              var id := IdFor(f, drawn);
              (TypeKey(id) in c.objs <==> TypeKey(id) in old(c.objs) || (f.cpus != 0 && f.memory.Some?))
  {
    r := CreateBoth(c, json, f, drawn);
    OthersSame(old(c.objs), c.objs, IdFor(f, drawn));
  }

  /** A flavour's two objects are as they were. */
  ghost predicate SameFlavour(before: Objects, after: Objects, id: string) {
    && (TypeKey(id) in before <==> TypeKey(id) in after) && (PrefKey(id) in before <==> PrefKey(id) in after)
    && (TypeKey(id) in after ==> after[TypeKey(id)] == before[TypeKey(id)])
    && (PrefKey(id) in after ==> after[PrefKey(id)] == before[PrefKey(id)])
  }

  lemma OthersSame(before: Objects, after: Objects, id: string)
    requires forall k :: k != TypeKey(id) && k != PrefKey(id) ==>
               (k in before <==> k in after) && (k in after ==> after[k] == before[k])
    ensures forall other :: other != id ==> SameFlavour(before, after, other)
  {
    forall other | other != id ensures SameFlavour(before, after, other) {
      if TypeKey(other) == TypeKey(id) { KeysDiffer(InstanceType, other, id); }
      if PrefKey(other) == PrefKey(id) { KeysDiffer(Preference, other, id); }
    }
  }

  lemma NamedCreateKeeps(objs: Objects, kind: Kind, id: string, o: Obj)
    requires FlavourInv(objs) && (kind == InstanceType || kind == Preference) && o.labels == LabelsFor(id)
    ensures FlavourInv(objs[KeyFor(kind, id) := o])
  {
  }

  /** DeleteAllOf with the managed and flavour-id selector. */
  method DeleteAllOf(c: Cluster, kind: Kind, id: string) returns (r: Result<()>)
    requires c.Valid()
    modifies c`objs, c`faults
    ensures c.Valid()
    ensures r.Ok? ==> forall k :: k in c.objs <==> k in old(c.objs) && !Carries(old(c.objs), k, kind, id)
    ensures forall k :: k in c.objs ==> k in old(c.objs) && c.objs[k] == old(c.objs)[k]
    ensures r.Error? ==> c.objs == old(c.objs) && r.err == Fault
  {
    if * {
      c.faults := c.faults + 1;
      return Error(Fault);
    }
    c.objs := map k | k in c.objs && !Carries(c.objs, k, kind, id) :: c.objs[k];
    r := Ok(());
  }

  method DeleteFlavour(c: Cluster, id: string) returns (r: Result<()>)
    requires c.Valid() && FlavourInv(c.objs)
    modifies c`objs, c`faults
    ensures c.Valid() && FlavourInv(c.objs)
    ensures forall k :: k in c.objs ==> k in old(c.objs) && c.objs[k] == old(c.objs)[k]
    ensures forall k :: k in old(c.objs) && k !in c.objs ==>
              Carries(old(c.objs), k, InstanceType, id) || Carries(old(c.objs), k, Preference, id)
    ensures r.Ok? ==> forall k :: !Carries(c.objs, k, InstanceType, id) && !Carries(c.objs, k, Preference, id)
    ensures forall k :: k in old(c.objs) && Label(old(c.objs)[k].labels, ManagedBy) != "kube-nfv" ==> k in c.objs
    ensures forall other :: other != id ==> SameFlavour(old(c.objs), c.objs, other)
  {
    ghost var before := c.objs;
    r := DeleteAllOf(c, InstanceType, id);
    OthersSame(before, c.objs, id);
    if r.Error? { return; }
    ghost var mid := c.objs;
    assert FlavourInv(mid) && forall k :: !Carries(mid, k, InstanceType, id);
    r := DeleteAllOf(c, Preference, id);
    OthersSame(before, c.objs, id);
  }

  datatype Op = OpCreate(f: Flavour, drawn: string) | OpDelete(id: string)

  /** Any sequence of creates and deletes, each ending in any way, from a store without flavours. */
  method Serve(c: Cluster, json: Codec, ops: seq<Op>)
    requires c.Valid() && forall k, kind, id :: !Carries(c.objs, k, kind, id)
    modifies c`objs, c`used, c`faults
    ensures c.Valid() && FlavourInv(c.objs)
  {
    for i := 0 to |ops|
      invariant c.Valid() && FlavourInv(c.objs)
    {
      match ops[i]
      case OpCreate(f, drawn) =>
        var r := CreateFlavour(c, json, f, drawn);
      case OpDelete(id) =>
        var r := DeleteFlavour(c, id);
    }
  }

  // ---------- reads ----------

  function ToInfo(json: Codec, id: string, t: Obj, pref: Option<Obj>): Result<Info> {
    if !Managed(t) || (pref.Some? && !Managed(pref.value)) then Error(NotManaged)
    else if VOLUMES !in t.annotations || !t.spec.FlavourSpec? then Error(Unreadable)
    else
      var storage := json.parse(t.annotations[VOLUMES]);
      if storage.None? then Error(Unreadable)
      else Ok(Info(id, t.spec.cpus, t.spec.memory, storage.value,
                   if ATTACHED_NAME in t.annotations then Some(t.annotations[ATTACHED_NAME]) else None, t.uid,
                   if pref.Some? then Some(pref.value.uid) else None))
  }

  function ObjAt(objs: Objects, kind: Kind, id: string): Option<Obj> {
    if Carries(objs, KeyFor(kind, id), kind, id) then Some(objs[KeyFor(kind, id)]) else None
  }

  /** The flavour with an id, looked up by name. */
  function FlavourBy(json: Codec, objs: Objects, id: string): Result<Info> {
    var t := ObjAt(objs, InstanceType, id);
    if t.None? then Error(NotFound) else ToInfo(json, id, t.value, ObjAt(objs, Preference, id))
  }

  /** List by label: keep what carries the id. */
  method Select(c: Cluster, kind: Kind, id: string) returns (r: Result<seq<Key>>)
    modifies c`faults
    ensures r.Ok? ==> NoDup(r.value) && c.faults == old(c.faults)
    ensures r.Ok? ==> forall k :: k in r.value <==> Carries(c.objs, k, kind, id)
    ensures r.Error? ==> r.err == Fault && c.faults > old(c.faults)
  {
    var list := c.List(kind);
    if list.Error? { return Error(list.err); }
    var keys := list.value;
    var sel: seq<Key> := [];
    for i := 0 to |keys|
      invariant NoDup(sel) && forall k :: k in sel <==> k in keys[..i] && Carries(c.objs, k, kind, id)
    {
      assert keys[..i + 1] == keys[..i] + [keys[i]];
      if Carries(c.objs, keys[i], kind, id) { sel := sel + [keys[i]]; }
    }
    assert keys[..|keys|] == keys;
    r := Ok(sel);
  }

  lemma SelectedIsNamed(objs: Objects, kind: Kind, id: string, sel: seq<Key>)
    requires FlavourInv(objs) && (kind == InstanceType || kind == Preference)
    requires NoDup(sel) && forall k :: k in sel <==> Carries(objs, k, kind, id)
    ensures |sel| <= 1
    ensures sel == [] ==> ObjAt(objs, kind, id) == None
    ensures sel != [] ==> sel[0] in objs && ObjAt(objs, kind, id) == Some(objs[sel[0]])
  {
    forall i | 0 <= i < |sel| ensures sel[i] == KeyFor(kind, id) {
      assert sel[i] in sel;
      AtMostOne(objs, kind, id, sel[i], sel[i]);
    }
    OneOfTwoDiffers(sel, KeyFor(kind, id));
    assert Carries(objs, KeyFor(kind, id), kind, id) <==> KeyFor(kind, id) in sel;
  }

  lemma OneOfTwoDiffers(sel: seq<Key>, k: Key)
    requires NoDup(sel)
    ensures |sel| <= 1 || exists i :: 0 <= i < |sel| && sel[i] != k
  {
    if |sel| > 1 {
      assert sel[0] != sel[1];
      assert sel[0] != k || sel[1] != k;
    }
  }

  function WithoutPref(r: Result<Info>): Result<Info> {
    if r.Ok? then Ok(r.value.(pref := None)) else r
  }

  /** GetFlavour. The answer "multiple flavours" is an invalid argument; it cannot be given. A
      preference listing that fails counts as no preference. */
  method GetFlavour(c: Cluster, json: Codec, id: string) returns (r: Result<Info>)
    requires c.Valid() && FlavourInv(c.objs)
    modifies c`faults
    ensures c.faults == old(c.faults) ==> r == if id == "" then Error(InvalidArgument) else FlavourBy(json, c.objs, id)
    ensures c.faults != old(c.faults) ==> r == Error(Fault) || r == WithoutPref(FlavourBy(json, c.objs, id))
  {
    if id == "" { return Error(InvalidArgument); }
    var ts := Select(c, InstanceType, id);
    if ts.Error? { return Error(ts.err); }
    SelectedIsNamed(c.objs, InstanceType, id, ts.value);
    if |ts.value| == 0 { return Error(NotFound); }
    var ps := Select(c, Preference, id);
    var pref: Option<Obj> := None;
    if ps.Ok? {
      SelectedIsNamed(c.objs, Preference, id, ps.value);
      if |ps.value| == 1 { pref := Some(c.objs[ps.value[0]]); }
    }
    r := ToInfo(json, id, c.objs[ts.value[0]], pref);
  }

  /** The preference that GetFlavours joins to an instance type: the first with the same id. */
  method JoinPref(c: Cluster, prefs: seq<Key>, id: string) returns (pref: Option<Obj>)
    requires IsListing(c.objs, Preference, prefs) && FlavourInv(c.objs)
    ensures pref == ObjAt(c.objs, Preference, id)
  {
    for i := 0 to |prefs|
      invariant forall h :: 0 <= h < i ==> !Carries(c.objs, prefs[h], Preference, id)
    {
      if Carries(c.objs, prefs[i], Preference, id) {
        AtMostOne(c.objs, Preference, id, prefs[i], prefs[i]);
        return Some(c.objs[prefs[i]]);
      }
    }
    pref := None;
  }

  /** The instance type carries what a flavour needs. */
  predicate Readable(json: Codec, o: Obj) {
    FlavourId in o.labels && VOLUMES in o.annotations && json.parse(o.annotations[VOLUMES]).Some? && o.spec.FlavourSpec?
  }

  /** A list entry is what GetFlavour by its id answers. */
  predicate IsEntry(json: Codec, objs: Objects, k: Key, info: Info) {
    Carries(objs, k, InstanceType, info.id) && FlavourBy(json, objs, info.id) == Ok(info)
  }

  lemma JoinedIsEntry(json: Codec, objs: Objects, k: Key, id: string)
    requires FlavourInv(objs) && Carries(objs, k, InstanceType, id)
    ensures var r := ToInfo(json, id, objs[k], ObjAt(objs, Preference, id));
            && (r.Ok? <==> Readable(json, objs[k]))
            && (r.Ok? ==> IsEntry(json, objs, k, r.value))
  {
    AtMostOne(objs, InstanceType, id, k, k);
  }

  ghost predicate AllReadable(json: Codec, objs: Objects) {
    forall k :: Visible(objs, k) && k.kind == InstanceType ==> Readable(json, objs[k])
  }

  /** The nested loop of GetFlavours over two listings. */
  method JoinAll(c: Cluster, json: Codec, types: seq<Key>, prefs: seq<Key>) returns (r: Result<seq<Info>>)
    requires IsListing(c.objs, InstanceType, types) && IsListing(c.objs, Preference, prefs) && FlavourInv(c.objs)
    ensures r.Ok? <==> forall i :: 0 <= i < |types| ==> Readable(json, c.objs[types[i]])
    ensures r.Ok? ==> |r.value| == |types|
    ensures r.Ok? ==> forall i :: 0 <= i < |types| ==> IsEntry(json, c.objs, types[i], r.value[i])
  {
    var infos: seq<Info> := [];
    for i := 0 to |types|
      invariant |infos| == i
      invariant forall h :: 0 <= h < i ==> Readable(json, c.objs[types[h]])
      invariant forall h :: 0 <= h < i ==> IsEntry(json, c.objs, types[h], infos[h])
    {
      var t := c.objs[types[i]];
      if FlavourId !in t.labels { return Error(InvalidArgument); }
      var id := t.labels[FlavourId];
      var pref := JoinPref(c, prefs, id);
      var info := ToInfo(json, id, t, pref);
      JoinedIsEntry(json, c.objs, types[i], id);
      if info.Error? { return Error(info.err); }
      infos := infos + [info.value];
    }
    r := Ok(infos);
  }

  /** GetFlavours: every managed instance type joined with its preference in memory. A single
      unreadable one fails the whole list. */
  method GetFlavours(c: Cluster, json: Codec) returns (r: Result<seq<Info>>, ghost keys: seq<Key>)
    requires c.Valid() && FlavourInv(c.objs)
    modifies c`faults
    ensures c.faults >= old(c.faults)
    ensures r.Error? <==> c.faults > old(c.faults) || !AllReadable(json, c.objs)
    ensures r.Ok? ==> IsListing(c.objs, InstanceType, keys) && |r.value| == |keys|
    ensures r.Ok? ==> forall i :: 0 <= i < |keys| ==> IsEntry(json, c.objs, keys[i], r.value[i])
  {
    keys := [];
    var ts := c.List(InstanceType);
    if ts.Error? { return Error(ts.err), keys; }
    var ps := c.List(Preference);
    if ps.Error? { return Error(ps.err), keys; }
    keys := ts.value;
    r := JoinAll(c, json, ts.value, ps.value);
  }

  // ---------- create, then read ----------

  /** The volumes text that ends up in the store. */
  function VolumesText(json: Codec, f: Flavour): string {
    if VOLUMES in f.metadata then f.metadata[VOLUMES] else json.render(f.storage)
  }

  /** A created flavour reads back at all exactly when the volumes text still parses, and then with its
      CPU count, memory and preference; its storage comes back exactly when the text parses to it. */
  lemma CreatedReadsBack(json: Codec, objs: Objects, f: Flavour, id: string)
    requires Faithful(json) && Describes(json, objs, f, id)
    ensures var r, text := FlavourBy(json, objs, id), VolumesText(json, f);
            && (r.Ok? <==> json.parse(text).Some?) && (r.Ok? <==> Readable(json, objs[TypeKey(id)]))
            && (r.Error? ==> r == Error(Unreadable))
            && (r.Ok? ==> r.value.cpus == f.cpus && r.value.memory == f.memory.value
                          && r.value.pref == Some(objs[PrefKey(id)].uid))
            && (r.Ok? ==>
                  r.value.attached == if ATTACHED_NAME in f.metadata then Some(f.metadata[ATTACHED_NAME]) else None)
            && (r.Ok? && r.value.storage == f.storage <==> json.parse(text) == Some(f.storage))
    ensures forall a :: a in f.metadata ==>
              a in objs[TypeKey(id)].annotations && objs[TypeKey(id)].annotations[a] == f.metadata[a]
    ensures VOLUMES !in f.metadata ==>
              FlavourBy(json, objs, id).Ok? && FlavourBy(json, objs, id).value.storage == f.storage
  {
    assert Carries(objs, TypeKey(id), InstanceType, id) && Carries(objs, PrefKey(id), Preference, id);
    assert json.parse(json.render(f.storage)) == Some(f.storage);
  }
}
