/** The Kubernetes object store that every manager works against.

    kube-vim keeps no state of its own (docs/k8s-client-caching.md:28-32): each manager turns
    a request into Create/Get/List/Patch/Delete calls on this store. An object is keyed by kind
    and name (all namespaced kinds live in the one configured namespace), carries a UID that is
    never reused, labels, annotations and a spec. `Status.Subnets`, which the kube-OVN
    controller fills in on its own schedule, is kept apart from the objects.
 */
module Kube {
  import opened Cidr

  type Uid = string
  /** The label keys kube-vim writes; any other key is `Other`. */
  datatype LabelKey =
    | ManagedBy
    | NetworkName
    | NetworkId
    | NetworkType
    | SubnetName
    | SubnetNetAttach
    | ImageId
    | DataVolumeId
    | FlavourId
    | Other(key: string)

  type Labels = map<LabelKey, string>
  type Annotations = map<string, string>

  datatype Option<+T> = None | Some(value: T)

  datatype Result<+T> = Ok(value: T) | Error(err: Err) {
    /** True for both not-found errors: the application's own type and the API server's. */
    predicate IsNotFound() {
      Error? && (err.NotFound? || err.ApiNotFound?)
    }
  }

  /** What a call can fail with. `Fault` is any failure of the API call itself (network,
      timeout, cancelled context, admission); `Unreadable` is stored text that is missing or does not
      parse; `Panic` is a Go run-time panic. */
  datatype Err =
    | NotFound
    | ApiNotFound
    | AlreadyExists
    | NotManaged
    | InvalidArgument
    | Unsupported
    | IpamMissing
    | Unreadable
    | Fault
    | Panic

  datatype Kind = Vpc | Vlan | Subnet | Nad | ImportSource | DataVolume | InstanceType | Preference

  datatype Key = Key(kind: Kind, name: string)

  datatype Spec =
    | VpcSpec
    | VlanSpec(id: int, provider: string)
    | SubnetSpec(protocol: string, dhcp: bool, cidr: Prefix, gateway: string, vpc: string, vlan: string)
    | NadSpec(config: string)
    | ImportSpec(url: string)
    | VolumeSpec(source: string)
    | FlavourSpec(cpus: nat, memory: int)

  datatype Obj = Obj(uid: Uid, labels: Labels, annotations: Annotations, spec: Spec)

  type Objects = map<Key, Obj>

  const KUBE_NFV := "kube-nfv"

  /** Merge patch of labels (section 2 of RFC 7396): only the keys in `changes` are touched. */
  function Patched(o: Obj, changes: Labels): Obj {
    o.(labels := o.labels + changes)
  }

  /** A write's answer against its reason to refuse: determined unless an API call was lost. */
  predicate Follows<T>(r: Result<T>, refusal: Option<Err>, lost: bool) {
    if lost then r.Error? else if refusal.Some? then r == Error(refusal.value) else r.Ok?
  }

  predicate Managed(o: Obj) {
    ManagedBy in o.labels && o.labels[ManagedBy] == KUBE_NFV
  }

  predicate IsHex(c: char) {
    '0' <= c <= '9' || 'a' <= c <= 'f' || 'A' <= c <= 'F'
  }

  predicate IsHyphenated(s: string) {
    |s| == 36 && forall i :: 0 <= i < 36 ==>
      if i == 8 || i == 13 || i == 18 || i == 23 then s[i] == '-' else IsHex(s[i])
  }

  predicate IsUrnPrefix(s: string) {
    |s| == 9 && forall i :: 0 <= i < 9 ==> s[i] == "urn:uuid:"[i] || s[i] == "URN:UUID:"[i]
  }

  /** The spellings that uuid.Parse takes: hyphenated, bare, as a URN, and between any two characters
      (meant for braces, which are not looked at). */
  predicate IsUuid(s: string) {
    || IsHyphenated(s)
    || (|s| == 32 && forall i :: 0 <= i < 32 ==> IsHex(s[i]))
    || (|s| == 38 && IsHyphenated(s[1..37]))
    || (|s| == 45 && IsUrnPrefix(s[..9]) && IsHyphenated(s[9..]))
  }

  /** One UUID in its spellings; a text of any other length, or with no hexadecimal digit in the first
      place of a hyphenated one, is none. */
  lemma UuidSpellings(u: string, open: char, close: char)
    requires IsHyphenated(u)
    ensures IsUuid(u) && IsUuid([open] + u + [close]) && IsUuid("urn:uuid:" + u) && IsUuid("URN:UUID:" + u)
    ensures IsUuid(u[..8] + u[9..13] + u[14..18] + u[19..23] + u[24..])
    ensures forall s: string :: |s| !in {32, 36, 38, 45} ==> !IsUuid(s)
    ensures forall s: string :: |s| == 36 && (s[0] == '-' || s[8] != '-' || s[35] == 'g') ==> !IsUuid(s)
  {
    assert ([open] + u + [close])[1..37] == u;
    assert ("urn:uuid:" + u)[9..] == u && ("urn:uuid:" + u)[..9] == "urn:uuid:";
    assert ("URN:UUID:" + u)[9..] == u && ("URN:UUID:" + u)[..9] == "URN:UUID:";
  }

  /** No name is empty; UIDs are UUIDs, pairwise distinct, and all recorded as used. */
  ghost predicate UidsOk(objs: Objects, used: set<Uid>) {
    && (forall k :: k in objs ==> k.name != "" && objs[k].uid in used && IsUuid(objs[k].uid))
    && forall j, k :: j in objs && k in objs && objs[j].uid == objs[k].uid ==> j == k
  }

  /** Reads go through a cache that holds only objects labelled as kube-nfv's own. */
  predicate Visible(objs: Objects, k: Key) {
    k in objs && Managed(objs[k])
  }

  /** A listing: every visible key of the kind exactly once, in an order the caller cannot predict. */
  ghost predicate IsListing(objs: Objects, kind: Kind, keys: seq<Key>) {
    && (forall i :: 0 <= i < |keys| ==> keys[i].kind == kind && Visible(objs, keys[i]))
    && (forall k :: Visible(objs, k) && k.kind == kind ==> k in keys)
    && NoDup(keys)
  }

  ghost predicate NoDup<T>(s: seq<T>) {
    forall i, j :: 0 <= i < j < |s| ==> s[i] != s[j]
  }

  /** The API server with its store. Every call may fail without effect. */
  class Cluster {
    var objs: Objects
    var used: set<Uid>
    /** `Status.Subnets` of each Vpc and Vlan, as the kube-OVN controller last wrote it. */
    var status: map<Key, seq<string>>
    /** How many calls have failed for no reason of their own. */
    ghost var faults: nat

    ghost predicate Valid()
      reads this
    {
      UidsOk(objs, used)
    }

    constructor ()
      ensures Valid() && objs == map[] && used == {} && status == map[] && faults == 0
    {
      objs, used, status, faults := map[], {}, map[], 0;
    }

    /** Create: refused when the name is taken; a fresh UID otherwise. */
    method Create(key: Key, labels: Labels, annotations: Annotations, spec: Spec) returns (r: Result<Obj>)
      requires Valid()
      modifies `objs, `used, `faults
      ensures Valid() && old(used) <= used
      ensures r.Ok? ==>
                && key !in old(objs)
                && r.value.uid !in old(used)
                && r.value == Obj(r.value.uid, labels, annotations, spec)
                && objs == old(objs)[key := r.value]
                && faults == old(faults)
      ensures r.Error? ==> objs == old(objs) && r.err in {AlreadyExists, Fault}
      ensures r == Error(AlreadyExists) ==> key in old(objs) && faults == old(faults)
      ensures r == Error(Fault) ==> faults == old(faults) + 1
    {
      if key in objs {
        return Error(AlreadyExists);
      }
      var uid: Uid, lost: bool := *, *;
      if lost || key.name == "" || uid in used || !IsUuid(uid) {
        faults := faults + 1;
        return Error(Fault);
      }
      var o := Obj(uid, labels, annotations, spec);
      objs := objs[key := o];
      used := used + {uid};
      r := Ok(o);
    }

    /** Delete by name: refused when absent; otherwise the object is gone at once. */
    method Delete(key: Key) returns (r: Result<()>)
      requires Valid()
      modifies `objs, `faults
      ensures Valid()
      ensures r.Ok? ==> key in old(objs) && objs == old(objs) - {key} && faults == old(faults)
      ensures r.Error? ==> objs == old(objs) && r.err in {ApiNotFound, Fault}
      ensures r == Error(ApiNotFound) ==> key !in old(objs) && faults == old(faults)
      ensures r == Error(Fault) ==> faults == old(faults) + 1
    {
      if key !in objs {
        return Error(ApiNotFound);
      }
      if * {
        faults := faults + 1;
        return Error(Fault);
      }
      objs := objs - {key};
      r := Ok(());
    }

    /** Cached read by name. */
    method Get(key: Key) returns (r: Result<Obj>)
      modifies `faults
      ensures r.Ok? ==> Visible(objs, key) && r.value == objs[key] && faults == old(faults)
      ensures r == Error(ApiNotFound) ==> !Visible(objs, key) && faults == old(faults)
      ensures r.Error? ==> r.err in {ApiNotFound, Fault}
      ensures r == Error(Fault) ==> faults == old(faults) + 1
    {
      if * {
        faults := faults + 1;
        return Error(Fault);
      }
      r := if Visible(objs, key) then Ok(objs[key]) else Error(ApiNotFound);
    }

    /** Cached listing of the managed objects of one kind. */
    method List(kind: Kind) returns (r: Result<seq<Key>>)
      modifies `faults
      ensures r.Ok? ==> IsListing(objs, kind, r.value) && faults == old(faults)
      ensures r.Error? ==> r.err == Fault && faults == old(faults) + 1
    {
      if * {
        faults := faults + 1;
        return Error(Fault);
      }
      var rest := set k | k in objs && k.kind == kind && Managed(objs[k]);
      var keys: seq<Key> := [];
      while rest != {}
        invariant forall k :: k in rest ==> k.kind == kind && Visible(objs, k) && k !in keys
        invariant forall k :: Visible(objs, k) && k.kind == kind ==> k in rest || k in keys
        invariant forall i :: 0 <= i < |keys| ==> keys[i].kind == kind && Visible(objs, keys[i])
        invariant NoDup(keys)
        decreases |rest|
      {
        var k :| k in rest;
        keys := keys + [k];
        rest := rest - {k};
      }
      r := Ok(keys);
    }
  }
}
