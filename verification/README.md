# kube-vim verification

kube-vim is a stateless virtualised infrastructure manager: it turns ETSI NFV requests into
Create/Get/List/Patch/Delete calls on Kubernetes objects. This project models the multi-object
protocols behind those requests and proves what they keep, in Dafny. `dafny verify dfyconfig.toml`
checks everything.

One store model is shared by all parts (`Kube.dfy`): objects keyed by kind and name with a UID that is
never reused, labels, annotations and a spec; create refuses a taken name, delete is immediate, a patch
touches only the keys it names, any call may fail without effect, and cached reads see managed objects
only (internal/k8s/cluster.go:19-35).

| file | what it models |
|---|---|
| `SubnetToken.dfy` | CreateSubnet and DeleteSubnet under every interleaving |
| `NetworkRace.dfy` | CreateSubnet against DeleteNetwork under every interleaving |
| `Networks.dfy`, `KubeOvn.dfy`, `KubeOvnCreate.dfy` | the kube-OVN manager: lookups, deletions, creations with roll-back |
| `SriovNetworks.dfy` | the SR-IOV backend and its CNI configuration |
| `NetworkRuns.dfy`, `NetworkReads.dfy`, `Composite.dfy` | whole runs, termination by UID, list against get, the subnet selectors, the composite manager |
| `Cidr.dfy` | membership of an address in a CIDR block |
| `Ipam.dfy`, `ReadBack.dfy` | interface requests compiled into a VM, and a VM read back into vNICs |
| `ManagementNetwork.dfy` | the management network reconciler under every interleaving |
| `Quantity.dfy` | the gateway's marshaler for Kubernetes quantities |
| `ImageDownload.dfy` | the image download saga under every interleaving |
| `Computes.dfy`, `Flavours.dfy`, `Errors.dfy` | the compute list as a join, the flavour lifecycle, error conversion |

## How to read it

Concurrent protocols (`SubnetToken`, `NetworkRace`, `ManagementNetwork`, `ImageDownload`) are state
machines: a program counter per caller, one atomic step per API call, and theorems over every state of
every run.

Sequential operations are methods on a `Cluster` object whose store they change. A call that fails for no
reason of its own counts in the ghost field `faults`, so "unless a call is lost" is `faults` unchanged.
`LabelInv` (every managed subnet is labelled with its own name, converts and has its NAD) is kept by every
operation in every outcome and is their common precondition, like a class invariant. `RefInv` (every
managed subnet names an existing network of its type and carries its UID) needs the kube-OVN controller to
have caught up. `Status.Subnets` is the controller's: it is rewritten before every read that precedes a
write, in whatever way (`Distinct`: no name twice). `Lagging` listings name only a network's own subnets,
`Settled` ones are complete too. It is kept apart from the objects, so a restored store is plain equality.

Names are structured where the code formats strings: label keys are a datatype, and a VM annotation is a
NAD name with a field.

## Where the code and its comments differ

- An IPAM entry with a static address and no subnet id should be placed on the subnet that holds the
  address (internal/kubevim/compute/kubevirt/ipam.go:184-187). The code writes through a pointer it has
  just found to be nil (line 205), so such a request never succeeds: `Ipam.StaticNeverResolves`, `Ipam.StaticPanicsIff`.
- The branch that deletes a subnet whose conversion failed (internal/kubevim/network/kubeovn/manager.go:393-398)
  cannot be taken: `KubeOvnCreate.CreatedSubnetConverts`.
- CreateNetwork attaches its subnets by the new network's name. Where another network has that name it can
  return success with the subnets on the other one: `KubeOvnCreate.SubnetLandsIff` says exactly when,
  `NetworkRuns.SubnetsCanLandElsewhere` shows both ways.
- The error of a failed CreateNetwork says that its resources were cleaned up. They are only as far as the
  controller has listed them: `KubeOvnCreate.RestoredIff` says exactly when nothing is left. The roll-back
  goes by name and can remove an older network instead of the new one: `NetworkRuns.RollBackHits` says
  exactly when, `NetworkRuns.RollBackMisses` shows both ways.
- CreateSubnet and DeleteNetwork on one network can leave a subnet that names a network that is gone:
  `NetworkRace.RaceBreaksRefs`, with the exact condition in `NetworkRace.StepKeepsRefsIff`.
- DeleteNetwork takes whatever the status lists, also a subnet that has gone over to another network:
  `NetworkRuns.StaleListingTakesOther`, `KubeOvn.DeletionSparesOthersIff`.
- A network whose status lists a subnet that is gone is not found although it is there:
  `NetworkRuns.NotFoundMeansAbsent`.
- A Quantity below a map field is lost by the gateway: `Quantity.RoundTripExact`.
- Caller metadata can overwrite a flavour's volumes annotation; if the text then does not parse, that flavour
  and the list of all flavours can no longer be read: `Flavours.CreatedReadsBack`, `Flavours.GetFlavours`.

## Model

| member | source | states |
|---|---|---|
| SubnetToken.NadIsToken | internal/kubevim/network/kubeovn/manager.go:362-400 | in every interleaving of any number of creators and deleters, at every step and for every subnet name: subnet (0/1) + callers between their two calls + leftover NAD (0/1) = NAD (0/1), so the NAD is a mutual-exclusion token |
| SubnetToken.SubnetHasItsNad | internal/kubevim/network/kubeovn/manager.go:476-495 | a subnet that exists always has its NAD, and it is the NAD object created together with it, not a later one of the same name |
| SubnetToken.DeletesOnlyItsOwnNad | internal/kubevim/network/kubeovn/manager.go:382-391 | clean-up and detach delete by name, yet always remove the NAD with the UID the same call (or the deleted subnet's creator) made |
| SubnetToken.HolderIsNeverRefused | internal/kubevim/network/kubeovn/manager.go:376-391 | between its two calls a creator never finds the subnet name taken and no caller finds its NAD gone |
| SubnetToken.OrphansNeedAFailure | internal/kubevim/network/kubeovn/manager.go:382-391 | a NAD is left behind only by a caller that stopped, or whose last call failed, while it held the name |
| SubnetToken.OrphanBlocksName | internal/kubevim/network/kubeovn/manager.go:376-391 | a NAD left behind blocks its subnet name for good: the very object stays, the subnet never exists and no creation under the name gets past its first call |
| SubnetToken.QuietStateIsPaired | internal/kubevim/network/kubeovn/manager.go:476-495 | without such a failure, whenever all callers are idle NADs and subnets match one to one |
| SubnetToken.InvStep | internal/kubevim/network/kubeovn/manager.go:362-495 | every atomic step of every caller, with stale reads, keeps the protocol invariant |
| NetworkRace.StepKeepsRefsIff | internal/kubevim/network/kubeovn/manager.go:303-400 | with CreateSubnet and DeleteNetwork interleaved and any reads as stale as can be, a step keeps every subnet's network reference good if and only if a subnet is written while the network read is still there, or a network goes when no managed subnet is on it |
| NetworkRace.RunKeepsRefsIff | internal/kubevim/network/kubeovn/manager.go:303-400 | over every run the references stay good throughout if and only if every step was of that kind |
| NetworkRace.ExclusiveRunKeepsRefs | internal/kubevim/network/kubeovn/manager.go:303-400 | in every run whose reads are fresh and whose deletions exclude other callers of their network, the references are good at every step |
| NetworkRace.RaceBreaksRefs | internal/kubevim/network/kubeovn/manager.go:331-400 | without exclusion, a run in which every call succeeds, every read is fresh and a subnet names a network that is gone |
| NetworkRace.StaleReadBreaksRefs | internal/kubevim/network/kubeovn/manager.go:331-400 | with exclusion but a stale cached read, the same |
| NetworkLabels.NadNameInjective | internal/kubevim/network/kubeovn/utils.go:283-285 | the derived NAD name determines the subnet name |
| KubeOvn.ReadNetwork | internal/kubevim/network/kubeovn/manager.go:139-239 | GetNetwork: Vpc first, Vlan on any not-found, subnet ids resolved through Status.Subnets with the first error; a lost call is the only other answer |
| KubeOvn.ReadSubnetByUid | internal/kubevim/network/kubeovn/manager.go:414-430 | the search of the managed subnets returns the one with the UID, or not found |
| Kube.UuidSpellings | internal/misc/utils.go:5-8 | the spellings of a UUID that the parser takes, and texts it does not |
| KubeOvn.ReadSubnetByNad | internal/kubevim/network/kubeovn/manager.go:431-443 | the NAD's subnet label leads to the subnet; a NAD without it is an invalid argument |
| NetworkReads.ReadSubnetByIp | internal/kubevim/network/kubeovn/manager.go:444-455 | some subnet of the network holding the address, not found only if none does, a fault exactly for a lost call, and a nil dereference only if a managed subnet has no network id; for every listing order |
| NetworkReads.PanicsIff | internal/kubevim/network/kubeovn/manager.go:450-453 | where no subnet holds the address the code dereferences nil if and only if some managed subnet has no network id |
| NetworkReads.UnattachedIsNotNetworked | internal/kubevim/network/kubeovn/manager.go:331-343 | one CreateSubnet without a network id leads to such a store |
| NetworkReads.AddressDecides | internal/kubevim/network/kubeovn/manager.go:444-455 | where a network's subnets do not overlap the answer does not depend on the listing order |
| NetworkReads.SelectorsAgree | internal/kubevim/network/kubeovn/manager.go:402-457 | after a successful CreateSubnet under a network the four selectors (name, UID, NAD, network with any address of the block) return the same subnet |
| NetworkReads.ListNetworks | internal/kubevim/network/kubeovn/manager.go:241-299 | every managed Vpc and Vlan exactly once, each entry resolved from one index of all managed subnets; fails only for a lost call or a listed subnet that is not there |
| NetworkReads.EntryRefinesGet | internal/kubevim/network/kubeovn/manager.go:251-299 | a list entry equals GetNetwork by its UID whenever that succeeds, which it does exactly when every listed subnet converts |
| Networks.SubnetIdsOf | internal/kubevim/network/kubeovn/manager.go:182-189 | the ids are those of the listed subnets in order, and an error is that of one of them |
| Cidr.ContainsIsInterval | internal/kubevim/network/utils.go:9-22 | prefix match is an interval test |
| Cidr.NestedOrDisjoint | internal/kubevim/network/utils.go:9-22 | two prefixes that share an address are nested (section 3.1 of RFC 4632) |
| Cidr.ContainsIsLeadingBits | internal/kubevim/network/utils.go:9-22 | an address is in a block if and only if the families agree and the first bits, as many as the prefix length says of 32 or 128, are the same |
| Cidr.ValidIff | internal/kubevim/network/utils.go:9-22 | a parsed block has at most 32 or 128 prefix bits and a base of that many |
| Cidr.ByteBlock | internal/kubevim/network/utils.go:9-22 | a block that leaves one byte open holds what differs in the last byte only |
| KubeOvn.DeleteSubnet | internal/kubevim/network/kubeovn/manager.go:476-495 | removes exactly the subnet with the UID and its NAD; a failure leaves all, or all but the Subnet; not found exactly if no managed subnet has the UID |
| KubeOvn.DeleteNetwork | internal/kubevim/network/kubeovn/manager.go:303-327 | success removes exactly the network found, its listed subnets and their NADs; a failure keeps the network and removes only some of these; every other error leaves the store alone |
| KubeOvn.DeletionKeepsRefs | internal/kubevim/network/kubeovn/manager.go:303-327 | however a deletion that read a complete listing ends, every managed subnet still names an existing network with the right type and UID |
| KubeOvn.DeletionSparesOthersIff | internal/kubevim/network/kubeovn/manager.go:308-314 | deleting a network spares the subnets of all others if and only if its listing names only its own |
| KubeOvn.DeletionSparesForeign | internal/kubevim/network/kubeovn/manager.go:303-327 | however DeleteNetwork ends, objects not labelled as managed by kube-nfv stay as they are |
| KubeOvn.SubnetDeletionSparesForeign | internal/kubevim/network/kubeovn/manager.go:476-495 | nor does DeleteSubnet touch them |
| NetworkRuns.StaleListingTakesOther | internal/kubevim/network/kubeovn/manager.go:308-314 | with a stale listing, deleting Vpc "a" removes a subnet that is now on Vpc "b" |
| Networks.NetworkDropKeepsRefsIff | internal/kubevim/network/kubeovn/manager.go:308-322 | deleting a network with its listed subnets keeps all references good if and only if the status listed all its managed subnets |
| Networks.DropKeepsLabels | internal/kubevim/network/kubeovn/manager.go:481-493 | removing subnets with the NADs their labels name leaves every other subnet its NAD |
| KubeOvnCreate.CreateSubnet | internal/kubevim/network/kubeovn/manager.go:331-400 | success adds exactly the NAD and the Subnet, labelled and attached to the network found; failure adds nothing, or only the NAD if the clean-up was lost too; unless a call is lost it fails exactly if the network is not found, the data is bad or a name is taken, with that error |
| KubeOvnCreate.CreatedSubnetConverts | internal/kubevim/network/kubeovn/manager.go:393-398 | a created subnet always converts, so the branch that deletes it again is never taken |
| NetworkReads.CreatedAsAsked | internal/kubevim/network/kubeovn/utils.go:145-277 | a created subnet reads back with the IP version, DHCP (on unless switched off), gateway and block asked for, its names and its network's type |
| KubeOvnCreate.CreateSubnetKeepsRefs | internal/kubevim/network/kubeovn/manager.go:351-361 | however CreateSubnet ends, every reference stays good |
| KubeOvnCreate.AllocateL3 | internal/kubevim/network/kubeovn/manager.go:70-89 | one subnet per attribute, named by index, each on exactly the network its own look-up found, up to the first one that is refused, whose error it returns; the store grows by exactly these pairs, and a NAD whose clean-up was lost |
| KubeOvnCreate.CreateNetwork | internal/kubevim/network/kubeovn/manager.go:91-135 | refused with bad data or a taken name and an unchanged store; or the network and one subnet per attribute, ids in order, each subnet on the network its look-up found; or given up at the first subnet refused, after a DeleteNetwork by name whose every outcome is stated |
| KubeOvnCreate.CreateNetworkSucceeds | internal/kubevim/network/kubeovn/manager.go:70-135 | valid attributes that name no other network, free names, no lost call and a new network that answers each look-up: CreateNetwork returns it with one subnet per attribute |
| KubeOvnCreate.SubnetNamesDiffer | internal/kubevim/network/kubeovn/utils.go:279-281 | the subnets of one network have different names |
| KubeOvnCreate.ItoaIsDecimal | internal/kubevim/network/kubeovn/manager.go:80 | the index in a subnet's name is its decimal text |
| KubeOvnCreate.MadeAsAsked | internal/kubevim/network/kubeovn/manager.go:51-66 | the network is of the kind asked for, overlay if none is, under its name and with its object's UID |
| KubeOvnCreate.SubnetLandsAsNamed | internal/kubevim/network/kubeovn/manager.go:331-361 | an attribute that names a network gets its subnet there: by UID if it looks like one, else by name |
| KubeOvnCreate.SubnetLandsIff | internal/kubevim/network/kubeovn/manager.go:75-81 | a subnet made for the new network by its name is attached to it if and only if, at that subnet's look-up, the new network answers and no Vpc of the name hides it; otherwise it is on the older network of the name |
| KubeOvnCreate.LandsElsewhere | internal/kubevim/network/kubeovn/manager.go:331-361 | wherever the name means another network, CreateNetwork with a valid attribute succeeds with its subnet there |
| NetworkRuns.SubnetsCanLandElsewhere | internal/kubevim/network/kubeovn/manager.go:75-81 | both ways happen, with every call succeeding: a Vlan behind a Vpc, and a Vpc whose listing names a missing subnet |
| KubeOvnCreate.AllOrNothing | internal/kubevim/network/kubeovn/manager.go:91-135 | in a settled store and with no clean-up call lost, an undisturbed CreateNetwork makes the network with a subnet per attribute or leaves the store exactly as it began |
| KubeOvnCreate.RestoredIff | internal/kubevim/network/kubeovn/manager.go:99-104 | with no clean-up call lost, the store after an undisturbed failure is the initial one if and only if the controller had listed exactly the subnets this call created |
| KubeOvnCreate.FailureKeepsPrior | internal/kubevim/network/kubeovn/manager.go:99-104 | however an undisturbed call fails and whatever calls its roll-back lost, under a listing that names no earlier subnet every earlier object is unchanged, and nothing is left besides but the new network, its pairs and the NAD of a lost clean-up |
| KubeOvnCreate.PriorKeptIff | internal/kubevim/network/kubeovn/manager.go:99-104 | a roll-back that succeeds keeps all earlier objects if and only if the listing it read names no earlier subnet |
| KubeOvnCreate.UndoLeavesUnlisted | internal/kubevim/network/kubeovn/manager.go:99-104 | after a roll-back that succeeded: the initial store plus exactly the pairs the controller had not listed and the NAD of a lost clean-up; equal to the initial store if and only if there are none |
| KubeOvnCreate.ListedWereCreated | internal/kubevim/network/kubeovn/manager.go:99-104 | under such a listing every listed subnet that is there was created by this call |
| KubeOvnCreate.SegmentationSurvives | internal/kubevim/network/kubeovn/utils.go:107-138 | the segmentation id reads back for every 64-bit value, zero if absent, and the provider too |
| NetworkRuns.Serve | internal/kubevim/network/kubeovn/manager.go:303-400 | over every sequence of OVN and SR-IOV network operations ending in any way: labels and NADs stay right, and while deletions read settled listings every managed subnet names an existing network of its type and carries its UID |
| Networks.NameMeansIff | internal/kubevim/network/kubeovn/manager.go:139-152 | a name means a network if and only if that network answers (visible, all its listed subnets there) and, for a Vlan, no Vpc of the name answers |
| NetworkRuns.RollBackHits | internal/kubevim/network/kubeovn/manager.go:99-104 | a roll-back of CreateNetwork that reports success removes the new network exactly under that condition, and otherwise an older network of the other kind, leaving the new one |
| NetworkRuns.RollBackHitsOlderVpc | internal/kubevim/network/kubeovn/manager.go:123-128 | a new Vlan behind an answering Vpc: the older Vpc goes and the new Vlan stays |
| NetworkRuns.RollBackHitsOlderVlan | internal/kubevim/network/kubeovn/manager.go:141-149 | a new Vpc whose status lists a subnet that is not there: the older Vlan goes and the new Vpc stays |
| NetworkRuns.RollBackMisses | internal/kubevim/network/kubeovn/manager.go:99-128 | both happen: the two kinds of run, with every call succeeding, that end so |
| NetworkRuns.Terminate | internal/kubevim/server/grpc/vivnfm/server.go:173-196 | the OVN network, else the SR-IOV NAD, else the subnet with the UID is removed as a whole; otherwise not found and an unchanged store; with a lost call only parts of what was to be removed are gone, a network itself never |
| SriovNetworks.CreateSriov | internal/kubevim/network/sriov/manager.go:48-94 | exactly one NAD that reads back with the qualified provider and the requested segmentation id, or an unchanged store with the error each refusal has; all invariants stay |
| SriovNetworks.VlanReadsBack | internal/kubevim/network/sriov/utils.go:38-83 | every 64-bit segmentation id survives the signed conversion, the omission of zero and the JSON text |
| SriovNetworks.ForeignConfig | internal/kubevim/network/sriov/utils.go:73-83 | a configuration kube-vim did not write gives its VLAN if it decodes, and none if a member has the wrong type or the VLAN does not fit 64 signed bits |
| SriovNetworks.ConfigMembers | internal/kubevim/network/sriov/utils.go:38-53 | the configuration is ovs-cni's, with the network's name, a VLAN exactly if it is not zero and a socket exactly if one is configured |
| SriovNetworks.ResubmissionIsStable | internal/kubevim/network/sriov/manager.go:59-62 | creating again from a returned network asks for the very same NAD; the provider comes back as given if and only if it had a vendor prefix |
| Composite.CreatedIsFound | internal/kubevim/network/sriov/manager.go:96-126 | a created SR-IOV network is found by UID, and by name if and only if no OVN network of that name answers |
| Composite.TerminateUndoesCreate | internal/kubevim/network/sriov/manager.go:153-168 | terminating a SR-IOV network just created restores the store exactly |
| Composite.ListSriov | internal/kubevim/network/sriov/manager.go:136-151 | every managed SR-IOV network exactly once, each entry what GetNetwork by its UID returns |
| Composite.CreateSubnetAnywhere | internal/kubevim/network/composite/manager.go:79-90 | a created subnet carries exactly the network id given; an id that is a SR-IOV network's, or no UUID, is refused with an unchanged store |
| SriovNetworks.DeleteSriov | internal/kubevim/network/sriov/manager.go:153-168 | removes exactly the managed SR-IOV NAD with the UID, not found if there is none |
| NetworkRuns.TerminatedExactly | internal/kubevim/network/composite/manager.go:61-77 | in a settled store: which objects go for a network, a SR-IOV network or a subnet UID, and that no other does |
| NetworkRuns.NotFoundMeansAbsent | internal/kubevim/server/grpc/vivnfm/server.go:190-195 | for every store and listing the answer is not found if and only if no visible object with the UID is a subnet, a SR-IOV network or a network all of whose listed subnets are there |
| NetworkRuns.SettledNotFound | internal/kubevim/server/grpc/vivnfm/server.go:190-195 | in a settled store, if and only if no network and no subnet has the UID |
| NetworkRuns.SettledLookup | internal/kubevim/network/kubeovn/manager.go:162-196 | in a settled store GetNetwork by UID succeeds if and only if the network exists |
| Composite.ReadAnyNetwork | internal/kubevim/network/composite/manager.go:31-47 | OVN backend first, SR-IOV only on the application's own not-found error |
| Ipam.ResolveInterfaces | internal/kubevim/compute/kubevirt/ipam.go:35-144 | unless a call is lost: succeeds exactly when every request resolves, in order and under the edits of the earlier ones; then pod network first, one interface per request as chosen, on the requested subnet and network; every annotation an interface sets is in the VM's, with the value of the last interface that sets it |
| Ipam.SubnetIpam | internal/kubevim/compute/kubevirt/ipam.go:149-181 | the first entry for the subnet, or a dynamic one; refused exactly if its static address is outside the block |
| Ipam.NetworkIpam | internal/kubevim/compute/kubevirt/ipam.go:189-231 | the entry chosen and the entries as edited, for every list of entries; for a static address without a subnet, the error of the look-up by address, or a nil dereference where that succeeds |
| Ipam.InitNetwork | internal/kubevim/compute/kubevirt/ipam.go:274-327 | network, interface and annotations on the entry's subnet, under a fresh name; fails only if the subnet is not there |
| Ipam.ChosenAnnotations | internal/kubevim/compute/kubevirt/ipam.go:302-310 | an interface carries ip_address and mac_address exactly if its entry gives them, with those values, and logical_switch with the subnet's name, all under its NAD |
| Ipam.StaticAddressReachesVm | internal/kubevim/compute/kubevirt/ipam.go:139-141 | a static address is in the merged annotations of the VM unless a later interface on the same NAD brings its own |
| Ipam.RequestWithoutEntry | internal/kubevim/compute/kubevirt/ipam.go:209-231 | without an entry, a request for a Vpc is refused unless random assignment is asked for; then, and for a Vlan, it gets the network's first subnet |
| Ipam.ChoiceServes | internal/kubevim/compute/kubevirt/ipam.go:76-135 | with consistent entries the interface stands on the requested subnet, or on a subnet of the requested network |
| Ipam.NetworkEntryBelongs | internal/kubevim/compute/kubevirt/ipam.go:189-231 | whatever entry a network request resolves to stands on a subnet of that network |
| Ipam.LeavesConsistent | internal/kubevim/compute/kubevirt/ipam.go:220-222 | the in-place edits keep the entries consistent |
| Ipam.MergeKeepsAnnotations | internal/kubevim/compute/kubevirt/ipam.go:139-141 | in the merged annotations every ip_address of a NAD lies in the block of the subnet that the NAD's logical_switch names, also when interfaces share a NAD |
| Ipam.FirstSubnetBelongs | internal/kubevim/compute/kubevirt/ipam.go:211-218 | the first listed subnet carries the id of the network if and only if it is on that network, and always under a listing that names only the network's own |
| Ipam.StaticNeverResolves | internal/kubevim/compute/kubevirt/ipam.go:184-207 | with a request anywhere in the list whose OVN network's entry has a static address and no subnet, which the comments promise to place, no VM is built |
| Ipam.StaticPanicsIff | internal/kubevim/compute/kubevirt/ipam.go:200-207 | where all managed subnets have a network, that request dereferences nil if and only if a subnet of the network holds the address |
| ReadBack.ReadBackInvertsResolve | internal/kubevim/compute/kubevirt/utils.go:53-141 | for every VM the resolver builds: the pod NIC, then in order one vNIC per request of the right type with the requested subnet and network ids, for each request if and only if it is not on a SR-IOV network that an OVN network of its name hides or that is called like the pod network |
| ReadBack.TypeByNetwork | internal/kubevim/compute/kubevirt/utils.go:291-301 | an interface on a subnet reads back as a bridge vNIC, one on a SR-IOV network as a SR-IOV vNIC |
| ReadBack.ReadVnics | internal/kubevim/compute/kubevirt/utils.go:53-141 | the vNIC list: one per network in order, failing exactly if one of them fails; with a lost call an entry is right or what lies behind its NAD |
| ReadBack.LookupType | internal/kubevim/compute/kubevirt/utils.go:242-252 | the first interface of a name has the right binding, if and only if it is not a SR-IOV network called like the pod network |
| ReadBack.SubnetNicReadsBack | internal/kubevim/compute/kubevirt/utils.go:84-108 | the NAD of an OVN interface leads back to its subnet and network ids |
| ReadBack.SriovNicReadsBack | internal/kubevim/compute/kubevirt/utils.go:84-86 | the NAD of a SR-IOV interface leads back to its network id if and only if neither a Vpc nor a Vlan of that name answers |
| ReadBack.HiddenSriovFails | internal/kubevim/compute/kubevirt/utils.go:84-103 | for a NAD without a subnet label, as CreateNetwork makes it, the read-back of a SR-IOV interface fails if and only if an OVN network of its name answers |
| ManagementNetwork.MergeLabels | internal/misc/k8s.go:22-35 | required labels win, nothing else changes, and changed is reported exactly if something was missing or different |
| ManagementNetwork.SuccessMeansReady | internal/kubevim/network/kubeovn/mgmt.go:29-75 | in every interleaving of any number of runs, a run that succeeded leaves Vpc, Subnet and NAD with all required labels and its Vpc UID, then and ever after |
| ManagementNetwork.SuccessMeansUsable | internal/kubevim/network/kubeovn/mgmt.go:152-247 | a run from a store without the subnet that succeeds leaves it, for good, attached to the management Vpc with the configured block and gateway, and found by its NAD with the Vpc's UID |
| ManagementNetwork.ReadyIsUsable | internal/kubevim/network/kubeovn/mgmt.go:77-247 | with the required labels the subnet is found by its NAD and its name, and its reference is good if and only if its spec puts it into the management Vpc alone |
| ManagementNetwork.RunsAgree | internal/kubevim/network/kubeovn/mgmt.go:137-145 | any two successful runs agree on the Vpc's UID |
| ManagementNetwork.SpecNeverChanges | internal/kubevim/network/kubeovn/mgmt.go:152-204 | an object that exists keeps its spec and UID for good |
| ManagementNetwork.UnrelatedLabelsKept | internal/kubevim/network/kubeovn/mgmt.go:163-167 | no step of a run touches a label it does not require |
| ManagementNetwork.LaterRunWritesNothing | internal/kubevim/network/kubeovn/mgmt.go:107-247 | once the network is in place a run that has yet to write never writes |
| ManagementNetwork.InvStep | internal/kubevim/network/kubeovn/mgmt.go:107-247 | every step of every run, failed calls and third-party label edits included, keeps the invariant |
| Quantity.RoundTrip | internal/gateway/quantity_marshaler.go:175-282 | Unmarshal after Marshal restores the message at any depth and through recursive types, except that quantities below a map come back as zero |
| Quantity.RoundTripExact | internal/gateway/quantity_marshaler.go:195-212 | the round trip is the identity if and only if no non-zero quantity lies below a map field |
| Quantity.WalkForMarshal | internal/gateway/quantity_marshaler.go:302-362 | the marshal walk computes the repaired JSON and ends on recursive message types |
| Quantity.Walk | internal/gateway/quantity_marshaler.go:175-217 | the unmarshal walk computes the repaired message and ends on recursive message types |
| Quantity.WalkChangesOnlyAmounts | internal/gateway/quantity_marshaler.go:175-217 | for any message and any JSON the unmarshal walk changes Quantity fields only |
| Quantity.MarshalChangesOnlyAmounts | internal/gateway/quantity_marshaler.go:302-362 | for any JSON object the marshal walk changes the quantity members only |
| Quantity.DecodeMarshalled | internal/gateway/quantity_marshaler.go:89-106 | what protojson reads from the repaired output is the message with zero quantities |
| Quantity.RepairMarshalled | internal/gateway/quantity_marshaler.go:171-217 | and the unmarshal walk restores from it every quantity outside maps |
| Quantity.Marshal | internal/gateway/quantity_marshaler.go:89-106 | Marshal is the encoding followed by the walk |
| Quantity.Unmarshal | internal/gateway/quantity_marshaler.go:67-87 | Unmarshal is the decoding followed by the walk |
| Quantity.AmountsAsSent | internal/gateway/quantity_marshaler.go:186-212 | a Quantity the client's JSON leaves out stays unset, one it gives has the value of its text |
| Quantity.SubMessagesAsSent | internal/gateway/quantity_marshaler.go:195-212 | a sub-message is what its own JSON comes to, so the same holds at every depth |
| ImageDownload.RollBackDeletesOnlyItsOwn | internal/kubevim/image/cdi/manager.go:150-231 | in every interleaving of DownloadImage calls a roll-back deletes, by name, only the object that the same call created |
| ImageDownload.OthersUntouched | internal/kubevim/image/cdi/manager.go:125-245 | objects that were there before the calls are never changed or deleted |
| ImageDownload.FailureRestoresStore | internal/kubevim/image/cdi/manager.go:125-245 | if every call failed and no delete was lost the store is exactly as it began; for one call, all or nothing |
| ImageDownload.LeaksNeedAFailure | internal/kubevim/image/cdi/manager.go:150-231 | only a failed delete or a caller that stops leaves anything behind |
| ImageDownload.SuccessIsFindable | internal/kubevim/image/cdi/manager.go:60-91 | a non-lazy success leaves source and volume labelled with each other's UIDs, and GetImage finds them; the volume refers to the source |
| ImageDownload.InvStep | internal/kubevim/image/cdi/manager.go:125-245 | every step of every call keeps: each key is an initial object, or owned by one call, or leaked |
| Computes.ListComputes | internal/kubevim/compute/kubevirt/manager.go:274-321 | exactly the managed VMs that have an instance, in order, each entry what the single lookup gives; an error is that of one of them |
| Computes.GroupPods | internal/kubevim/compute/kubevirt/manager.go:297-302 | grouping pods by label value equals filtering by it, for every UID at once |
| Computes.GetByUid | internal/kubevim/compute/kubevirt/manager.go:398-435 | the conversion of the VM with the UID, not found if there is none |
| Computes.LauncherBelongs | internal/kubevim/compute/kubevirt/manager.go:341-371 | the launcher given to the conversion carries the instance's UID and is on its node if one is; none only if no pod carries it |
| Computes.ListRefinesGet | internal/kubevim/compute/kubevirt/manager.go:341-371 | GetComputeResource by the UID of a listed VM returns its list entry, whatever order the two listings come in, if the VM has at most one pod or exactly one on its node |
| Computes.LauncherCertainIff | internal/kubevim/compute/kubevirt/manager.go:341-371 | the launcher pod is independent of the listing order if and only if there is at most one pod or exactly one on the node |
| Computes.DroppedHaveNoVmi | internal/kubevim/compute/kubevirt/manager.go:307-312 | a VM is dropped from the list if and only if it has no instance |
| Flavours.Serve | internal/kubevim/flavour/kubevirt/manager.go:51-190 | over every sequence of creates and deletes, half-failed ones included, an object that carries a flavour id is named after it |
| Flavours.CreateFlavour | internal/kubevim/flavour/kubevirt/manager.go:51-89 | exactly the two objects with their labels and annotations, or on failure nothing or the instance type alone; unless a call is lost it fails exactly for bad data or a taken name; no other flavour's objects change |
| Flavours.DeleteFlavour | internal/kubevim/flavour/kubevirt/manager.go:174-190 | removes only managed objects carrying the id, and on success all of them; no other flavour's objects and none of another owner change |
| Flavours.SelectedIsNamed | internal/kubevim/flavour/kubevirt/manager.go:98-107 | a search by flavour id finds at most one object, so the answer that there are several is never given |
| Flavours.KeysDiffer | internal/kubevim/flavour/kubevirt/utils.go:144-150 | different ids have different objects |
| Flavours.GetFlavour | internal/kubevim/flavour/kubevirt/manager.go:91-127 | the flavour looked up by name, unreadable if its volumes text does not parse; a failed preference listing drops the preference only |
| Flavours.GetFlavours | internal/kubevim/flavour/kubevirt/manager.go:129-172 | every entry equals GetFlavour by its id; fails if and only if a call is lost or some managed instance type lacks its id or volumes text that parses |
| Flavours.CreatedReadsBack | internal/kubevim/flavour/kubevirt/utils.go:45-111 | a created flavour reads back, with CPU, memory and preference, if and only if the volumes text parses after the metadata was written over it, and with its storage if and only if it parses to the same attributes; the caller's metadata is kept |
| Errors.ToGrpcError | internal/errors/grpc.go:28-50 | nil stays nil; otherwise the status in the chain, the first converter's answer, or Internal |
| Errors.LeafDecidesCode | internal/errors/common.go:14-53 | with both converters registered in any order and number the code is the one of the leaf, whatever is wrapped around it; a chain with a status is returned unchanged |
| Errors.ConverterAnswers | internal/errors/k8s.go:15-50 | each converter answers with the leaf's code or not at all, and neither answers only for leaves that mean Internal |
| Errors.Idempotent | internal/errors/grpc.go:28-50 | converting twice, even with other registrations, changes nothing more |

## Left out

- SubnetToken.NadIsToken: the management network's subnet, which is created before its NAD, and SR-IOV networks named like a subnet's NAD are not callers of this protocol.
- KubeOvnCreate.AllOrNothing: stated for a name that is not a UUID, that no other network or earlier subnet uses, and attributes that name no other network; `NetworkRuns.RollBackHits` covers a shared name.
- KubeOvnCreate.CreateNetwork: the in-place change of the caller's attributes is not visible outside the call.
- NetworkRace.StepKeepsRefsIff: the search by UID before each subnet's deletion by name is left out, which only allows more runs.
- Composite.CreateSubnetAnywhere: which error it returns, since the network is read twice and the listings may change in between.
- Flavours.CreatedReadsBack: the JSON printer and parser of the storage attributes are a pair of functions, the second undoing the first.
- Ipam.InitNetwork: a random UUID that repeats a name in use counts as a lost call.
- ReadBack.ReadVnics: interface status, addresses, PCI addresses and the metadata of a vNIC, which are copied fields.
- Computes.ListComputes: the conversion of one VM is a parameter; one call reads each kind once.
- ManagementNetwork.SuccessMeansReady: validation of the configuration before the first call.
- ImageDownload.SuccessIsFindable: the size, storage class and annotations of the data volume, where the source imports from, what GetImage converts the two objects to, and ListImages.
- Quantity.Walk: the Go struct field is found by the field itself; the code tries spellings of its name and returns an error if none matches (internal/gateway/quantity_marshaler.go:248-256). The same holds for Quantity.WalkForMarshal.
- Quantity.RoundTrip: repeated Quantity fields, on which the code fails a type assertion; protojson itself is a pair of functions with the loss its comment describes.
- Errors.LeafDecidesCode: chains that wrap several errors at once, and the message text.
- Sequential operations read a cache that is in sync with the store; stale reads are modelled in `SubnetToken` and `NetworkRace`.
- Finalizers, and timeouts whose outcome is unknown.
- SriovNetworks.CreateSriov: the JSON printer and parser are a pair of functions, the second undoing the first; JSON keys match by exact case.
- The composite manager's plain delegations.
- VM allocation around the interfaces (volumes, cloud-init, node selection), waiting for the instance, getRunningState.
- Parsing of addresses, CIDR blocks, quantities and JSON text; the query filter; servers, gateway start-up and telemetry; the image managers other than CDI.
