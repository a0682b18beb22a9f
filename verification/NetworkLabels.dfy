/** Label values and derived names shared by the network managers. */
module NetworkLabels {
  import opened Kube

  const OVERLAY := "NETWORK_TYPE_OVERLAY"
  const UNDERLAY := "NETWORK_TYPE_UNDERLAY"
  const SRIOV := "NETWORK_TYPE_SRIOV"

  const NAD_SUFFIX := "-netattach"

  function NadName(subnet: string): string {
    subnet + NAD_SUFFIX
  }

  function NadKey(subnet: string): Key {
    Key(Nad, NadName(subnet))
  }

  function SubnetKey(name: string): Key {
    Key(Subnet, name)
  }

  /** The derived NAD name determines the subnet it was derived from. */
  lemma NadNameInjective(a: string, b: string)
    requires NadName(a) == NadName(b)
    ensures a == b
  {
    assert |a| == |b|;
    assert a == NadName(a)[..|a|] && b == NadName(b)[..|b|];
  }

  /** Go's default for an absent map entry. */
  function Label(labels: Labels, key: LabelKey): string {
    if key in labels then labels[key] else ""
  }
}
