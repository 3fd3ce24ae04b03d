/** The decision logic of the acceptance checks for the
    `vsphere_compute_cluster_vm_group` resource: whether the group exists as
    expected, whether its membership matches the VMs in the Terraform state,
    and the import ID built for the import step. The live lookups are inputs. */
module VmGroupChecks {
  import opened VmGroupTypes
  import opened MoRefSort
  import opened StateScan

  // ---------------------------------------------------------------------
  // Existence
  // ---------------------------------------------------------------------

  datatype Presence = Present | Absent | Unknown

  /** What a lookup says about the group. A "managed object not found" error
      reads as absent: it most likely means the parent cluster is gone, and
      with it the group. Any other error leaves the answer unknown. */
  function ObservedPresence(lookup: Lookup<GroupInfo>): Presence {
    match lookup
    case LookupError(e) => if IsManagedObjectNotFound(e) then Absent else Unknown
    case LookupOk(None) => Absent
    case LookupOk(Some(_)) => Present
  }

  /** `testAccResourceVSphereComputeClusterVMGroupExists(expected)` applied to
      the outcome of the group lookup; `None` is a passing check. */
  function ClusterVmGroupExists(expected: bool, lookup: Lookup<GroupInfo>): (r: Option<Error>)
    // the check passes exactly when the lookup shows the expected presence
    ensures r.None? <==> ObservedPresence(lookup) == (if expected then Present else Absent)
    // a lookup error that does not pass is returned unchanged
    ensures lookup.LookupError? && r.Some? ==> r.value == lookup.err
    ensures lookup == LookupOk(None) && expected ==> r == Some(MissingWhenExpected)
    ensures lookup.LookupOk? && lookup.info.Some? && !expected ==> r == Some(StillPresent)
  {
    match lookup
    case LookupError(err) =>
      if !expected && IsManagedObjectNotFound(err) then None else Some(err)
    case LookupOk(info) =>
      if info.None? && !expected then None
      else if info.None? && expected then Some(MissingWhenExpected)
      else if !expected then Some(StillPresent)
      else None
  }

  // ---------------------------------------------------------------------
  // Membership
  // ---------------------------------------------------------------------

  /** The last step of the membership check: the expected group takes its
      name and user-created flag from the actual one and the sorted expected
      references as members; the actual members are sorted too; the two are
      compared field by field (`reflect.DeepEqual`). */
  function CompareMembership(actual: GroupInfo, vms: seq<MoRef>, less: (MoRef, MoRef) -> bool)
    : (r: Option<Error>)
    // only the member lists can differ between the two groups compared
    ensures r.Some? ==>
              && r.value.Mismatch?
              && r.value.expected.name == r.value.got.name == actual.name
              && r.value.expected.userCreated == r.value.got.userCreated == actual.userCreated
              && r.value.expected.vm != r.value.got.vm
  {
    var expected := GroupInfo(actual.name, actual.userCreated, SortedBy(vms, less));
    var got := actual.(vm := SortedBy(actual.vm, less));
    if expected == got then None else Some(Mismatch(expected, got))
  }

  /** The membership check passes exactly when the group's members and the
      expected references are equal as multisets. */
  lemma CompareMembershipIsMultisetEquality(actual: GroupInfo, vms: seq<MoRef>, less: (MoRef, MoRef) -> bool)
    requires StrictTotalOrder(less)
    ensures CompareMembership(actual, vms, less).None? <==> multiset(actual.vm) == multiset(vms)
  {
    SortedByCanonical(vms, actual.vm, less);
  }

  /** Order does not matter: permuting the actual members or the expected
      references leaves the verdict, and the error it reports, unchanged. */
  lemma CompareMembershipOrderInsensitive(a1: GroupInfo, a2: GroupInfo, v1: seq<MoRef>, v2: seq<MoRef>,
                                          less: (MoRef, MoRef) -> bool)
    requires StrictTotalOrder(less)
    requires a1.name == a2.name && a1.userCreated == a2.userCreated
    requires multiset(a1.vm) == multiset(a2.vm) && multiset(v1) == multiset(v2)
    ensures CompareMembership(a1, v1, less) == CompareMembership(a2, v2, less)
  {
    SortedByCanonical(a1.vm, a2.vm, less);
    SortedByCanonical(v1, v2, less);
  }

  /** `testAccResourceVSphereComputeClusterVMGroupMatchMembership` on values:
      the lookup outcome, the Terraform state, the UUID resolver and the
      sorter's order. */
  function MembershipVerdict(lookup: Lookup<GroupInfo>, state: State,
                             resolve: seq<string> -> Result<seq<MoRef>>,
                             less: (MoRef, MoRef) -> bool): (r: Option<Error>)
    // without a group the check fails before any VM ID is looked at
    ensures lookup.LookupError? ==> r == Some(lookup.err)
    ensures lookup == LookupOk(None) ==> r == Some(GroupMissing)
    // a failed resolution of the VM IDs is returned unchanged
    ensures lookup.LookupOk? && lookup.info.Some? && resolve(VmIds(state)).Err? ==>
      r == Some(resolve(VmIds(state)).error)
  {
    match lookup
    case LookupError(err) => Some(err)
    case LookupOk(None) => Some(GroupMissing)
    case LookupOk(Some(actual)) =>
      match resolve(VmIds(state))
      case Err(err) => Some(err)
      case Ok(vms) => CompareMembership(actual, vms, less)
  }

  /** With a group found and the VM IDs resolved, the check passes exactly
      when the group holds the resolved references, in any order. */
  lemma MembershipVerdictIsMultisetEquality(actual: GroupInfo, state: State,
                                            resolve: seq<string> -> Result<seq<MoRef>>,
                                            less: (MoRef, MoRef) -> bool)
    requires StrictTotalOrder(less)
    requires resolve(VmIds(state)).Ok?
    ensures MembershipVerdict(LookupOk(Some(actual)), state, resolve, less).None?
      <==> multiset(actual.vm) == multiset(resolve(VmIds(state)).value)
  {
    CompareMembershipIsMultisetEquality(actual, resolve(VmIds(state)).value, less);
  }

  /** A passing membership check implies a passing existence check. */
  lemma MembershipImpliesExistence(lookup: Lookup<GroupInfo>, state: State,
                                   resolve: seq<string> -> Result<seq<MoRef>>,
                                   less: (MoRef, MoRef) -> bool)
    requires MembershipVerdict(lookup, state, resolve, less).None?
    ensures ClusterVmGroupExists(true, lookup).None?
  {
  }

  /** A `*types.ClusterVmGroup` as the lookup hands it to the check: the
      membership check sorts its `Vm` slice in place and assigns it back. */
  class ClusterVmGroup {
    var name: string
    var userCreated: Option<bool>
    var vm: array<MoRef>

    constructor (name: string, userCreated: Option<bool>, vm: array<MoRef>)
      ensures this.name == name && this.userCreated == userCreated && this.vm == vm
    {
      this.name := name;
      this.userCreated := userCreated;
      this.vm := vm;
    }

    /** The fields `reflect.DeepEqual` compares. */
    function Value(): GroupInfo
      reads this, vm
    {
      GroupInfo(name, userCreated, vm[..])
    }
  }

  /** The objects a lookup hands out: the group and its member array. */
  function Objects(lookup: Lookup<ClusterVmGroup>): set<object>
    reads if lookup.LookupOk? && lookup.info.Some? then {lookup.info.value} else {}
  {
    if lookup.LookupOk? && lookup.info.Some? then {lookup.info.value, lookup.info.value.vm} else {}
  }

  function LookupValue(lookup: Lookup<ClusterVmGroup>): Lookup<GroupInfo>
    reads Objects(lookup)
  {
    match lookup
    case LookupError(err) => LookupError(err)
    case LookupOk(None) => LookupOk(None)
    case LookupOk(Some(group)) => LookupOk(Some(group.Value()))
  }

  /** `testAccResourceVSphereComputeClusterVMGroupMatchMembership`: fail on a
      lookup error or a missing group, collect and resolve the expected VM
      IDs, sort both member lists with the same sorter (the actual one in
      place), and compare. */
  method MatchMembership(lookup: Lookup<ClusterVmGroup>, state: State,
                         resolve: seq<string> -> Result<seq<MoRef>>,
                         less: (MoRef, MoRef) -> bool)
    returns (err: Option<Error>)
    requires StrictTotalOrder(less)
    modifies Objects(lookup)
    ensures err == MembershipVerdict(old(LookupValue(lookup)), state, resolve, less)
    // the actual group keeps its name, flag and array; the array is sorted in
    // place once the VM IDs have been resolved, and is otherwise untouched
    ensures lookup.LookupOk? && lookup.info.Some? ==>
      var actual := lookup.info.value;
      && actual.name == old(actual.name) && actual.userCreated == old(actual.userCreated)
      && actual.vm == old(actual.vm)
      && actual.vm[..] == if resolve(VmIds(state)).Ok? then SortedBy(old(actual.vm[..]), less)
                          else old(actual.vm[..])
  {
    match lookup
    case LookupError(e) =>
      return Some(e);
    case LookupOk(None) =>
      return Some(GroupMissing);
    case LookupOk(Some(actual)) =>
      ghost var before := actual.Value();
      assert old(LookupValue(lookup)) == LookupOk(Some(before));
      var vms := MatchMembershipVmIds(state, resolve);
      if vms.Err? {
        return Some(vms.error);
      }
      var refs := vms.value;
      var expectedSort := new MoRef[|refs|](i requires 0 <= i < |refs| => refs[i]);
      assert expectedSort[..] == refs;
      SortInPlace(expectedSort, less);
      var expected := new ClusterVmGroup(actual.name, actual.userCreated, expectedSort);
      assert expected.Value() == GroupInfo(before.name, before.userCreated, SortedBy(refs, less));
      var actualSort := actual.vm;
      SortInPlace(actualSort, less);
      actual.vm := actualSort;
      assert actual.Value() == before.(vm := SortedBy(before.vm, less));
      if expected.Value() != actual.Value() {
        return Some(Mismatch(expected.Value(), actual.Value()));
      }
      return None;
  }

  // ---------------------------------------------------------------------
  // Import ID
  // ---------------------------------------------------------------------

  const ClusterPathKey: string := "compute_cluster_path"
  const NameKey: string := "name"

  /** The `ImportStateIdFunc` of the import test: the cluster from the
      `cluster` data source, then the group resource and its `name`
      attribute, each failing with its own error in that order; on success
      the import ID's fields, before JSON encoding. */
  function ImportStateId(cluster: Result<ComputeCluster>, state: State): (r: Result<map<string, string>>)
    // the first failing step decides the error
    ensures cluster.Err? ==> r == Err(cluster.error)
    ensures cluster.Ok? && GroupAddress !in state ==> r == Err(NoGroupResource)
    ensures cluster.Ok? && GroupAddress in state && NameKey !in state[GroupAddress].attributes ==>
      r == Err(NoNameAttribute)
    // it succeeds exactly when all three steps do
    ensures r.Ok? <==> cluster.Ok? && GroupAddress in state && NameKey in state[GroupAddress].attributes
    // and then the ID has exactly the two fields, the cluster's inventory path and the name
    ensures r.Ok? ==>
      && cluster.Ok? && GroupAddress in state && NameKey in state[GroupAddress].attributes
      && r.value.Keys == {ClusterPathKey, NameKey}
      && r.value[ClusterPathKey] == cluster.value.inventoryPath
      && r.value[NameKey] == state[GroupAddress].attributes[NameKey]
  {
    match cluster
    case Err(err) => Err(err)
    case Ok(c) =>
      if GroupAddress !in state then Err(NoGroupResource)
      else
        var rs := state[GroupAddress];
        if NameKey !in rs.attributes then Err(NoNameAttribute)
        else Ok(map[ClusterPathKey := c.inventoryPath, NameKey := rs.attributes[NameKey]])
  }
}
