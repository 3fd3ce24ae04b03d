# Cluster VM group acceptance checks, modelled in Dafny

The `vsphere_compute_cluster_vm_group` resource of the Terraform vSphere
provider keeps a named group of virtual machines on a compute cluster. Its
acceptance tests judge the resource with four small pieces of decision logic,
and this project models those four and proves what they promise:

- **Existence check** (`VmGroupChecks.ClusterVmGroupExists`): maps the
  expected presence and the outcome of the group lookup to a pass or an error.
  A "managed object not found" error counts as an absent group, because a
  cluster deleted during destroy takes its groups with it.
- **Membership check** (`VmGroupChecks.MatchMembership`, specified by
  `VmGroupChecks.MembershipVerdict`): fails on a lookup error or a missing
  group. Otherwise it resolves the expected VM IDs and sorts both reference
  lists with one sorter, the group's own list in place. It then compares the
  groups field by field. Name and user-created flag are copied from the actual
  group, so the verdict is equality of the two member lists as multisets.
- **VM ID collection** (`StateScan.MatchMembershipVmIds`, `StateScan.GetMultiple`):
  if the Terraform state holds the single VM `vsphere_virtual_machine.vm`, only
  its ID is used. Otherwise the addresses `vsphere_virtual_machine.vm.0`,
  `.1`, … are scanned until the first missing index.
- **Import ID** (`VmGroupChecks.ImportStateId`): fails on a cluster lookup
  error, a missing group resource or a missing `name` attribute, in that order.
  Otherwise it returns the two fields `compute_cluster_path` and `name`.

The live lookups are inputs:
- the group lookup is a `Lookup` value;
- the cluster data source is a `Result<ComputeCluster>`;
- the UUID-to-reference resolution is a function `resolve`;
- the order of `structure.MoRefSorter` is a function `less`, required to be a
  strict total order.

Modules: `VmGroupTypes` (types.dfy), `MoRefSort` (moref_sort.dfy),
`StateScan` (state_scan.dfy), `VmGroupChecks` (vm_group_checks.dfy).

## Model

| member | source | states |
|---|---|---|
| `VmGroupChecks.ClusterVmGroupExists` | vsphere/resource_vsphere_compute_cluster_vm_group_test.go:138-167 | passes exactly when the lookup shows the expected presence, where a not-found error reads as absent; any other failing lookup error is returned unchanged; an absent group when expected fails with "missing when expected to exist"; a present group when not expected fails with "still present" |
| `VmGroupChecks.CompareMembership` | vsphere/resource_vsphere_compute_cluster_vm_group_test.go:185-204 | a failure is always the mismatch error; its two groups share the actual name and user-created flag and differ in their member lists, so only membership can fail the comparison |
| `VmGroupChecks.CompareMembershipIsMultisetEquality` | vsphere/resource_vsphere_compute_cluster_vm_group_test.go:185-200 | sort-then-compare passes exactly when the actual members and the expected references are equal as multisets |
| `VmGroupChecks.CompareMembershipOrderInsensitive` | vsphere/resource_vsphere_compute_cluster_vm_group_test.go:185-200 | permuting the actual member list or the expected references leaves the result unchanged, including the reported error |
| `VmGroupChecks.MembershipVerdict` | vsphere/resource_vsphere_compute_cluster_vm_group_test.go:169-205 | a lookup error is returned unchanged and a nil group gives "cluster VM group missing", whatever the VM IDs; a failed VM ID resolution is returned unchanged |
| `VmGroupChecks.MembershipVerdictIsMultisetEquality` | vsphere/resource_vsphere_compute_cluster_vm_group_test.go:169-205 | with a group found and the IDs resolved, the check passes exactly when the group holds the resolved references, in any order |
| `VmGroupChecks.MembershipImpliesExistence` | vsphere/resource_vsphere_compute_cluster_vm_group_test.go:138-178 | a passing membership check implies a passing existence check with `expected` true on the same lookup |
| `VmGroupChecks.MatchMembership` | vsphere/resource_vsphere_compute_cluster_vm_group_test.go:169-206 | returns the verdict of `MembershipVerdict` on the group as it was; the group keeps its name, flag and member array, and the array holds the sorted permutation of its old contents once the IDs are resolved, and is untouched before |
| `VmGroupChecks.ClusterVmGroup.constructor` | vsphere/resource_vsphere_compute_cluster_vm_group_test.go:188-194 | the expected group holds the given name, flag and member array, which it shares with the sorted slice |
| `VmGroupChecks.ImportStateId` | vsphere/resource_vsphere_compute_cluster_vm_group_test.go:88-112 | fails with the first applicable error: cluster lookup error, then no resource at the group address, then no `name` attribute; succeeds exactly when none of the three applies, and then the ID has exactly the keys `compute_cluster_path` and `name`, holding the cluster's inventory path and the name attribute |
| `StateScan.GetMultiple` | vsphere/resource_vsphere_compute_cluster_vm_group_test.go:223-235 | returns the IDs of instances 0, 1, … in index order, ending exactly at the first missing index |
| `StateScan.IndexedVmAddress` | vsphere/resource_vsphere_compute_cluster_vm_group_test.go:227 | the address of instance i is `vsphere_virtual_machine.vm.` followed by the index, so it extends the un-indexed address and never equals it |
| `StateScan.IndexedIds` | vsphere/resource_vsphere_compute_cluster_vm_group_test.go:223-235 | the IDs of the counted instances meet the prefix-until-gap specification: instances 0, 1, … in order, ending at the first missing index |
| `StateScan.IndexedIdsFrom` | vsphere/resource_vsphere_compute_cluster_vm_group_test.go:223-235 | a scan from index i returns, at position k, the ID of instance i+k, all present, and instance i+length is missing |
| `StateScan.IndexedIdsIsTheScan` | vsphere/resource_vsphere_compute_cluster_vm_group_test.go:223-235 | the scan's result is the one list satisfying the prefix-until-gap specification |
| `StateScan.ScanIgnoresLaterIndices` | vsphere/resource_vsphere_compute_cluster_vm_group_test.go:226-230 | instances after the first missing index do not affect the result, and the result has at most that many IDs; it is empty when instance 0 is missing |
| `StateScan.IndexedAddressesBound` | vsphere/resource_vsphere_compute_cluster_vm_group_test.go:226-233 | a state holding instances 0 to n-1 has at least n resources, so the scan ends |
| `StateScan.VmIds` | vsphere/resource_vsphere_compute_cluster_vm_group_test.go:209-214 | if the un-indexed VM is in the state the list is exactly its ID; otherwise it is the indexed scan |
| `StateScan.MatchMembershipVmIds` | vsphere/resource_vsphere_compute_cluster_vm_group_test.go:208-221 | returns the resolver's result on the collected IDs, its error unchanged |
| `StateScan.DecimalDigits` | vsphere/resource_vsphere_compute_cluster_vm_group_test.go:227 | the form of an index that `%d` gives is a non-empty string of decimal digits, one digit long exactly for indices below 10 |
| `StateScan.DecimalDigitsSpells` | vsphere/resource_vsphere_compute_cluster_vm_group_test.go:227 | the digits of that form spell the index in decimal, most significant first (`DigitsValue`), and it has no leading zero unless the index is 0, as `%d` writes it |
| `StateScan.DecimalDigitsInjective` | vsphere/resource_vsphere_compute_cluster_vm_group_test.go:227 | distinct indices have distinct decimal forms |
| `StateScan.IndexedVmAddressInjective` | vsphere/resource_vsphere_compute_cluster_vm_group_test.go:227 | distinct indices give distinct resource addresses |
| `MoRefSort.SortInPlace` | vsphere/resource_vsphere_compute_cluster_vm_group_test.go:185-186 | under a strict total order, after `sort.Sort` the array is sorted, a permutation of its old contents, and equal to the one sorted permutation `SortedBy` |
| `MoRefSort.Insert` | vsphere/resource_vsphere_compute_cluster_vm_group_test.go:186 | inserting adds exactly the one element to the multiset |
| `MoRefSort.SortedBy` | vsphere/resource_vsphere_compute_cluster_vm_group_test.go:186 | sorting keeps the multiset of references |
| `MoRefSort.InsertSorted` | vsphere/resource_vsphere_compute_cluster_vm_group_test.go:186 | inserting into a sorted list keeps it sorted |
| `MoRefSort.SortedBySorted` | vsphere/resource_vsphere_compute_cluster_vm_group_test.go:186 | the sort's result is sorted |
| `MoRefSort.SortedUnique` | vsphere/resource_vsphere_compute_cluster_vm_group_test.go:185-200 | two sorted lists with the same multiset are equal, so sorting with one total order leaves no choice |
| `MoRefSort.SortedByCanonical` | vsphere/resource_vsphere_compute_cluster_vm_group_test.go:185-200 | two lists sort to the same list exactly when they are equal as multisets |

## Left out

- The test cases and their orchestration (`resource.Test`, test steps,
  composed check functions), the environment-variable pre-check and the HCL
  configuration template: framework plumbing, environment I/O and string
  templating.
- The live lookups `testGetComputeClusterVMGroup`, `testGetComputeClusterFromDataSource`
  and `virtualmachine.MOIDsForUUIDs` are not part of this model; they are inputs.
  `viapi.IsManagedObjectNotFoundError` is not part of this model either; it is
  the `ManagedObjectNotFound` case of `Error`.
- A resource instance whose primary instance (`rs.Primary`) is nil is not
  modelled: every `ResourceState` carries an ID and attributes, so the nil
  dereference at lines 98, 211 and 231 of the test file, which panics, has no
  counterpart.
- The order defined by `structure.MoRefSorter` is not part of this model. Any
  strict total order on references is allowed. If the real sorter compares only part of
  a reference, two different references could tie, and an unstable sort could then
  order them either way; the model does not cover that case.
- The algorithm of Go's `sort.Sort`: `SortInPlace` writes the sorted
  permutation into the array directly.
- `reflect.DeepEqual` is modelled on the three compared fields (`Name`,
  `UserCreated`, `Vm`). Other fields of `types.ClusterVmGroup` are not
  modelled, and neither is the difference between a nil and an empty slice.
- The error text built by `spew.Errorf` is modelled as the `Mismatch` error
  holding both groups.
- `ImportStateId`: the `json.Marshal` step and its string escaping are not
  modelled; the result is the two-key map before encoding. The marshalling
  error branch is omitted, since marshalling a string-to-string map does not fail.
- The reconciler the tests exercise (create, read, update, delete, import parsing) is
  not part of this model: its source is not among the files modelled.
