/** Values that the acceptance checks of the cluster VM group resource work on:
    managed object references, the group as vSphere reports it, the errors the
    checks return, and the slice of Terraform state they read. */
module VmGroupTypes {

  datatype Option<+T> = None | Some(value: T)

  /** An error-or-value pair, as a Go function returning `(T, error)`. */
  datatype Result<+T> = Ok(value: T) | Err(error: Error)

  /** A vSphere managed object reference (`types.ManagedObjectReference`):
      the object's type and its identifier. */
  datatype MoRef = MoRef(kind: string, value: string)

  /** The fields of a `types.ClusterVmGroup` that the membership check
      compares: `Name` and `UserCreated` from the embedded group info, and
      the member list `Vm`. `UserCreated` is a `*bool` in the SDK. */
  datatype GroupInfo = GroupInfo(name: string, userCreated: Option<bool>, vm: seq<MoRef>)

  /** The errors the checks pass on or produce.
      `ManagedObjectNotFound` is what the platform lookup returns when a
      managed object is gone (the errors that `viapi.IsManagedObjectNotFoundError`
      recognises); `Failed` is any other error, identified by its message;
      `Mismatch` is the "expected ... got ..." error of the membership check. */
  datatype Error =
    | ManagedObjectNotFound(message: string)
    | Failed(message: string)
    | Mismatch(expected: GroupInfo, got: GroupInfo)

  predicate IsManagedObjectNotFound(e: Error) {
    e.ManagedObjectNotFound?
  }

  /** The outcome of looking the group up on its cluster:
      an error, or a group pointer that may be nil. */
  datatype Lookup<T> = LookupError(err: Error) | LookupOk(info: Option<T>)

  /** One resource instance of the Terraform state: its primary ID and its
      primary attributes. */
  datatype ResourceState = ResourceState(id: string, attributes: map<string, string>)

  /** The root module's resources, keyed by resource address. */
  type State = map<string, ResourceState>

  /** The compute cluster read from the `cluster` data source. */
  datatype ComputeCluster = ComputeCluster(inventoryPath: string)

  const GroupAddress: string := "vsphere_compute_cluster_vm_group.cluster_vm_group"
  const VmAddress: string := "vsphere_virtual_machine.vm"

  const MissingWhenExpected: Error := Failed("cluster VM group missing when expected to exist")
  const StillPresent: Error := Failed("cluster VM group still present when expected to be missing")
  const GroupMissing: Error := Failed("cluster VM group missing")
  const NoGroupResource: Error :=
    Failed("no resource at address vsphere_compute_cluster_vm_group.cluster_vm_group")
  const NoNameAttribute: Error :=
    Failed("vsphere_compute_cluster_vm_group.cluster_vm_group has no name attribute")
}
