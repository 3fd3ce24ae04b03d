/** Collecting the virtual machine IDs that the group should hold from the
    Terraform state: either the single un-indexed `vsphere_virtual_machine.vm`
    or the counted instances `vsphere_virtual_machine.vm.0`, `.1`, ... */
module StateScan {
  import opened VmGroupTypes

  /** The decimal digit for `d`. */
  function DigitChar(d: nat): (c: char)
    requires d < 10
    ensures '0' <= c <= '9'
  {
    (48 + d) as char
  }

  /** The number a string of decimal digits spells, most significant digit
      first; the empty string spells 0. */
  ghost function DigitsValue(s: string): int {
    if s == [] then 0 else DigitsValue(s[..|s| - 1]) * 10 + (s[|s| - 1] as int - 48)
  }

  /** `n` written in decimal with no sign and no leading zeros: Go's `%d`
      verb on a non-negative int. */
  function DecimalDigits(n: nat): (r: string)
    ensures 1 <= |r|
    ensures n < 10 <==> |r| == 1
    ensures forall k | 0 <= k < |r| :: '0' <= r[k] <= '9'
  {
    if n < 10 then [DigitChar(n)] else DecimalDigits(n / 10) + [DigitChar(n % 10)]
  }

  /** The decimal form spells `n`, most significant digit first, with no
      leading zero. */
  lemma {:induction false} DecimalDigitsSpells(n: nat)
    ensures DigitsValue(DecimalDigits(n)) == n
    ensures DecimalDigits(n)[0] == '0' ==> n == 0
  {
    if n >= 10 {
      var s := DecimalDigits(n);
      assert s[..|s| - 1] == DecimalDigits(n / 10);
      DecimalDigitsSpells(n / 10);
    }
  }

  /** Different numbers have different decimal forms. */
  lemma {:induction false} DecimalDigitsInjective(n: nat, m: nat)
    requires DecimalDigits(n) == DecimalDigits(m)
    ensures n == m
  {
    if n >= 10 && m >= 10 {
      var s := DecimalDigits(n);
      assert s == DecimalDigits(n / 10) + [DigitChar(n % 10)];
      assert s == DecimalDigits(m / 10) + [DigitChar(m % 10)];
      assert DecimalDigits(n / 10) == s[..|s| - 1] == DecimalDigits(m / 10);
      assert DigitChar(n % 10) == s[|s| - 1] == DigitChar(m % 10);
      DecimalDigitsInjective(n / 10, m / 10);
    }
  }

  /** The address of instance `i` of the counted VM resource, built as
      `fmt.Sprintf("vsphere_virtual_machine.vm.%d", i)`. */
  function IndexedVmAddress(i: nat): (r: string)
    // an indexed address extends the un-indexed one and never equals it
    ensures |VmAddress| + 1 < |r| && r[..|VmAddress| + 1] == VmAddress + "."
    ensures r != VmAddress
  {
    VmAddress + "." + DecimalDigits(i)
  }

  lemma IndexedVmAddressInjective(i: nat, j: nat)
    requires IndexedVmAddress(i) == IndexedVmAddress(j)
    ensures i == j
  {
    var p := VmAddress + ".";
    assert DecimalDigits(i) == IndexedVmAddress(i)[|p|..];
    assert DecimalDigits(j) == IndexedVmAddress(j)[|p|..];
    DecimalDigitsInjective(i, j);
  }

  /** A finite set of addresses that holds the instances `0 .. n-1` has at
      least `n` members; this bounds the scan below. */
  lemma {:induction false} IndexedAddressesBound(addresses: set<string>, n: nat)
    requires forall j | 0 <= j < n :: IndexedVmAddress(j) in addresses
    ensures n <= |addresses|
  {
    if n > 0 {
      var last := IndexedVmAddress(n - 1);
      var rest := addresses - {last};
      forall j | 0 <= j < n - 1 ensures IndexedVmAddress(j) in rest {
        if IndexedVmAddress(j) == last {
          IndexedVmAddressInjective(j, n - 1);
        }
      }
      IndexedAddressesBound(rest, n - 1);
    }
  }

  /** The IDs that a scan starting at index `i` collects: instances `i`,
      `i+1`, ... in order, up to the first index with no instance. */
  function IndexedIdsFrom(state: State, i: nat): (r: seq<string>)
    requires forall j | 0 <= j < i :: IndexedVmAddress(j) in state
    ensures forall k | i <= k < i + |r| ::
      IndexedVmAddress(k) in state && r[k - i] == state[IndexedVmAddress(k)].id
    ensures IndexedVmAddress(i + |r|) !in state
    decreases |state| - i
  {
    if IndexedVmAddress(i) in state then
      IndexedAddressesBound(state.Keys, i + 1);
      [state[IndexedVmAddress(i)].id] + IndexedIdsFrom(state, i + 1)
    else []
  }

  /** The IDs of the counted VM instances, from index 0. */
  function IndexedIds(state: State): (r: seq<string>)
    ensures IsIndexedScan(state, r)
  {
    IndexedIdsFrom(state, 0)
  }

  /** What the scan must return: the IDs of instances 0, 1, ... in index
      order, ending exactly where the first index is missing. */
  ghost predicate IsIndexedScan(state: State, ids: seq<string>) {
    && (forall k | 0 <= k < |ids| ::
          IndexedVmAddress(k) in state && ids[k] == state[IndexedVmAddress(k)].id)
    && IndexedVmAddress(|ids|) !in state
  }

  /** `IndexedIds` is the one list that satisfies the scan's specification. */
  lemma IndexedIdsIsTheScan(state: State, ids: seq<string>)
    ensures IsIndexedScan(state, ids) <==> ids == IndexedIds(state)
  {
    var r := IndexedIdsFrom(state, 0);
    assert IsIndexedScan(state, r);
  }

  /** Instances after the first missing index play no part: two states that
      agree on instances `0 .. n-1` and both lack instance `n` give the same
      list, whatever else they hold. In particular the list is empty when
      instance 0 is missing. */
  lemma ScanIgnoresLaterIndices(s1: State, s2: State, n: nat)
    requires IndexedVmAddress(n) !in s1 && IndexedVmAddress(n) !in s2
    requires forall j | 0 <= j < n ::
      (IndexedVmAddress(j) in s1 <==> IndexedVmAddress(j) in s2) &&
      (IndexedVmAddress(j) in s1 ==> s1[IndexedVmAddress(j)].id == s2[IndexedVmAddress(j)].id)
    ensures IndexedIds(s1) == IndexedIds(s2)
    ensures |IndexedIds(s1)| <= n
  {
    var r := IndexedIds(s1);
    IndexedIdsIsTheScan(s1, r);
    assert IsIndexedScan(s2, r);
    IndexedIdsIsTheScan(s2, r);
  }

  /** `testAccResourceVSphereComputeClusterVMGroupGetMultiple`: look up
      `vsphere_virtual_machine.vm.<i>` for i = 0, 1, ... and append each
      instance's ID until an index is missing. */
  method GetMultiple(state: State) returns (ids: seq<string>)
    ensures IsIndexedScan(state, ids)
    ensures ids == IndexedIds(state)
  {
    var i := 0;
    ids := [];
    while true
      invariant forall j | 0 <= j < i :: IndexedVmAddress(j) in state
      invariant ids + IndexedIdsFrom(state, i) == IndexedIds(state)
      decreases |state| - i
    {
      var address := IndexedVmAddress(i);
      if address !in state {
        break;
      }
      IndexedAddressesBound(state.Keys, i + 1);
      assert IndexedIdsFrom(state, i) == [state[address].id] + IndexedIdsFrom(state, i + 1);
      ids := ids + [state[address].id];
      i := i + 1;
    }
    IndexedIdsIsTheScan(state, ids);
  }

  /** The VM IDs the check expects in the group: the one un-indexed VM when
      it is in the state, the counted instances otherwise. */
  function VmIds(state: State): (r: seq<string>)
    ensures VmAddress in state ==> r == [state[VmAddress].id]
    ensures VmAddress !in state ==> IsIndexedScan(state, r)
  {
    if VmAddress in state then [state[VmAddress].id]
    else
      IndexedIdsIsTheScan(state, IndexedIds(state));
      IndexedIds(state)
  }

  /** `testAccResourceVSphereComputeClusterVMGroupMatchMembershipVMIDs`:
      collect the IDs, then turn them into managed object references with
      `resolve` (the platform's UUID lookup, `virtualmachine.MOIDsForUUIDs`),
      whose error is passed on unchanged. */
  method MatchMembershipVmIds(state: State, resolve: seq<string> -> Result<seq<MoRef>>)
    returns (r: Result<seq<MoRef>>)
    ensures r == resolve(VmIds(state))
  {
    var ids: seq<string>;
    if VmAddress in state {
      ids := [state[VmAddress].id];
    } else {
      ids := GetMultiple(state);
    }
    var results := resolve(ids);
    if results.Err? {
      return Err(results.error);
    }
    return Ok(results.value);
  }
}
