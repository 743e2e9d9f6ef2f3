/** Reference extraction: the distinct, non-empty identifiers of each
    resource kind that the VMs of a snapshot refer to. */
module Extract {
  import opened Catalog

  /** No identifier occurs twice. */
  predicate NoDup(s: seq<string>) {
    forall i, j :: 0 <= i < j < |s| ==> s[i] != s[j]
  }

  /** The identifiers of `refs` without repetition, in order of first
      occurrence: the keys of a Go map filled from `refs`. Go lists those keys
      in an unspecified order; first occurrence is one such order. */
  function Dedup(refs: seq<string>): (ids: seq<string>)
    ensures NoDup(ids)
    ensures forall id :: id in ids <==> id in refs
    ensures |ids| <= |refs|
    decreases |refs|
  {
    if |refs| == 0 then []
    else
      var init := refs[..|refs| - 1];
      assert refs == init + [refs[|refs| - 1]];
      var seen := Dedup(init);
      var id := refs[|refs| - 1];
      if id in seen then seen else seen + [id]
  }

  /** The non-empty identifiers of `refs`, in order; an empty identifier
      stands for "no reference". */
  function NonEmpty(refs: seq<string>): (r: seq<string>)
    ensures forall id :: id in r <==> id in refs && id != ""
    ensures |r| <= |refs|
    decreases |refs|
  {
    if |refs| == 0 then []
    else if refs[0] == "" then NonEmpty(refs[1..])
    else [refs[0]] + NonEmpty(refs[1..])
  }

  /** The contents of a Go `idMap` filled with the non-empty identifiers of
      `refs`. */
  function UniqueIds(refs: seq<string>): (ids: seq<string>)
    ensures NoDup(ids)
    ensures "" !in ids
    ensures forall id :: id in ids <==> id in refs && id != ""
  {
    Dedup(NonEmpty(refs))
  }

  /** A sequence without repetition is as long as the set of its elements. */
  lemma {:induction false} NoDupCard(s: seq<string>)
    requires NoDup(s)
    ensures |set x | x in s| == |s|
    decreases |s|
  {
    if |s| > 0 {
      var init := s[..|s| - 1];
      var last := s[|s| - 1];
      assert s == init + [last];
      assert NoDup(init);
      NoDupCard(init);
      var whole := set x | x in s;
      var front := set x | x in init;
      assert last !in front;
      assert whole == front + {last};
    }
  }

  /** The identifiers whose records equal `x`. */
  ghost function KeysOf<R>(keys: seq<string>, rs: seq<R>, x: R): set<string>
    requires |rs| == |keys|
  {
    set i | 0 <= i < |keys| && rs[i] == x :: keys[i]
  }

  /** Dropping the last identifier and record drops at most the last
      identifier from KeysOf. */
  lemma KeysOfLast<R>(keys: seq<string>, rs: seq<R>, x: R)
    requires |rs| == |keys| > 0
    ensures var n := |keys|;
      KeysOf(keys, rs, x) == KeysOf(keys[..n - 1], rs[..n - 1], x) + (if rs[n - 1] == x then {keys[n - 1]} else {})
  {
    var n := |keys|;
    var ks, xs := keys[..n - 1], rs[..n - 1];
    var last: set<string> := if rs[n - 1] == x then {keys[n - 1]} else {};
    forall k | k in KeysOf(keys, rs, x)
      ensures k in KeysOf(ks, xs, x) + last
    {
      var i :| 0 <= i < n && rs[i] == x && keys[i] == k;
      if i < n - 1 {
        assert xs[i] == x && ks[i] == k;
      }
    }
    forall k | k in KeysOf(ks, xs, x) + last
      ensures k in KeysOf(keys, rs, x)
    {
      if k in KeysOf(ks, xs, x) {
        var i :| 0 <= i < n - 1 && xs[i] == x && ks[i] == k;
        assert rs[i] == x && keys[i] == k;
      }
    }
  }

  /** Records built one per identifier, over identifiers without repetition:
      a record occurs as often as there are identifiers that give it. */
  lemma {:induction false} CountByKeys<R>(keys: seq<string>, rs: seq<R>, x: R)
    requires NoDup(keys) && |rs| == |keys|
    ensures multiset(rs)[x] == |set i | 0 <= i < |keys| && rs[i] == x :: keys[i]|
    decreases |keys|
  {
    var n := |keys|;
    if n > 0 {
      var ks, xs := keys[..n - 1], rs[..n - 1];
      assert NoDup(ks);
      CountByKeys(ks, xs, x);
      assert multiset(rs)[x] == multiset(xs)[x] + if rs[n - 1] == x then 1 else 0 by {
        assert rs == xs + [rs[n - 1]];
      }
      KeysOfLast(keys, rs, x);
      assert keys[n - 1] !in KeysOf(ks, xs, x);
    }
  }

  /** The identifier one field of each VM holds, in VM order. */
  function Refs(vms: seq<VmInfo>, field: VmInfo -> string): (refs: seq<string>)
    ensures |refs| == |vms|
    ensures forall i :: 0 <= i < |vms| ==> refs[i] == field(vms[i])
  {
    seq(|vms|, i requires 0 <= i < |vms| => field(vms[i]))
  }

  function VNetRefs(vms: seq<VmInfo>): seq<string> {
    Refs(vms, (vm: VmInfo) => vm.vNetId)
  }

  function SshKeyRefs(vms: seq<VmInfo>): seq<string> {
    Refs(vms, (vm: VmInfo) => vm.sshKeyId)
  }

  function SpecRefs(vms: seq<VmInfo>): seq<string> {
    Refs(vms, (vm: VmInfo) => vm.specId)
  }

  function ImageRefs(vms: seq<VmInfo>): seq<string> {
    Refs(vms, (vm: VmInfo) => vm.imageId)
  }

  /** Every security-group identifier of every VM, in VM order. */
  function SecurityGroupRefs(vms: seq<VmInfo>): (refs: seq<string>)
    ensures forall id :: id in refs <==> exists vm :: vm in vms && id in vm.securityGroupIds
    decreases |vms|
  {
    if |vms| == 0 then []
    else
      var init := vms[..|vms| - 1];
      assert vms == init + [vms[|vms| - 1]];
      SecurityGroupRefs(init) + vms[|vms| - 1].securityGroupIds
  }

  /** The VNets referenced by the VMs. */
  function ExtractUniqueVNetIds(vms: seq<VmInfo>): (ids: seq<string>)
    ensures NoDup(ids)
    ensures forall id :: id in ids <==> id != "" && exists vm :: vm in vms && vm.vNetId == id
  {
    UniqueIds(VNetRefs(vms))
  }

  /** The SSH keys referenced by the VMs. */
  function ExtractUniqueSshKeyIds(vms: seq<VmInfo>): (ids: seq<string>)
    ensures NoDup(ids)
    ensures forall id :: id in ids <==> id != "" && exists vm :: vm in vms && vm.sshKeyId == id
  {
    UniqueIds(SshKeyRefs(vms))
  }

  /** The security groups referenced by the VMs: the union of their
      security-group lists. */
  function ExtractUniqueSecurityGroupIds(vms: seq<VmInfo>): (ids: seq<string>)
    ensures NoDup(ids)
    ensures forall id :: id in ids <==> id != "" && exists vm :: vm in vms && id in vm.securityGroupIds
  {
    UniqueIds(SecurityGroupRefs(vms))
  }

  /** The machine specs referenced by the VMs. */
  function ExtractUniqueSpecIds(vms: seq<VmInfo>): (ids: seq<string>)
    ensures NoDup(ids)
    ensures forall id :: id in ids <==> id != "" && exists vm :: vm in vms && vm.specId == id
  {
    UniqueIds(SpecRefs(vms))
  }

  /** The machine images referenced by the VMs. */
  function ExtractUniqueImageIds(vms: seq<VmInfo>): (ids: seq<string>)
    ensures NoDup(ids)
    ensures forall id :: id in ids <==> id != "" && exists vm :: vm in vms && vm.imageId == id
  {
    UniqueIds(ImageRefs(vms))
  }

  /** However many VMs share a spec, the spec identifier list has one entry
      per distinct non-empty identifier, so each spec is read once. */
  lemma SpecIdsCountDistinct(vms: seq<VmInfo>)
    ensures |ExtractUniqueSpecIds(vms)| == |set vm | vm in vms && vm.specId != "" :: vm.specId|
  {
    var ids := ExtractUniqueSpecIds(vms);
    NoDupCard(ids);
    assert (set x | x in ids) == (set vm | vm in vms && vm.specId != "" :: vm.specId);
  }

  /** A snapshot without VMs references nothing. */
  lemma ExtractEmpty(vms: seq<VmInfo>)
    requires vms == []
    ensures ExtractUniqueVNetIds(vms) == []
    ensures ExtractUniqueSshKeyIds(vms) == []
    ensures ExtractUniqueSecurityGroupIds(vms) == []
    ensures ExtractUniqueSpecIds(vms) == []
    ensures ExtractUniqueImageIds(vms) == []
  {
  }
}
