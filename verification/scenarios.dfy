/** Worked cases of the report engine's promises: a failing security group,
    shared specs, a long public key, and mixed VM statuses. */
module Scenarios {
  import opened Results
  import opened Text
  import opened Catalog
  import opened ReportTypes
  import opened Extract
  import opened Collect
  import opened Summary
  import opened Report

  /** The VMs list exactly the security groups `a`, `b` and `c`. */
  ghost predicate ListsThreeGroups(vms: seq<VmInfo>, a: string, b: string, c: string) {
    && a != "" && b != "" && c != "" && a != b && b != c && a != c
    && forall id :: id in SecurityGroupRefs(vms) <==> id == a || id == b || id == c
  }

  /** The security groups the VMs list, read with `c` failing, are `a` and `b`. */
  lemma ReadableOfThree(client: Client, nsId: string, vms: seq<VmInfo>, a: string, b: string, c: string)
    requires ListsThreeGroups(vms, a, b, c)
    requires client.readSecurityGroup(nsId, a).Success? && client.readSecurityGroup(nsId, b).Success?
    requires client.readSecurityGroup(nsId, c).Failure?
    ensures (set id | id in SecurityGroupRefs(vms) && id != "" && client.readSecurityGroup(nsId, id).Success?) == {a, b}
    ensures |set id | id in SecurityGroupRefs(vms) && id != "" && client.readSecurityGroup(nsId, id).Success?| == 2
  {
    assert |{a, b}| == 2;
  }

  /** The security-group identifiers extracted from VMs that list `a`, `b`
      and `c` are those three. */
  lemma ExtractedThree(vms: seq<VmInfo>, a: string, b: string, c: string)
    requires ListsThreeGroups(vms, a, b, c)
    ensures forall id :: id in ExtractUniqueSecurityGroupIds(vms) <==> id == a || id == b || id == c
    ensures |ExtractUniqueSecurityGroupIds(vms)| == 3
  {
    ThreeIds(SecurityGroupRefs(vms), a, b, c);
  }

  /** Three distinct non-empty identifiers, however often referenced, leave
      three identifiers to read. */
  lemma ThreeIds(refs: seq<string>, a: string, b: string, c: string)
    requires a != "" && b != "" && c != "" && a != b && b != c && a != c
    requires forall id :: id in refs <==> id == a || id == b || id == c
    ensures forall id :: id in UniqueIds(refs) <==> id == a || id == b || id == c
    ensures |UniqueIds(refs)| == 3
  {
    var ids := UniqueIds(refs);
    NoDupCard(ids);
    assert (set x | x in ids) == {a, b} + {c};
    assert |{a, b}| == 2;
  }

  /** A group list that holds what SecurityGroupsOf promises for VMs that
      list `a`, `b` and `c`, with `c` unreadable, holds the records of `a`
      and `b` and nothing else. */
  lemma OneOfThreeGroupsKept(client: Client, nsId: string, vms: seq<VmInfo>, gs: seq<ReportSecurityGroup>,
                             a: string, b: string, c: string)
    requires ListsThreeGroups(vms, a, b, c)
    requires client.readSecurityGroup(nsId, a).Success? && client.readSecurityGroup(nsId, b).Success?
    requires client.readSecurityGroup(nsId, c).Failure?
    requires SecurityGroupsOf(client, nsId, vms, gs)
    ensures |gs| == 2
    ensures ProjectSecurityGroup(client.readSecurityGroup(nsId, a).value) in gs
    ensures ProjectSecurityGroup(client.readSecurityGroup(nsId, b).value) in gs
  {
    ReadableOfThree(client, nsId, vms, a, b, c);
  }

  /** Of three security groups the VMs list, one cannot be read: the report
      is still produced and holds the other two groups. */
  lemma OneOfThreeGroupsFails(client: Client, nsId: string, mciId: string, generatedAt: int, mci: MciInfo,
                              a: string, b: string, c: string)
    requires client.readMci(nsId, mciId) == Success(mci)
    requires ListsThreeGroups(mci.vms, a, b, c)
    requires client.readSecurityGroup(nsId, a).Success? && client.readSecurityGroup(nsId, b).Success?
    requires client.readSecurityGroup(nsId, c).Failure?
    ensures GenerateMigrationReport(client, nsId, mciId, generatedAt).Success?
    ensures var gs := ReportOf(client, nsId, mciId, generatedAt, mci).security.securityGroups;
      && |gs| == 2
      && ProjectSecurityGroup(client.readSecurityGroup(nsId, a).value) in gs
      && ProjectSecurityGroup(client.readSecurityGroup(nsId, b).value) in gs
  {
    ReportSecurityGroups(client, nsId, mciId, generatedAt, mci);
    OneOfThreeGroupsKept(client, nsId, mci.vms, ReportOf(client, nsId, mciId, generatedAt, mci).security.securityGroups, a, b, c);
  }

  /** When one of three listed security groups cannot be read, the
      security collector, given the key and group identifiers extracted from
      the VMs, logs the SSH key warnings and then exactly one security group
      warning, naming that group and its cause. */
  lemma OneOfThreeGroupsWarns(client: Client, nsId: string, vms: seq<VmInfo>, a: string, b: string, c: string, cause: string)
    requires ListsThreeGroups(vms, a, b, c)
    requires client.readSecurityGroup(nsId, a).Success? && client.readSecurityGroup(nsId, b).Success?
    requires client.readSecurityGroup(nsId, c) == Failure(cause)
    ensures var keyIds := ExtractUniqueSshKeyIds(vms);
      CollectSecurityResources(client, nsId, keyIds, ExtractUniqueSecurityGroupIds(vms)).warnings
        == CollectSshKeys(client, nsId, keyIds).warnings + [Unavailable(SecurityGroupKind, c, cause)]
  {
    var ids := ExtractUniqueSecurityGroupIds(vms);
    ExtractedThree(vms, a, b, c);
    ThirdGroupWarns(client, nsId, ids, a, b, c, cause);
    SecurityWarningsInOrder(client, nsId, ExtractUniqueSshKeyIds(vms), ids);
  }

  /** The security collector logs the SSH key warnings, then the security group warnings. */
  lemma SecurityWarningsInOrder(client: Client, nsId: string, keyIds: seq<string>, groupIds: seq<string>)
    ensures CollectSecurityResources(client, nsId, keyIds, groupIds).warnings
      == CollectSshKeys(client, nsId, keyIds).warnings + CollectSecurityGroups(client, nsId, groupIds).warnings
  {
  }


  /** Of three distinct security groups, the one that cannot be read leaves
      the only warning. */
  lemma ThirdGroupWarns(client: Client, nsId: string, ids: seq<string>, a: string, b: string, c: string, cause: string)
    requires NoDup(ids) && a != b && b != c && a != c
    requires forall id :: id in ids <==> id == a || id == b || id == c
    requires |ids| == 3
    requires client.readSecurityGroup(nsId, a).Success? && client.readSecurityGroup(nsId, b).Success?
    requires client.readSecurityGroup(nsId, c) == Failure(cause)
    ensures CollectSecurityGroups(client, nsId, ids).warnings == [Unavailable(SecurityGroupKind, c, cause)]
  {
    assert (set id | id in ids && client.readSecurityGroup(nsId, id).Success?) == {a, b};
    assert |{a, b}| == 2;
    var ws := CollectSecurityGroups(client, nsId, ids).warnings;
    assert |ws| == 1 && ws[0] in ws;
  }

  /** Three VMs on spec `a` and one on spec `b`, both readable. */
  predicate ThreeAndOne(vms: seq<VmInfo>, a: string, b: string) {
    && |vms| == 4
    && vms[0].specId == a && vms[1].specId == a && vms[2].specId == a && vms[3].specId == b
    && a != "" && b != "" && a != b
  }

  /** Three VMs on spec `a` and one on `b` reference `a` three times and `b` once. */
  lemma ThreeAndOneRefs(vms: seq<VmInfo>, a: string, b: string)
    requires ThreeAndOne(vms, a, b)
    ensures multiset(SpecRefs(vms))[a] == 3 && multiset(SpecRefs(vms))[b] == 1
  {
    assert SpecRefs(vms) == [a, a, a, b];
    assert multiset([a, a, a, b]) == multiset{a, a, a, b};
  }

  /** The readable spec identifiers of three VMs on `a` and one on `b` are `a` and `b`. */
  lemma ThreeAndOneReadable(client: Client, vms: seq<VmInfo>, a: string, b: string)
    requires ThreeAndOne(vms, a, b)
    requires client.readSpec(SystemNamespace, a).Success? && client.readSpec(SystemNamespace, b).Success?
    ensures |set vm | vm in vms && vm.specId != "" && client.readSpec(SystemNamespace, vm.specId).Success? :: vm.specId| == 2
  {
    var readable := set vm | vm in vms && vm.specId != "" && client.readSpec(SystemNamespace, vm.specId).Success? :: vm.specId;
    assert vms[0] in vms && vms[3] in vms;
    forall id | id in readable ensures id == a || id == b {
      var vm :| vm in vms && vm.specId == id;
      var i :| 0 <= i < 4 && vms[i] == vm;
    }
    assert readable == {a, b};
    assert |{a, b}| == 2;
  }

  /** Three VMs on one spec and one on another: a spec list that holds what
      SpecsOf promises, such as the report's, lists the two specs once each,
      with usage counts three and one. */
  lemma SharedSpecUsage(client: Client, vms: seq<VmInfo>, specs: seq<SpecWithUsage>, a: string, b: string)
    requires ThreeAndOne(vms, a, b)
    requires client.readSpec(SystemNamespace, a).Success? && client.readSpec(SystemNamespace, b).Success?
    requires SpecsOf(client, vms, specs)
    ensures |specs| == 2
    ensures SpecWithUsage(client.readSpec(SystemNamespace, a).value, 3) in specs
    ensures SpecWithUsage(client.readSpec(SystemNamespace, b).value, 1) in specs
  {
    ThreeAndOneReadable(client, vms, a, b);
    ThreeAndOneRefs(vms, a, b);
    assert vms[0] in vms && vms[3] in vms;
  }

  /** A VM's SSH key with an 80-character public key shows, in a key list
      that holds what SshKeysOf promises (such as the report's), as its first
      50 characters and the marker, 53 characters in all; a 30-character key
      shows unchanged. */
  lemma LongAndShortPublicKeys(client: Client, nsId: string, vms: seq<VmInfo>, keys: seq<ReportSshKey>, vm: VmInfo)
    requires SshKeysOf(client, nsId, vms, keys)
    requires vm in vms && vm.sshKeyId != "" && client.readSshKey(nsId, vm.sshKeyId).Success?
    ensures var key := client.readSshKey(nsId, vm.sshKeyId).value;
      && (|key.publicKey| == 80 ==>
            exists k :: k in keys && k.name == key.name && |k.publicKey| == 53
              && k.publicKey == key.publicKey[..50] + "...")
      && (|key.publicKey| == 30 ==> exists k :: k in keys && k.name == key.name && k.publicKey == key.publicKey)
  {
    var key := client.readSshKey(nsId, vm.sshKeyId).value;
    assert ProjectSshKey(key) in keys;
  }

  /** "Running" is running, in any letter case. */
  lemma RunningIsRunning()
    ensures Classify("Running") == Running
  {
    assert EqualFold("Running", "running");
  }

  /** "STOPPED" and "Terminated" are stopped. */
  lemma StoppedAndTerminatedAreStopped()
    ensures Classify("STOPPED") == Stopped
    ensures Classify("Terminated") == Stopped
  {
    assert EqualFold("STOPPED", "stopped");
    assert EqualFold("Terminated", "terminated");
  }

  /** "Suspended" is in neither class: it has the length of none of the words. */
  lemma SuspendedIsOther()
    ensures Classify("Suspended") == Other
  {
    assert |"Suspended"| == 9;
  }

  /** VMs "Running", "STOPPED", "Terminated" and "Suspended" give one running
      VM and two stopped ones out of four. */
  lemma MixedStatuses(mci: MciInfo)
    requires |mci.vms| == 4
    requires mci.vms[0].status == "Running" && mci.vms[1].status == "STOPPED"
    requires mci.vms[2].status == "Terminated" && mci.vms[3].status == "Suspended"
    ensures var s := BuildMigrationSummary(mci);
      s.totalVmCount == 4 && s.runningVmCount == 1 && s.stoppedVmCount == 2
  {
    RunningIsRunning();
    StoppedAndTerminatedAreStopped();
    SuspendedIsOther();
    var cs := Classes(mci.vms);
    assert cs == [Running, Stopped, Stopped, Other];
    assert multiset(cs)[Running] == 1 && multiset(cs)[Stopped] == 2;
  }
}
