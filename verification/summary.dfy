/** The migration summary: VM status counts and the target cloud and region. */
module Summary {
  import opened Text
  import opened Catalog
  import opened ReportTypes

  /** The target cloud and region of an infrastructure without VMs. */
  const Unknown: string := "Unknown"

  datatype StatusClass = Running | Stopped | Other

  /** A status is never both running and stopped: the words differ in their
      first letter ("running" against "stopped") or in length ("terminated"). */
  lemma StatusWordsExclusive(status: string)
    ensures !(EqualFold(status, "running") && (EqualFold(status, "stopped") || EqualFold(status, "terminated")))
  {
    if EqualFold(status, "running") {
      assert FoldsTo(status[0], 'r');
      assert !FoldsTo(status[0], 's');
      assert "stopped"[0] == 's';
    }
  }

  /** How the summary classifies a VM status: "running" in any letter case is
      running; "stopped" or "terminated" in any letter case is stopped; any
      other status is in neither class. */
  function Classify(status: string): (c: StatusClass)
    ensures c == Running <==> EqualFold(status, "running")
    ensures c == Stopped <==> EqualFold(status, "stopped") || EqualFold(status, "terminated")
  {
    StatusWordsExclusive(status);
    if EqualFold(status, "running") then Running
    else if EqualFold(status, "stopped") || EqualFold(status, "terminated") then Stopped
    else Other
  }

  /** The status class of each VM, in order. */
  function Classes(vms: seq<VmInfo>): (cs: seq<StatusClass>)
    ensures |cs| == |vms|
    ensures forall i :: 0 <= i < |vms| ==> cs[i] == Classify(vms[i].status)
  {
    seq(|vms|, i requires 0 <= i < |vms| => Classify(vms[i].status))
  }

  /** The running and stopped counts, accumulated over the VMs in order. */
  function CountStatuses(vms: seq<VmInfo>): (counts: (nat, nat))
    ensures counts.0 == multiset(Classes(vms))[Running]
    ensures counts.1 == multiset(Classes(vms))[Stopped]
    decreases |vms|
  {
    if |vms| == 0 then (0, 0)
    else
      var init := vms[..|vms| - 1];
      var last := vms[|vms| - 1];
      assert Classes(vms) == Classes(init) + [Classify(last.status)];
      var (running, stopped) := CountStatuses(init);
      match Classify(last.status)
      case Running => (running + 1, stopped)
      case Stopped => (running, stopped + 1)
      case Other => (running, stopped)
  }

  /** Every VM is in exactly one class, so the three counts add up to the
      number of VMs. */
  lemma {:induction false} ClassCountsPartition(cs: seq<StatusClass>)
    ensures multiset(cs)[Running] + multiset(cs)[Stopped] + multiset(cs)[Other] == |cs|
    decreases |cs|
  {
    if |cs| > 0 {
      ClassCountsPartition(cs[1..]);
      assert cs == [cs[0]] + cs[1..];
      var rest := multiset(cs[1..]);
      assert multiset(cs) == multiset{cs[0]} + rest;
      match cs[0]
      case Running => assert multiset(cs)[Running] == rest[Running] + 1;
      case Stopped => assert multiset(cs)[Stopped] == rest[Stopped] + 1;
      case Other => assert multiset(cs)[Other] == rest[Other] + 1;
    }
  }

  /** buildMigrationSummary: status counts over all VMs, and the target cloud
      and region of the first VM ("Unknown" when there is none). */
  function BuildMigrationSummary(mci: MciInfo): (s: MigrationSummary)
    ensures s.totalVmCount == |mci.vms|
    ensures s.runningVmCount == multiset(Classes(mci.vms))[Running]
    ensures s.stoppedVmCount == multiset(Classes(mci.vms))[Stopped]
    ensures s.runningVmCount + s.stoppedVmCount <= s.totalVmCount
    ensures |mci.vms| == 0 ==> s.targetCloud == Unknown && s.targetRegion == Unknown
    ensures |mci.vms| > 0 ==>
      s.targetCloud == ToUpper(mci.vms[0].providerName) && s.targetRegion == mci.vms[0].region.region
    ensures s.mciName == mci.name && s.mciDescription == mci.description && s.status == mci.status
    ensures s.labels == mci.labels && s.installMonAgent == mci.installMonAgent
  {
    var (running, stopped) := CountStatuses(mci.vms);
    ClassCountsPartition(Classes(mci.vms));
    var targetCloud := if |mci.vms| > 0 then ToUpper(mci.vms[0].providerName) else Unknown;
    var targetRegion := if |mci.vms| > 0 then mci.vms[0].region.region else Unknown;
    MigrationSummary(
      mci.name, mci.description, mci.status, targetCloud, targetRegion,
      |mci.vms|, running, stopped, mci.labels, mci.installMonAgent)
  }
}
