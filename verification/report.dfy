/** The report assembler: reads the infrastructure snapshot, collects every
    resource its VMs refer to, and puts together the summary and the cost
    estimate. Only the snapshot read can fail the whole report. */
module Report {
  import opened Results
  import opened Text
  import opened Catalog
  import opened ReportTypes
  import opened Extract
  import opened Collect
  import opened Summary
  import opened Cost

  /** The report-schema version stamped into every report. */
  const ReportVersion: string := "1.0"

  /** The context put in front of a failed snapshot read. */
  const MciErrorPrefix: string := "failed to retrieve MCI information: "

  /** The report built from a snapshot that was read. The collectors'
      warnings are logged, not returned, so they do not reach the report. */
  function Assemble(client: Client, nsId: string, mciId: string, generatedAt: int, mci: MciInfo): (rep: MigrationReport)
    ensures rep.metadata == ReportMetadata(generatedAt, nsId, mciId, mci.name, ReportVersion)
    ensures rep.summary == BuildMigrationSummary(mci)
    ensures |rep.compute.vms| == |mci.vms|
  {
    var network := CollectNetworkResources(client, nsId, ExtractUniqueVNetIds(mci.vms));
    var security := CollectSecurityResources(client, nsId, ExtractUniqueSshKeyIds(mci.vms), ExtractUniqueSecurityGroupIds(mci.vms));
    var compute := CollectComputeResources(client, nsId, mci, ExtractUniqueSpecIds(mci.vms), ExtractUniqueImageIds(mci.vms));
    MigrationReport(
      ReportMetadata(generatedAt, nsId, mciId, mci.name, ReportVersion),
      BuildMigrationSummary(mci),
      network.value,
      security.value,
      compute.value,
      CalculateCostEstimation(compute.value))
  }

  /** GenerateMigrationReport: fails exactly when the snapshot cannot be read,
      with the read's cause behind a fixed context; otherwise succeeds,
      whatever else fails to read, with the report stamped with the caller's
      time, the requested identifiers and the snapshot's name. */
  function GenerateMigrationReport(client: Client, nsId: string, mciId: string, generatedAt: int): (r: Result<MigrationReport, string>)
    ensures r.Failure? <==> client.readMci(nsId, mciId).Failure?
    ensures r.Failure? ==> r.error == MciErrorPrefix + client.readMci(nsId, mciId).error
    ensures r.Success? ==>
      r.value.metadata == ReportMetadata(generatedAt, nsId, mciId, client.readMci(nsId, mciId).value.name, ReportVersion)
  {
    match client.readMci(nsId, mciId)
    case Failure(cause) => Failure(MciErrorPrefix + cause)
    case Success(mci) => Success(Assemble(client, nsId, mciId, generatedAt, mci))
  }

  /** The report of a snapshot that was read. */
  function ReportOf(client: Client, nsId: string, mciId: string, generatedAt: int, mci: MciInfo): (rep: MigrationReport)
    requires client.readMci(nsId, mciId) == Success(mci)
    ensures GenerateMigrationReport(client, nsId, mciId, generatedAt) == Success(rep)
  {
    Assemble(client, nsId, mciId, generatedAt, mci)
  }

  // ------------------------------------------- sections over the VM list

  /** The VNets collected for the VMs are exactly the records of the
      VNets some VM refers to that could be read. */
  lemma VNetsMembers(client: Client, nsId: string, vms: seq<VmInfo>)
    ensures var rs := CollectNetworkResources(client, nsId, ExtractUniqueVNetIds(vms)).value.vNets;
      forall v :: v in rs <==>
        exists vm :: vm in vms && vm.vNetId != "" && client.readVNet(nsId, vm.vNetId).Success?
          && v == ProjectVNet(client.readVNet(nsId, vm.vNetId).value)
  {
    var ids := ExtractUniqueVNetIds(vms);
    var rs := CollectNetworkResources(client, nsId, ExtractUniqueVNetIds(vms)).value.vNets;
    forall v | v in rs
      ensures
        exists vm :: vm in vms && vm.vNetId != "" && client.readVNet(nsId, vm.vNetId).Success?
          && v == ProjectVNet(client.readVNet(nsId, vm.vNetId).value)
    {
      var id :| id in ids && client.readVNet(nsId, id).Success? && v == ProjectVNet(client.readVNet(nsId, id).value);
      var vm :| vm in vms && vm.vNetId == id;
    }
    forall vm | vm in vms && vm.vNetId != "" && client.readVNet(nsId, vm.vNetId).Success?
      ensures ProjectVNet(client.readVNet(nsId, vm.vNetId).value) in rs
    {
      assert vm.vNetId in ids;
    }
  }

  /** One record per distinct VNet identifier some VM holds whose read succeeds. */
  lemma VNetsCount(client: Client, nsId: string, vms: seq<VmInfo>)
    ensures |CollectNetworkResources(client, nsId, ExtractUniqueVNetIds(vms)).value.vNets|
      == |set vm | vm in vms && vm.vNetId != "" && client.readVNet(nsId, vm.vNetId).Success? :: vm.vNetId|
  {
    var ids := ExtractUniqueVNetIds(vms);
    assert (set id | id in ids && client.readVNet(nsId, id).Success?)
      == (set vm | vm in vms && vm.vNetId != "" && client.readVNet(nsId, vm.vNetId).Success? :: vm.vNetId);
  }

  /** A VNet record occurs once per distinct VNet identifier some VM holds that reads to it. */
  lemma VNetsMultiplicity(client: Client, nsId: string, vms: seq<VmInfo>, rs: seq<ReportVNet>)
    requires forall v ::
      multiset(rs)[v] == |set id | id in ExtractUniqueVNetIds(vms) && client.readVNet(nsId, id).Success?
        && ProjectVNet(client.readVNet(nsId, id).value) == v|
    ensures forall v ::
      multiset(rs)[v] == |set vm | vm in vms && vm.vNetId != "" && client.readVNet(nsId, vm.vNetId).Success?
        && ProjectVNet(client.readVNet(nsId, vm.vNetId).value) == v :: vm.vNetId|
  {
    var ids := ExtractUniqueVNetIds(vms);
    forall v
      ensures multiset(rs)[v] == |set vm | vm in vms && vm.vNetId != "" && client.readVNet(nsId, vm.vNetId).Success?
        && ProjectVNet(client.readVNet(nsId, vm.vNetId).value) == v :: vm.vNetId|
    {
      assert (set id | id in ids && client.readVNet(nsId, id).Success?
              && ProjectVNet(client.readVNet(nsId, id).value) == v)
        == (set vm | vm in vms && vm.vNetId != "" && client.readVNet(nsId, vm.vNetId).Success?
              && ProjectVNet(client.readVNet(nsId, vm.vNetId).value) == v :: vm.vNetId);
    }
  }

  /** The SSH keys collected for the VMs are exactly the records of the
      SSH keys some VM refers to that could be read. */
  lemma SshKeysMembers(client: Client, nsId: string, vms: seq<VmInfo>)
    ensures var rs := CollectSecurityResources(client, nsId, ExtractUniqueSshKeyIds(vms), ExtractUniqueSecurityGroupIds(vms)).value.sshKeys;
      forall k :: k in rs <==>
        exists vm :: vm in vms && vm.sshKeyId != "" && client.readSshKey(nsId, vm.sshKeyId).Success?
          && k == ProjectSshKey(client.readSshKey(nsId, vm.sshKeyId).value)
  {
    var ids := ExtractUniqueSshKeyIds(vms);
    var rs := CollectSecurityResources(client, nsId, ExtractUniqueSshKeyIds(vms), ExtractUniqueSecurityGroupIds(vms)).value.sshKeys;
    forall k | k in rs
      ensures
        exists vm :: vm in vms && vm.sshKeyId != "" && client.readSshKey(nsId, vm.sshKeyId).Success?
          && k == ProjectSshKey(client.readSshKey(nsId, vm.sshKeyId).value)
    {
      var id :| id in ids && client.readSshKey(nsId, id).Success? && k == ProjectSshKey(client.readSshKey(nsId, id).value);
      var vm :| vm in vms && vm.sshKeyId == id;
    }
    forall vm | vm in vms && vm.sshKeyId != "" && client.readSshKey(nsId, vm.sshKeyId).Success?
      ensures ProjectSshKey(client.readSshKey(nsId, vm.sshKeyId).value) in rs
    {
      assert vm.sshKeyId in ids;
    }
  }

  /** One record per distinct SSH key identifier some VM holds whose read succeeds. */
  lemma SshKeysCount(client: Client, nsId: string, vms: seq<VmInfo>)
    ensures |CollectSecurityResources(client, nsId, ExtractUniqueSshKeyIds(vms), ExtractUniqueSecurityGroupIds(vms)).value.sshKeys|
      == |set vm | vm in vms && vm.sshKeyId != "" && client.readSshKey(nsId, vm.sshKeyId).Success? :: vm.sshKeyId|
  {
    var ids := ExtractUniqueSshKeyIds(vms);
    assert (set id | id in ids && client.readSshKey(nsId, id).Success?)
      == (set vm | vm in vms && vm.sshKeyId != "" && client.readSshKey(nsId, vm.sshKeyId).Success? :: vm.sshKeyId);
  }

  /** An SSH-key record occurs once per distinct SSH-key identifier some VM holds that reads to it. */
  lemma SshKeysMultiplicity(client: Client, nsId: string, vms: seq<VmInfo>, rs: seq<ReportSshKey>)
    requires forall k ::
      multiset(rs)[k] == |set id | id in ExtractUniqueSshKeyIds(vms) && client.readSshKey(nsId, id).Success?
        && ProjectSshKey(client.readSshKey(nsId, id).value) == k|
    ensures forall k ::
      multiset(rs)[k] == |set vm | vm in vms && vm.sshKeyId != "" && client.readSshKey(nsId, vm.sshKeyId).Success?
        && ProjectSshKey(client.readSshKey(nsId, vm.sshKeyId).value) == k :: vm.sshKeyId|
  {
    var ids := ExtractUniqueSshKeyIds(vms);
    forall k
      ensures multiset(rs)[k] == |set vm | vm in vms && vm.sshKeyId != "" && client.readSshKey(nsId, vm.sshKeyId).Success?
        && ProjectSshKey(client.readSshKey(nsId, vm.sshKeyId).value) == k :: vm.sshKeyId|
    {
      assert (set id | id in ids && client.readSshKey(nsId, id).Success?
              && ProjectSshKey(client.readSshKey(nsId, id).value) == k)
        == (set vm | vm in vms && vm.sshKeyId != "" && client.readSshKey(nsId, vm.sshKeyId).Success?
              && ProjectSshKey(client.readSshKey(nsId, vm.sshKeyId).value) == k :: vm.sshKeyId);
    }
  }

  /** The specs collected for the VMs are exactly the records of the
      specs some VM refers to that could be read, each with the number of VMs that use it. */
  lemma SpecsMembers(client: Client, vms: seq<VmInfo>)
    ensures var rs := CollectSpecs(client, ExtractUniqueSpecIds(vms), vms).value;
      forall s :: s in rs <==>
        exists vm :: vm in vms && vm.specId != "" && client.readSpec(SystemNamespace, vm.specId).Success?
          && s == SpecWithUsage(client.readSpec(SystemNamespace, vm.specId).value, multiset(SpecRefs(vms))[vm.specId])
  {
    var ids := ExtractUniqueSpecIds(vms);
    var rs := CollectSpecs(client, ExtractUniqueSpecIds(vms), vms).value;
    forall s | s in rs
      ensures
        exists vm :: vm in vms && vm.specId != "" && client.readSpec(SystemNamespace, vm.specId).Success?
          && s == SpecWithUsage(client.readSpec(SystemNamespace, vm.specId).value, multiset(SpecRefs(vms))[vm.specId])
    {
      var id :| id in ids && client.readSpec(SystemNamespace, id).Success? && s == SpecWithUsage(client.readSpec(SystemNamespace, id).value, multiset(SpecRefs(vms))[id]);
      var vm :| vm in vms && vm.specId == id;
    }
    forall vm | vm in vms && vm.specId != "" && client.readSpec(SystemNamespace, vm.specId).Success?
      ensures SpecWithUsage(client.readSpec(SystemNamespace, vm.specId).value, multiset(SpecRefs(vms))[vm.specId]) in rs
    {
      assert vm.specId in ids;
    }
  }

  /** One record per distinct spec identifier some VM holds whose read succeeds. */
  lemma SpecsCount(client: Client, vms: seq<VmInfo>)
    ensures |CollectSpecs(client, ExtractUniqueSpecIds(vms), vms).value|
      == |set vm | vm in vms && vm.specId != "" && client.readSpec(SystemNamespace, vm.specId).Success? :: vm.specId|
  {
    var ids := ExtractUniqueSpecIds(vms);
    assert (set id | id in ids && client.readSpec(SystemNamespace, id).Success?)
      == (set vm | vm in vms && vm.specId != "" && client.readSpec(SystemNamespace, vm.specId).Success? :: vm.specId);
  }

  /** A security-group record occurs once per distinct security-group
      identifier some VM lists that reads to it. */
  lemma SecurityGroupsMultiplicity(client: Client, nsId: string, vms: seq<VmInfo>, rs: seq<ReportSecurityGroup>)
    requires forall g ::
      multiset(rs)[g] == |set id | id in ExtractUniqueSecurityGroupIds(vms) && client.readSecurityGroup(nsId, id).Success?
        && ProjectSecurityGroup(client.readSecurityGroup(nsId, id).value) == g|
    ensures forall g ::
      multiset(rs)[g] == |set id | id in SecurityGroupRefs(vms) && id != "" && client.readSecurityGroup(nsId, id).Success?
        && ProjectSecurityGroup(client.readSecurityGroup(nsId, id).value) == g|
  {
    var ids := ExtractUniqueSecurityGroupIds(vms);
    forall g
      ensures multiset(rs)[g] == |set id | id in SecurityGroupRefs(vms) && id != "" && client.readSecurityGroup(nsId, id).Success?
        && ProjectSecurityGroup(client.readSecurityGroup(nsId, id).value) == g|
    {
      assert (set id | id in ids && client.readSecurityGroup(nsId, id).Success?
              && ProjectSecurityGroup(client.readSecurityGroup(nsId, id).value) == g)
        == (set id | id in SecurityGroupRefs(vms) && id != "" && client.readSecurityGroup(nsId, id).Success?
              && ProjectSecurityGroup(client.readSecurityGroup(nsId, id).value) == g);
    }
  }

  /** A spec record occurs once per distinct spec identifier some VM holds that reads to it. */
  lemma SpecsMultiplicity(client: Client, vms: seq<VmInfo>, rs: seq<SpecWithUsage>)
    requires forall s ::
      multiset(rs)[s] == |set id | id in ExtractUniqueSpecIds(vms) && client.readSpec(SystemNamespace, id).Success?
        && SpecWithUsage(client.readSpec(SystemNamespace, id).value, multiset(SpecRefs(vms))[id]) == s|
    ensures forall s ::
      multiset(rs)[s] == |set vm | vm in vms && vm.specId != "" && client.readSpec(SystemNamespace, vm.specId).Success?
        && SpecWithUsage(client.readSpec(SystemNamespace, vm.specId).value, multiset(SpecRefs(vms))[vm.specId]) == s :: vm.specId|
  {
    var ids := ExtractUniqueSpecIds(vms);
    forall s
      ensures multiset(rs)[s] == |set vm | vm in vms && vm.specId != "" && client.readSpec(SystemNamespace, vm.specId).Success?
        && SpecWithUsage(client.readSpec(SystemNamespace, vm.specId).value, multiset(SpecRefs(vms))[vm.specId]) == s :: vm.specId|
    {
      assert (set id | id in ids && client.readSpec(SystemNamespace, id).Success?
              && SpecWithUsage(client.readSpec(SystemNamespace, id).value, multiset(SpecRefs(vms))[id]) == s)
        == (set vm | vm in vms && vm.specId != "" && client.readSpec(SystemNamespace, vm.specId).Success?
              && SpecWithUsage(client.readSpec(SystemNamespace, vm.specId).value, multiset(SpecRefs(vms))[vm.specId]) == s :: vm.specId);
    }
  }

  /** The images collected for the VMs are exactly the records of the
      images some VM refers to that could be read, each with the number of VMs that use it. */
  lemma ImagesMembers(client: Client, vms: seq<VmInfo>)
    ensures var rs := CollectImages(client, ExtractUniqueImageIds(vms), vms).value;
      forall m :: m in rs <==>
        exists vm :: vm in vms && vm.imageId != "" && client.readImage(SystemNamespace, vm.imageId).Success?
          && m == ImageWithUsage(client.readImage(SystemNamespace, vm.imageId).value, multiset(ImageRefs(vms))[vm.imageId])
  {
    var ids := ExtractUniqueImageIds(vms);
    var rs := CollectImages(client, ExtractUniqueImageIds(vms), vms).value;
    forall m | m in rs
      ensures
        exists vm :: vm in vms && vm.imageId != "" && client.readImage(SystemNamespace, vm.imageId).Success?
          && m == ImageWithUsage(client.readImage(SystemNamespace, vm.imageId).value, multiset(ImageRefs(vms))[vm.imageId])
    {
      var id :| id in ids && client.readImage(SystemNamespace, id).Success? && m == ImageWithUsage(client.readImage(SystemNamespace, id).value, multiset(ImageRefs(vms))[id]);
      var vm :| vm in vms && vm.imageId == id;
    }
    forall vm | vm in vms && vm.imageId != "" && client.readImage(SystemNamespace, vm.imageId).Success?
      ensures ImageWithUsage(client.readImage(SystemNamespace, vm.imageId).value, multiset(ImageRefs(vms))[vm.imageId]) in rs
    {
      assert vm.imageId in ids;
    }
  }

  /** One record per distinct image identifier some VM holds whose read succeeds. */
  lemma ImagesCount(client: Client, vms: seq<VmInfo>)
    ensures |CollectImages(client, ExtractUniqueImageIds(vms), vms).value|
      == |set vm | vm in vms && vm.imageId != "" && client.readImage(SystemNamespace, vm.imageId).Success? :: vm.imageId|
  {
    var ids := ExtractUniqueImageIds(vms);
    assert (set id | id in ids && client.readImage(SystemNamespace, id).Success?)
      == (set vm | vm in vms && vm.imageId != "" && client.readImage(SystemNamespace, vm.imageId).Success? :: vm.imageId);
  }

  /** An image record occurs once per distinct image identifier some VM holds that reads to it. */
  lemma ImagesMultiplicity(client: Client, vms: seq<VmInfo>, rs: seq<ImageWithUsage>)
    requires forall m ::
      multiset(rs)[m] == |set id | id in ExtractUniqueImageIds(vms) && client.readImage(SystemNamespace, id).Success?
        && ImageWithUsage(client.readImage(SystemNamespace, id).value, multiset(ImageRefs(vms))[id]) == m|
    ensures forall m ::
      multiset(rs)[m] == |set vm | vm in vms && vm.imageId != "" && client.readImage(SystemNamespace, vm.imageId).Success?
        && ImageWithUsage(client.readImage(SystemNamespace, vm.imageId).value, multiset(ImageRefs(vms))[vm.imageId]) == m :: vm.imageId|
  {
    var ids := ExtractUniqueImageIds(vms);
    forall m
      ensures multiset(rs)[m] == |set vm | vm in vms && vm.imageId != "" && client.readImage(SystemNamespace, vm.imageId).Success?
        && ImageWithUsage(client.readImage(SystemNamespace, vm.imageId).value, multiset(ImageRefs(vms))[vm.imageId]) == m :: vm.imageId|
    {
      assert (set id | id in ids && client.readImage(SystemNamespace, id).Success?
              && ImageWithUsage(client.readImage(SystemNamespace, id).value, multiset(ImageRefs(vms))[id]) == m)
        == (set vm | vm in vms && vm.imageId != "" && client.readImage(SystemNamespace, vm.imageId).Success?
              && ImageWithUsage(client.readImage(SystemNamespace, vm.imageId).value, multiset(ImageRefs(vms))[vm.imageId]) == m :: vm.imageId);
    }
  }

  /** Every VM's reference occurs at least once among the references. */
  lemma UsedAtLeastOnce(vms: seq<VmInfo>, field: VmInfo -> string, refs: seq<string>)
    requires |refs| == |vms|
    requires forall i :: 0 <= i < |vms| ==> refs[i] == field(vms[i])
    ensures forall vm :: vm in vms ==> multiset(refs)[field(vm)] >= 1
  {
    forall vm | vm in vms ensures multiset(refs)[field(vm)] >= 1 {
      var i :| 0 <= i < |vms| && vms[i] == vm;
      assert refs[i] in refs;
    }
  }

  /** For a VM of the list, the spec and image looked up among the
      identifiers extracted from the list are the ones it names and that
      could be read. */
  lemma LookupFinds(client: Client, vms: seq<VmInfo>, vm: VmInfo)
    requires vm in vms
    ensures var read := client.readSpec(SystemNamespace, vm.specId);
      SpecFor(client, ExtractUniqueSpecIds(vms), vm) == if vm.specId != "" && read.Success? then Some(read.value) else None
    ensures var read := client.readImage(SystemNamespace, vm.imageId);
      ImageFor(client, ExtractUniqueImageIds(vms), vm) == if vm.imageId != "" && read.Success? then Some(read.value) else None
  {
  }

  // ------------------------------------------ what each report section holds

  /** `rs` holds exactly the projections of the VNets some VM refers to that
      could be read, one per distinct VNet, each with an empty region. */
  ghost predicate VNetsOf(client: Client, nsId: string, vms: seq<VmInfo>, rs: seq<ReportVNet>) {
    && (forall v :: v in rs <==>
          exists vm :: vm in vms && vm.vNetId != "" && client.readVNet(nsId, vm.vNetId).Success?
            && v == ProjectVNet(client.readVNet(nsId, vm.vNetId).value))
    && |rs| == |set vm | vm in vms && vm.vNetId != "" && client.readVNet(nsId, vm.vNetId).Success? :: vm.vNetId|
    && (forall v ::
          multiset(rs)[v] == |set vm | vm in vms && vm.vNetId != "" && client.readVNet(nsId, vm.vNetId).Success?
            && ProjectVNet(client.readVNet(nsId, vm.vNetId).value) == v :: vm.vNetId|)
    && (forall v :: v in rs ==> v.region == "")
  }

  /** `rs` holds exactly the projections, with shortened public keys, of the
      SSH keys some VM refers to that could be read, one per distinct key. */
  ghost predicate SshKeysOf(client: Client, nsId: string, vms: seq<VmInfo>, rs: seq<ReportSshKey>) {
    && (forall k :: k in rs <==>
          exists vm :: vm in vms && vm.sshKeyId != "" && client.readSshKey(nsId, vm.sshKeyId).Success?
            && k == ProjectSshKey(client.readSshKey(nsId, vm.sshKeyId).value))
    && |rs| == |set vm | vm in vms && vm.sshKeyId != "" && client.readSshKey(nsId, vm.sshKeyId).Success? :: vm.sshKeyId|
    && (forall k ::
          multiset(rs)[k] == |set vm | vm in vms && vm.sshKeyId != "" && client.readSshKey(nsId, vm.sshKeyId).Success?
            && ProjectSshKey(client.readSshKey(nsId, vm.sshKeyId).value) == k :: vm.sshKeyId|)
  }

  /** `rs` holds exactly the projections of the security groups some VM lists
      that could be read, one per distinct group, each rule with one port. */
  ghost predicate SecurityGroupsOf(client: Client, nsId: string, vms: seq<VmInfo>, rs: seq<ReportSecurityGroup>) {
    && (forall g :: g in rs <==>
          exists id :: id in SecurityGroupRefs(vms) && id != "" && client.readSecurityGroup(nsId, id).Success?
            && g == ProjectSecurityGroup(client.readSecurityGroup(nsId, id).value))
    && |rs| == |set id | id in SecurityGroupRefs(vms) && id != "" && client.readSecurityGroup(nsId, id).Success?|
    && (forall g ::
          multiset(rs)[g] == |set id | id in SecurityGroupRefs(vms) && id != "" && client.readSecurityGroup(nsId, id).Success?
            && ProjectSecurityGroup(client.readSecurityGroup(nsId, id).value) == g|)
    && (forall g :: g in rs ==> g.ruleCount == |g.rules| && forall rule :: rule in g.rules ==> rule.fromPort == rule.toPort)
  }

  /** `rs` holds exactly the specs some VM refers to that could be read, one
      per distinct spec, each with the number of VMs that use it, at least one. */
  ghost predicate SpecsOf(client: Client, vms: seq<VmInfo>, rs: seq<SpecWithUsage>) {
    && (forall s :: s in rs <==>
          exists vm :: vm in vms && vm.specId != "" && client.readSpec(SystemNamespace, vm.specId).Success?
            && s == SpecWithUsage(client.readSpec(SystemNamespace, vm.specId).value, multiset(SpecRefs(vms))[vm.specId]))
    && |rs| == |set vm | vm in vms && vm.specId != "" && client.readSpec(SystemNamespace, vm.specId).Success? :: vm.specId|
    && (forall s ::
          multiset(rs)[s] == |set vm | vm in vms && vm.specId != "" && client.readSpec(SystemNamespace, vm.specId).Success?
            && SpecWithUsage(client.readSpec(SystemNamespace, vm.specId).value, multiset(SpecRefs(vms))[vm.specId]) == s
            :: vm.specId|)
    && (forall s :: s in rs ==> s.usageCount >= 1)
  }

  /** `rs` holds exactly the images some VM refers to that could be read, like SpecsOf. */
  ghost predicate ImagesOf(client: Client, vms: seq<VmInfo>, rs: seq<ImageWithUsage>) {
    && (forall m :: m in rs <==>
          exists vm :: vm in vms && vm.imageId != "" && client.readImage(SystemNamespace, vm.imageId).Success?
            && m == ImageWithUsage(client.readImage(SystemNamespace, vm.imageId).value, multiset(ImageRefs(vms))[vm.imageId]))
    && |rs| == |set vm | vm in vms && vm.imageId != "" && client.readImage(SystemNamespace, vm.imageId).Success? :: vm.imageId|
    && (forall m ::
          multiset(rs)[m] == |set vm | vm in vms && vm.imageId != "" && client.readImage(SystemNamespace, vm.imageId).Success?
            && ImageWithUsage(client.readImage(SystemNamespace, vm.imageId).value, multiset(ImageRefs(vms))[vm.imageId]) == m
            :: vm.imageId|)
    && (forall m :: m in rs ==> m.usageCount >= 1)
  }

  /** `rs` holds one entry per VM in order, built from the spec and image
      found for the VM among those the snapshot names (LookupFinds says
      which), and from the defaults otherwise. */
  ghost predicate VmsOf(client: Client, vms: seq<VmInfo>, rs: seq<ReportVm>) {
    && |rs| == |vms|
    && forall i :: 0 <= i < |vms| ==>
      rs[i] == ProjectVm(vms[i], SpecFor(client, ExtractUniqueSpecIds(vms), vms[i]), ImageFor(client, ExtractUniqueImageIds(vms), vms[i]))
  }

  /** The cost estimate has one line per VM in order, named after the VM and
      its short spec name, the lines and the region groups each add up to the
      hourly total, the groups hold every VM once, and the daily and monthly
      totals are derived from the hourly one. */
  ghost predicate CostOf(vms: seq<VmInfo>, cost: CostEstimation) {
    && cost.currency == Currency
    && |cost.byVm| == |vms|
    && (forall i :: 0 <= i < |vms| ==>
          cost.byVm[i].vmName == vms[i].name && cost.byVm[i].specName == ShortSpecName(vms[i].cspSpecName))
    && SumByVm(cost.byVm) == cost.totalCostPerHour
    && SumCounts(cost.byRegion) == |vms|
    && SumHourly(cost.byRegion) == cost.totalCostPerHour
    && cost.totalCostPerDay == cost.totalCostPerHour * HoursPerDay
    && cost.totalCostPerMonth == MonthlyOf(cost.totalCostPerHour)
  }

  // ----------------------------------------- the sections built for the VMs

  /** The VNets collected for the VMs hold what VNetsOf promises. */
  lemma VNetsCollected(client: Client, nsId: string, vms: seq<VmInfo>)
    ensures VNetsOf(client, nsId, vms, CollectNetworkResources(client, nsId, ExtractUniqueVNetIds(vms)).value.vNets)
  {
    VNetsMembers(client, nsId, vms);
    VNetsCount(client, nsId, vms);
    VNetsMultiplicity(client, nsId, vms, CollectNetworkResources(client, nsId, ExtractUniqueVNetIds(vms)).value.vNets);
  }

  /** The SSH keys collected for the VMs hold what SshKeysOf promises. */
  lemma SshKeysCollected(client: Client, nsId: string, vms: seq<VmInfo>)
    ensures SshKeysOf(client, nsId, vms,
      CollectSecurityResources(client, nsId, ExtractUniqueSshKeyIds(vms), ExtractUniqueSecurityGroupIds(vms)).value.sshKeys)
  {
    SshKeysMembers(client, nsId, vms);
    SshKeysCount(client, nsId, vms);
    SshKeysMultiplicity(client, nsId, vms,
      CollectSecurityResources(client, nsId, ExtractUniqueSshKeyIds(vms), ExtractUniqueSecurityGroupIds(vms)).value.sshKeys);
  }

  /** The security groups collected for the VMs hold what SecurityGroupsOf promises. */
  lemma SecurityGroupsCollected(client: Client, nsId: string, vms: seq<VmInfo>)
    ensures SecurityGroupsOf(client, nsId, vms,
      CollectSecurityResources(client, nsId, ExtractUniqueSshKeyIds(vms), ExtractUniqueSecurityGroupIds(vms)).value.securityGroups)
  {
    var ids := ExtractUniqueSecurityGroupIds(vms);
    assert forall id :: id in ids <==> id in SecurityGroupRefs(vms) && id != "";
    assert (set id | id in ids && client.readSecurityGroup(nsId, id).Success?)
      == (set id | id in SecurityGroupRefs(vms) && id != "" && client.readSecurityGroup(nsId, id).Success?);
    SecurityGroupsMultiplicity(client, nsId, vms,
      CollectSecurityResources(client, nsId, ExtractUniqueSshKeyIds(vms), ids).value.securityGroups);
  }

  /** The specs collected for the VMs hold what SpecsOf promises. */
  lemma SpecsCollected(client: Client, vms: seq<VmInfo>)
    ensures SpecsOf(client, vms, CollectSpecs(client, ExtractUniqueSpecIds(vms), vms).value)
  {
    SpecsMembers(client, vms);
    SpecsCount(client, vms);
    SpecsMultiplicity(client, vms, CollectSpecs(client, ExtractUniqueSpecIds(vms), vms).value);
    UsedAtLeastOnce(vms, (vm: VmInfo) => vm.specId, SpecRefs(vms));
  }

  /** The images collected for the VMs hold what ImagesOf promises. */
  lemma ImagesCollected(client: Client, vms: seq<VmInfo>)
    ensures ImagesOf(client, vms, CollectImages(client, ExtractUniqueImageIds(vms), vms).value)
  {
    ImagesMembers(client, vms);
    ImagesCount(client, vms);
    ImagesMultiplicity(client, vms, CollectImages(client, ExtractUniqueImageIds(vms), vms).value);
    UsedAtLeastOnce(vms, (vm: VmInfo) => vm.imageId, ImageRefs(vms));
  }

  /** The VM entries built for the VMs hold what VmsOf promises. */
  lemma VmsCollected(client: Client, vms: seq<VmInfo>)
    ensures VmsOf(client, vms, ProjectVms(client, ExtractUniqueSpecIds(vms), ExtractUniqueImageIds(vms), vms))
  {
  }

  /** The report VMs carry the names and short spec names of the VMs, in order. */
  lemma ProjectedNames(client: Client, specIds: seq<string>, imageIds: seq<string>, vms: seq<VmInfo>)
    ensures var rs := ProjectVms(client, specIds, imageIds, vms);
      && |rs| == |vms|
      && forall i :: 0 <= i < |vms| ==> rs[i].name == vms[i].name && rs[i].spec.name == ShortSpecName(vms[i].cspSpecName)
  {
  }

  /** The cost estimate of report VMs that carry the names and short spec
      names of `vms`, in order. */
  lemma CostOfNamed(vms: seq<VmInfo>, compute: ComputeResources)
    requires |compute.vms| == |vms|
    requires forall i :: 0 <= i < |vms| ==>
      compute.vms[i].name == vms[i].name && compute.vms[i].spec.name == ShortSpecName(vms[i].cspSpecName)
    ensures CostOf(vms, CalculateCostEstimation(compute))
  {
  }

  /** The cost estimate of the VM entries built for the VMs, whatever specs
      and images go with them. */
  lemma CostCollected(client: Client, vms: seq<VmInfo>, specs: seq<SpecWithUsage>, images: seq<ImageWithUsage>)
    ensures CostOf(vms, CalculateCostEstimation(
      ComputeResources(specs, images, ProjectVms(client, ExtractUniqueSpecIds(vms), ExtractUniqueImageIds(vms), vms))))
  {
    var rs := ProjectVms(client, ExtractUniqueSpecIds(vms), ExtractUniqueImageIds(vms), vms);
    ProjectedNames(client, ExtractUniqueSpecIds(vms), ExtractUniqueImageIds(vms), vms);
    CostOfNamed(vms, ComputeResources(specs, images, rs));
  }

  // ------------------------------------------------------- the whole report

  /** The report's summary describes the snapshot read: its VM count, how
      many VMs run and how many are stopped, and the target cloud and region
      of its first VM. */
  lemma ReportSummary(client: Client, nsId: string, mciId: string, generatedAt: int, mci: MciInfo)
    requires client.readMci(nsId, mciId) == Success(mci)
    ensures var s := ReportOf(client, nsId, mciId, generatedAt, mci).summary;
      && s.totalVmCount == |mci.vms|
      && s.runningVmCount == multiset(Classes(mci.vms))[Running]
      && s.stoppedVmCount == multiset(Classes(mci.vms))[Stopped]
      && (|mci.vms| == 0 ==> s.targetCloud == Unknown && s.targetRegion == Unknown)
      && (|mci.vms| > 0 ==> s.targetCloud == ToUpper(mci.vms[0].providerName) && s.targetRegion == mci.vms[0].region.region)
      && s.mciName == mci.name && s.status == mci.status
  {
  }

  /** The report's VNets are those some snapshot VM refers to, as VNetsOf says. */
  lemma ReportNetwork(client: Client, nsId: string, mciId: string, generatedAt: int, mci: MciInfo)
    requires client.readMci(nsId, mciId) == Success(mci)
    ensures VNetsOf(client, nsId, mci.vms, ReportOf(client, nsId, mciId, generatedAt, mci).network.vNets)
  {
    VNetsCollected(client, nsId, mci.vms);
  }

  /** The report's SSH keys are those some snapshot VM refers to, as SshKeysOf says. */
  lemma ReportSshKeys(client: Client, nsId: string, mciId: string, generatedAt: int, mci: MciInfo)
    requires client.readMci(nsId, mciId) == Success(mci)
    ensures SshKeysOf(client, nsId, mci.vms, ReportOf(client, nsId, mciId, generatedAt, mci).security.sshKeys)
  {
    SshKeysCollected(client, nsId, mci.vms);
  }

  /** The report's security groups are those some snapshot VM lists, as SecurityGroupsOf says. */
  lemma ReportSecurityGroups(client: Client, nsId: string, mciId: string, generatedAt: int, mci: MciInfo)
    requires client.readMci(nsId, mciId) == Success(mci)
    ensures SecurityGroupsOf(client, nsId, mci.vms, ReportOf(client, nsId, mciId, generatedAt, mci).security.securityGroups)
  {
    SecurityGroupsCollected(client, nsId, mci.vms);
  }

  /** The report's specs are those some snapshot VM refers to, as SpecsOf says. */
  lemma ReportSpecs(client: Client, nsId: string, mciId: string, generatedAt: int, mci: MciInfo)
    requires client.readMci(nsId, mciId) == Success(mci)
    ensures SpecsOf(client, mci.vms, ReportOf(client, nsId, mciId, generatedAt, mci).compute.specs)
  {
    SpecsCollected(client, mci.vms);
  }

  /** The report's images are those some snapshot VM refers to, as ImagesOf says. */
  lemma ReportImages(client: Client, nsId: string, mciId: string, generatedAt: int, mci: MciInfo)
    requires client.readMci(nsId, mciId) == Success(mci)
    ensures ImagesOf(client, mci.vms, ReportOf(client, nsId, mciId, generatedAt, mci).compute.images)
  {
    ImagesCollected(client, mci.vms);
  }

  /** The report's VM entries follow the snapshot's VMs, as VmsOf says. */
  lemma ReportVms(client: Client, nsId: string, mciId: string, generatedAt: int, mci: MciInfo)
    requires client.readMci(nsId, mciId) == Success(mci)
    ensures VmsOf(client, mci.vms, ReportOf(client, nsId, mciId, generatedAt, mci).compute.vms)
  {
    VmsCollected(client, mci.vms);
  }

  /** The report's cost estimate accounts for the snapshot's VMs, as CostOf says. */
  lemma ReportCost(client: Client, nsId: string, mciId: string, generatedAt: int, mci: MciInfo)
    requires client.readMci(nsId, mciId) == Success(mci)
    ensures CostOf(mci.vms, ReportOf(client, nsId, mciId, generatedAt, mci).cost)
  {
    var compute := ReportOf(client, nsId, mciId, generatedAt, mci).compute;
    CostCollected(client, mci.vms, compute.specs, compute.images);
  }

  /** The report's region roll-up is the exact roll-up of the report's VMs:
      every VM counted and costed in the group of its region. */
  lemma ReportCostByRegion(client: Client, nsId: string, mciId: string, generatedAt: int, mci: MciInfo)
    requires client.readMci(nsId, mciId) == Success(mci)
    ensures var rep := ReportOf(client, nsId, mciId, generatedAt, mci);
      Accounts(rep.compute.specs, rep.compute.vms, rep.cost.byRegion)
  {
  }

  /** A snapshot without VMs still gives a report: every resource list is
      empty, the counts are zero, the target is unknown and nothing costs
      anything. */
  lemma EmptyInfrastructure(client: Client, nsId: string, mciId: string, generatedAt: int, mci: MciInfo)
    requires client.readMci(nsId, mciId) == Success(mci)
    requires mci.vms == []
    ensures var rep := ReportOf(client, nsId, mciId, generatedAt, mci);
      && rep.network.vNets == []
      && rep.security.sshKeys == [] && rep.security.securityGroups == []
      && rep.compute.specs == [] && rep.compute.images == [] && rep.compute.vms == []
      && rep.summary.totalVmCount == 0 && rep.summary.runningVmCount == 0 && rep.summary.stoppedVmCount == 0
      && rep.summary.targetCloud == Unknown && rep.summary.targetRegion == Unknown
      && rep.cost.totalCostPerHour == 0.0 && rep.cost.totalCostPerDay == 0.0 && rep.cost.totalCostPerMonth == 0.0
      && rep.cost.byRegion == [] && rep.cost.byVm == []
  {
    ExtractEmpty(mci.vms);
    ReportNetwork(client, nsId, mciId, generatedAt, mci);
    ReportSshKeys(client, nsId, mciId, generatedAt, mci);
    ReportSecurityGroups(client, nsId, mciId, generatedAt, mci);
    ReportSpecs(client, nsId, mciId, generatedAt, mci);
    ReportImages(client, nsId, mciId, generatedAt, mci);
    ReportCost(client, nsId, mciId, generatedAt, mci);
    ReportCostByRegion(client, nsId, mciId, generatedAt, mci);
    var rep := ReportOf(client, nsId, mciId, generatedAt, mci);
    assert SumCounts(rep.cost.byRegion) == 0;
  }
}
