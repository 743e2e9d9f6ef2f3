/** The records of a migration report, with the fields report.go fills in. */
module ReportTypes {
  import opened Catalog

  datatype ReportSubnet = ReportSubnet(name: string, cspSubnetId: string, cidrBlock: string, zone: string)

  datatype ReportVNet = ReportVNet(
    name: string,
    cspVNetId: string,
    cidrBlock: string,
    region: string,
    subnets: seq<ReportSubnet>,
    subnetCount: nat,
    connectionName: string)

  datatype NetworkResources = NetworkResources(vNets: seq<ReportVNet>)

  datatype ReportSshKey = ReportSshKey(
    name: string,
    cspSshKeyId: string,
    username: string,
    publicKey: string,
    fingerprint: string)

  datatype ReportFirewallRule = ReportFirewallRule(
    direction: string,
    protocol: string,
    fromPort: string,
    toPort: string,
    cidr: string)

  datatype ReportSecurityGroup = ReportSecurityGroup(
    name: string,
    cspSecurityGroupId: string,
    vNetName: string,
    rules: seq<ReportFirewallRule>,
    ruleCount: nat)

  datatype SecurityResources = SecurityResources(sshKeys: seq<ReportSshKey>, securityGroups: seq<ReportSecurityGroup>)

  datatype SpecWithUsage = SpecWithUsage(spec: SpecInfo, usageCount: nat)

  datatype ImageWithUsage = ImageWithUsage(image: ImageInfo, usageCount: nat)

  datatype ReportVmSpec = ReportVmSpec(name: string, vCpus: nat, memoryGiB: real, architecture: string)

  datatype ReportVmImage = ReportVmImage(name: string, distribution: string, osVersion: string)

  datatype ReportVmMisc = ReportVmMisc(
    vNet: string,
    subnet: string,
    publicIp: string,
    privateIp: string,
    securityGroups: seq<string>,
    sshKey: string,
    connectionName: string)

  datatype ReportVm = ReportVm(
    name: string,
    cspVmId: string,
    status: string,
    spec: ReportVmSpec,
    image: ReportVmImage,
    misc: ReportVmMisc,
    region: string,
    zone: string)

  datatype ComputeResources = ComputeResources(
    specs: seq<SpecWithUsage>,
    images: seq<ImageWithUsage>,
    vms: seq<ReportVm>)

  datatype MigrationSummary = MigrationSummary(
    mciName: string,
    mciDescription: string,
    status: string,
    targetCloud: string,
    targetRegion: string,
    totalVmCount: nat,
    runningVmCount: nat,
    stoppedVmCount: nat,
    labels: map<string, string>,
    installMonAgent: string)

  datatype CostByVm = CostByVm(vmName: string, specName: string, costPerHour: real, costPerMonth: real)

  datatype CostByRegion = CostByRegion(
    csp: string,
    region: string,
    vmCount: nat,
    costPerHour: real,
    costPerMonth: real)

  datatype CostEstimation = CostEstimation(
    currency: string,
    totalCostPerHour: real,
    totalCostPerDay: real,
    totalCostPerMonth: real,
    byRegion: seq<CostByRegion>,
    byVm: seq<CostByVm>)

  /** `generatedAt` is the caller-supplied generation time. */
  datatype ReportMetadata = ReportMetadata(
    generatedAt: int,
    namespace: string,
    mciId: string,
    mciName: string,
    reportVersion: string)

  datatype MigrationReport = MigrationReport(
    metadata: ReportMetadata,
    summary: MigrationSummary,
    network: NetworkResources,
    security: SecurityResources,
    compute: ComputeResources,
    cost: CostEstimation)
}
