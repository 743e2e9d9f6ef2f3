/** The entities the report engine reads from the Tumblebug inventory service,
    restricted to the fields it uses, and the read-only client it reads them
    through. */
module Catalog {
  import opened Results

  /** The namespace that holds machine specs and images. */
  const SystemNamespace: string := "system"

  datatype RegionZone = RegionZone(region: string, zone: string)

  /** A VM descriptor of an infrastructure (MCI) snapshot: its references to
      other resources are identifiers, an empty identifier meaning none. */
  datatype VmInfo = VmInfo(
    name: string,
    cspResourceId: string,
    status: string,
    connectionName: string,
    providerName: string,
    region: RegionZone,
    vNetId: string,
    subnetId: string,
    publicIp: string,
    privateIp: string,
    securityGroupIds: seq<string>,
    sshKeyId: string,
    specId: string,
    cspSpecName: string,
    imageId: string)

  /** A multi-cloud infrastructure (MCI) snapshot. */
  datatype MciInfo = MciInfo(
    name: string,
    description: string,
    status: string,
    labels: map<string, string>,
    installMonAgent: string,
    vms: seq<VmInfo>)

  datatype SubnetInfo = SubnetInfo(name: string, cspResourceId: string, ipv4Cidr: string, zone: string)

  datatype VNetInfo = VNetInfo(
    name: string,
    cspResourceId: string,
    cidrBlock: string,
    connectionName: string,
    subnets: seq<SubnetInfo>)

  datatype SshKeyInfo = SshKeyInfo(
    name: string,
    cspResourceId: string,
    username: string,
    publicKey: string,
    fingerprint: string)

  /** A firewall rule carries one port text (a number or a range). */
  datatype FirewallRuleInfo = FirewallRuleInfo(direction: string, protocol: string, port: string, cidr: string)

  datatype SecurityGroupInfo = SecurityGroupInfo(
    name: string,
    cspResourceId: string,
    vNetId: string,
    firewallRules: seq<FirewallRuleInfo>)

  /** A machine spec; the source's float32 memory and cost are exact reals here. */
  datatype SpecInfo = SpecInfo(
    id: string,
    cspSpecName: string,
    vCpu: nat,
    memoryGiB: real,
    architecture: string,
    costPerHour: real)

  datatype ImageInfo = ImageInfo(
    id: string,
    name: string,
    osDistribution: string,
    osType: string,
    osPlatform: string)

  /** The Tumblebug client as a read oracle: each read takes a namespace and an
      identifier and either succeeds with the entity or fails with an error
      text. Not-found and transport errors are not told apart. */
  datatype Client = Client(
    readMci: (string, string) -> Result<MciInfo, string>,
    readVNet: (string, string) -> Result<VNetInfo, string>,
    readSshKey: (string, string) -> Result<SshKeyInfo, string>,
    readSecurityGroup: (string, string) -> Result<SecurityGroupInfo, string>,
    readSpec: (string, string) -> Result<SpecInfo, string>,
    readImage: (string, string) -> Result<ImageInfo, string>)
}
