# Migration report engine — a Dafny model

This project models the migration-report synthesis of cm-beetle
(`pkg/core/migration/report.go`). Given a namespace and an infrastructure
(MCI) identifier, the engine reads the MCI snapshot from the Tumblebug
inventory service. It then:

- extracts the distinct VNet, SSH-key, security-group, spec and image
  identifiers its VMs refer to;
- reads each of them, skipping any whose read fails;
- projects what it read into report records: VNets with their subnets, SSH
  keys with shortened public keys, security groups with single-port rules,
  specs and images with usage counts, and one entry per VM;
- builds a status summary;
- computes a cost estimate: per VM, per region and in total, with daily and
  monthly figures.

The inventory service is a `Catalog.Client`: one total function per read,
returning `Success(entity)` or `Failure(cause)`. The report's generation time
is a parameter. Warnings a collector logs for failed reads are modelled as
`Collect.Warning` values beside the collector's result.

Modules, in dependency order:

- `Results` — Option and Result.
- `Text` — the parts of Go's `strings` package used here: Split, ToUpper and
  EqualFold.
- `Catalog` — the entities read and the client.
- `ReportTypes` — the report records.
- `Extract` — unique identifier extraction.
- `Collect` — the network, security and compute collectors and their helpers.
- `Summary` — status counting.
- `Cost` — the cost estimate.
- `Report` — the top-level generation. It also defines one predicate per
  report section (`VNetsOf`, `SshKeysOf`, `SecurityGroupsOf`, `SpecsOf`,
  `ImagesOf`, `VmsOf`, `CostOf`) that states what the section holds in terms
  of the snapshot's VMs and the client alone.
- `Scenarios` — worked cases.

## Model

| member | source | states |
|---|---|---|
| Report.GenerateMigrationReport | pkg/core/migration/report.go:30-98 | The report fails exactly when the MCI read fails. The error is the fixed context "failed to retrieve MCI information: " followed by the read's cause. Otherwise it succeeds, whatever else fails to read, with metadata holding the caller's time, namespace, MCI id, the snapshot's name and version "1.0". |
| Report.Assemble | pkg/core/migration/report.go:74-94 | The assembled report carries the metadata of the snapshot read, the summary built from that snapshot, and one VM entry per snapshot VM. |
| Report.ReportOf | pkg/core/migration/report.go:86-97 | For a snapshot that was read, generation succeeds with this report. |
| Report.ReportSummary | pkg/core/migration/report.go:83-84 | The report's summary describes the snapshot read: its VM count, its running and stopped counts, its name and status, and the first VM's upper-cased provider and region as target ("Unknown" for both without VMs). |
| Extract.ExtractUniqueVNetIds | pkg/core/migration/report.go:101-114 | No duplicates, and an id is returned iff it is non-empty and some VM's VNet id. |
| Extract.ExtractUniqueSshKeyIds | pkg/core/migration/report.go:117-130 | No duplicates, and an id is returned iff it is non-empty and some VM's SSH key id. |
| Extract.ExtractUniqueSecurityGroupIds | pkg/core/migration/report.go:133-148 | No duplicates, and an id is returned iff it is non-empty and listed by some VM. |
| Extract.ExtractUniqueSpecIds | pkg/core/migration/report.go:151-164 | No duplicates, and an id is returned iff it is non-empty and some VM's spec id. |
| Extract.ExtractUniqueImageIds | pkg/core/migration/report.go:167-180 | No duplicates, and an id is returned iff it is non-empty and some VM's image id. |
| Extract.UniqueIds | pkg/core/migration/report.go:102-113 | The map-based dedup: no duplicates, no "", and the same members as the input minus "". |
| Extract.SpecIdsCountDistinct | pkg/core/migration/report.go:151-164 | The number of spec ids equals the number of distinct non-empty spec ids among the VMs. |
| Extract.ExtractEmpty | pkg/core/migration/report.go:101-180 | A snapshot without VMs yields no ids of any kind. |
| Extract.NoDupCard | pkg/core/migration/report.go:109-113 | A duplicate-free list has as many elements as its set. |
| Extract.CountByKeys | pkg/core/migration/report.go:109-113 | Records built one per key, over keys without repetition: a record occurs as often as there are keys that give it. |
| Collect.FetchAll | pkg/core/migration/report.go:187-192 | Each id is read once. Reads that succeed are kept, and each failed read leaves exactly one warning with its id and cause. Kept plus warned equals the number of ids. |
| Collect.FetchAllOnePerId | pkg/core/migration/report.go:187-192 | Over distinct ids, one entity is kept per id whose read succeeds. |
| Collect.ProjectionCounts | pkg/core/migration/report.go:187-213 | Over distinct ids, a record occurs among the projections of the fetched entities as often as there are readable ids whose entity projects to it. |
| Collect.CollectEach | pkg/core/migration/report.go:187-216 | The records are exactly the projections of the entities read. Failed reads are skipped with a warning and do not stop the loop. Over distinct ids, each record occurs exactly as many times as there are ids whose entity projects to it. |
| Collect.ProjectVNet | pkg/core/migration/report.go:194-213 | The region is always "". SubnetCount equals the number of subnets. Each subnet is projected in order. The other fields are copied. |
| Collect.CollectNetworkResources | pkg/core/migration/report.go:183-219 | The VNets are exactly the projections of the VNets that could be read. A failed read gives a warning and nothing else. The region is "" and SubnetCount equals the number of subnets. Over distinct ids there is one record per readable id. Over distinct ids, each VNet record occurs once per id that reads to it. |
| Collect.TruncatePublicKey | pkg/core/migration/report.go:235-239 | A key of at most 50 characters is unchanged. A longer key becomes its first 50 characters followed by "...", 53 characters in all. |
| Collect.ProjectSshKey | pkg/core/migration/report.go:241-247 | The public key is the truncated key; the other fields are copied. |
| Collect.ProjectRule | pkg/core/migration/report.go:262-269 | FromPort == ToPort == the rule's port; direction, protocol and CIDR are copied. |
| Collect.ProjectSecurityGroup | pkg/core/migration/report.go:260-278 | RuleCount equals the number of rules. Each rule is projected in order. The VNet name is the group's VNet id. |
| Collect.CollectSshKeys | pkg/core/migration/report.go:227-250 | The SSH keys are exactly the projections of those read, one per distinct readable id with exact multiplicity. Each failed read gives one warning. |
| Collect.CollectSecurityGroups | pkg/core/migration/report.go:252-281 | The security groups are exactly the projections of those read, one per distinct readable id with exact multiplicity. Each failed read gives one warning. |
| Collect.CollectSecurityResources | pkg/core/migration/report.go:222-284 | The SSH keys and security groups are exactly the projections of those read. Every failed read of either kind gives a warning. Rules have one port each. Over distinct ids, each record occurs once per id that reads to it. |
| Collect.UsageCount | pkg/core/migration/report.go:319-322 | The per-VM increment loop counts the multiplicity of the id among the references. |
| Collect.EntityMap | pkg/core/migration/report.go:291-316 | The spec/image map holds exactly the ids whose read succeeded, mapped to what was read. |
| Collect.ReadableKeys | pkg/core/migration/report.go:325-340 | Iterating the map visits each readable id once. |
| Collect.UsageCounts | pkg/core/migration/report.go:325-340 | Iterating the map of entities read yields each usage record as often as there are readable ids that give it. |
| Collect.UsageList | pkg/core/migration/report.go:291-340 | One record per readable id, holding the entity and its usage count; each record occurs exactly as often as there are readable ids that give it. Failed reads give warnings. |
| Collect.CollectSpecs | pkg/core/migration/report.go:291-331 | Specs read from the "system" namespace. Each comes with its usage count, the number of VMs naming it. There is one per readable spec id, and each record occurs as often as there are readable ids giving it. |
| Collect.CollectImages | pkg/core/migration/report.go:305-340 | Images read from the "system" namespace. Each comes with its usage count. There is one per readable image id, and each record occurs as often as there are readable ids giving it. |
| Collect.ShortSpecName | pkg/core/migration/report.go:524-531 | The result has no '+'. It is the suffix of the full name after its last '+', and the whole name when there is none. |
| Collect.ShortSpecNameIdempotent | pkg/core/migration/report.go:524-531 | Shortening a short name changes nothing. |
| Collect.FirstNonEmpty | pkg/core/migration/report.go:487-502 | The fallback chain returns the first non-empty candidate, and "" iff every candidate is empty. |
| Collect.ImageDistribution | pkg/core/migration/report.go:482-503 | "" for a missing image. Otherwise the first non-empty of OS distribution, OS type and OS platform. |
| Collect.ImageOsVersion | pkg/core/migration/report.go:506-522 | "" for a missing image. Otherwise the first non-empty of OS distribution and OS type. |
| Collect.DistributionExtendsVersion | pkg/core/migration/report.go:482-522 | When a version is known, the distribution equals it. They differ only when both fields are empty and the distribution fell back to the platform. |
| Collect.ProjectVm | pkg/core/migration/report.go:343-376 | The VM entry copies the VM's fields and shortens its spec name. With a missing spec it has 0 vCPUs, 0 memory and "" architecture. With a missing image its name, distribution and version are empty. Otherwise these fields come from the spec and the image. |
| Collect.ProjectSubnet | pkg/core/migration/report.go:196-202 | A report subnet carries the subnet's name, CSP resource id, IPv4 CIDR block and zone. |
| Collect.ProjectVms | pkg/core/migration/report.go:343-376 | One entry per VM in snapshot order. Each is built from the spec and image found in the maps of those read. |
| Collect.SpecVCpus | pkg/core/migration/report.go:541-546 | The spec's vCPU count, and 0 when the spec is missing. |
| Collect.SpecMemory | pkg/core/migration/report.go:548-553 | The spec's memory in GiB, and 0 when the spec is missing. |
| Collect.SpecArchitecture | pkg/core/migration/report.go:474-479 | The spec's architecture, and "" when the spec is missing. |
| Collect.ShortImageName | pkg/core/migration/report.go:533-539 | The image's own name, and "" when the image is missing. |
| Collect.CollectComputeResources | pkg/core/migration/report.go:287-379 | Specs and images with usage counts, each occurring once per readable id that gives it, and VM entries in order. Failed spec and image reads are only warnings. |
| Text.Split | pkg/core/migration/report.go:526-528 | At least one part, and no part contains the separator; so the `len(parts) > 0` branch is always taken. |
| Text.JoinSplit | pkg/core/migration/report.go:526 | Joining the parts of a split with the separator gives back the string. |
| Text.FirstField | pkg/core/migration/report.go:438 | The text before the first separator: a prefix of the string without the separator, followed by the separator when shorter, and the whole string when there is no separator. |
| Text.LastField | pkg/core/migration/report.go:526-528 | The text after the last separator: a suffix of the string without the separator, preceded by the separator when shorter, and the whole string when there is no separator. |
| Text.ToUpper | pkg/core/migration/report.go:397 | The result has the same length and no lower-case ASCII letter. Lower-case letters are shifted to upper case and everything else is kept. |
| Text.ToUpperIdempotent | pkg/core/migration/report.go:397 | Upper-casing twice is upper-casing once. |
| Text.EqualFold | pkg/core/migration/report.go:387-389 | A status matches a word only when it has the word's length. |
| Text.EqualFoldWord | pkg/core/migration/report.go:387-389 | A lower-case word matches itself and its upper-case form. |
| Text.EqualFoldAscii | pkg/core/migration/report.go:387-389 | On ASCII text, a status matches a word exactly when both upper-case to the same string. |
| Summary.StatusWordsExclusive | pkg/core/migration/report.go:386-391 | No status case-folds to both "running" and "stopped"/"terminated". |
| Summary.Classify | pkg/core/migration/report.go:387-391 | Running iff EqualFold(status, "running"). Stopped iff EqualFold with "stopped" or "terminated". |
| Summary.CountStatuses | pkg/core/migration/report.go:383-392 | The running and stopped counts are the multiplicities of those classes among the VMs. |
| Summary.ClassCountsPartition | pkg/core/migration/report.go:386-392 | Every VM is in exactly one class, so the three class counts add up to the number of VMs. |
| Summary.BuildMigrationSummary | pkg/core/migration/report.go:382-413 | The total is the VM count, and running + stopped ≤ total. With no VMs the target cloud and region are "Unknown". Otherwise they are the first VM's upper-cased provider and its region. Name, description, status, labels and agent flag are copied. |
| Cost.FirstMatch | pkg/core/migration/report.go:424-430 | The position of the first spec whose CSP spec name matches, or none when no spec matches. |
| Cost.VmHourlyCost | pkg/core/migration/report.go:424-430 | A VM's hourly cost is that of the first matching spec, and 0 when none matches. |
| Cost.CostIndependentOfOrder | pkg/core/migration/report.go:424-430 | While no two specs share a CSP spec name, a VM's hourly cost is the same for any order of the spec list. |
| Cost.TotalHourly | pkg/core/migration/report.go:432 | The accumulated hourly total is never negative while no spec has a negative price, and is 0 when no VM has a priced spec. |
| Cost.CostsByVm | pkg/core/migration/report.go:445-451 | One line per VM in order: the VM's name, its short spec name, its hourly cost, and a monthly cost of hourly × 24 × 30. |
| Cost.CostsByVmSum | pkg/core/migration/report.go:432-451 | The per-VM lines add up to the accumulated hourly total. |
| Cost.AddToRegion | pkg/core/migration/report.go:434-443 | One grouping step: afterwards the VM's region has a group, and a group was appended exactly when the region had none. Groups of other regions are unchanged. A new group carries the VM's provider tag, one VM and the VM's cost. |
| Cost.SetMonthly | pkg/core/migration/report.go:455-459 | Each group keeps its provider, region, VM count and hourly cost, and its monthly cost becomes hourly × 24 × 30. |
| Cost.RegionCsp | pkg/core/migration/report.go:438 | A region's provider tag is the connection name's text before its first '-' (the whole name when it has none), with lower-case ASCII letters upper-cased and every other character kept. |
| Cost.RegionCspLength | pkg/core/migration/report.go:438 | The tag is exactly as long as the text before the first '-'. |
| Cost.RegionCspOfAws | pkg/core/migration/report.go:438 | The connection "aws-ap-northeast-2" is tagged "AWS". |
| Cost.RegionIndex | pkg/core/migration/report.go:436 | Finds the group of a region, and none iff no group has that region. |
| Cost.SumsUpdate | pkg/core/migration/report.go:442-443 | Replacing one group changes the count and cost sums by the difference. |
| Cost.AddToRegionAccounts | pkg/core/migration/report.go:434-443 | One loop step keeps the roll-up exact. Regions stay distinct and every VM's region has a group. Each group holds its region's VM count and hourly cost, tagged by the region's first VM. |
| Cost.AddToRegionSums | pkg/core/migration/report.go:442-443 | One loop step adds one VM and its cost to the sums over groups. |
| Cost.GroupByRegion | pkg/core/migration/report.go:421-443 | The grouping loop yields the exact roll-up. The group counts add up to the number of VMs and the group costs to the hourly total. |
| Cost.SetMonthlyKeeps | pkg/core/migration/report.go:455-459 | Setting the monthly figures keeps the roll-up and its sums. |
| Cost.ByRegion | pkg/core/migration/report.go:454-459 | The returned groups are the exact roll-up, conserve count and cost, and carry monthly = hourly × 24 × 30. |
| Cost.CalculateCostEstimation | pkg/core/migration/report.go:416-469 | The currency is "USD", with per-VM lines and the regional roll-up. The per-VM lines add up to the hourly total, the daily total is hourly × 24 and the monthly total is hourly × 24 × 30. |
| Report.VNetsMembers | pkg/core/migration/report.go:183-219 | A VNet is collected for the VMs iff it is the projection of a VNet some VM refers to and that could be read. |
| Report.VNetsCount | pkg/core/migration/report.go:183-219 | One VNet record per distinct readable VNet id among the VMs. |
| Report.VNetsMultiplicity | pkg/core/migration/report.go:183-219 | Each VNet record occurs once per distinct VNet id among the VMs that reads to it. |
| Report.SshKeysMembers | pkg/core/migration/report.go:227-250 | An SSH key is collected iff it is the projection of a key some VM refers to and that could be read. |
| Report.SshKeysCount | pkg/core/migration/report.go:227-250 | One key record per distinct readable key id among the VMs. |
| Report.SshKeysMultiplicity | pkg/core/migration/report.go:227-250 | Each SSH-key record occurs once per distinct key id among the VMs that reads to it. |
| Report.SecurityGroupsMultiplicity | pkg/core/migration/report.go:252-281 | Each security-group record occurs once per distinct group id listed by the VMs that reads to it. |
| Report.SpecsMembers | pkg/core/migration/report.go:290-331 | A spec record is collected iff it is a spec some VM refers to, that could be read, with its usage count. |
| Report.SpecsCount | pkg/core/migration/report.go:290-331 | One spec record per distinct readable spec id among the VMs. |
| Report.SpecsMultiplicity | pkg/core/migration/report.go:290-331 | Each spec record occurs once per distinct spec id among the VMs that reads to it. |
| Report.ImagesMembers | pkg/core/migration/report.go:304-340 | An image record is collected iff it is an image some VM refers to, that could be read, with its usage count. |
| Report.ImagesCount | pkg/core/migration/report.go:304-340 | One image record per distinct readable image id among the VMs. |
| Report.ImagesMultiplicity | pkg/core/migration/report.go:304-340 | Each image record occurs once per distinct image id among the VMs that reads to it. |
| Report.UsedAtLeastOnce | pkg/core/migration/report.go:319-322 | Every VM's reference is counted at least once. |
| Report.LookupFinds | pkg/core/migration/report.go:344-345 | For a VM of the snapshot, the map lookup finds its spec and image exactly when the VM names them (a non-empty id) and they could be read; otherwise it finds nothing. |
| Report.VNetsCollected | pkg/core/migration/report.go:183-219 | The VNets collected for the VMs hold what VNetsOf says: membership, one per distinct readable VNet with exact multiplicity, region "". |
| Report.SshKeysCollected | pkg/core/migration/report.go:227-250 | The SSH keys collected for the VMs hold what SshKeysOf says: membership, count and exact multiplicity. |
| Report.SecurityGroupsCollected | pkg/core/migration/report.go:252-281 | The groups collected for the VMs are exactly the projections of the readable groups some VM lists, one per distinct group with exact multiplicity, with single-port rules. |
| Report.SpecsCollected | pkg/core/migration/report.go:290-331 | The specs collected hold what SpecsOf says: membership, count, exact multiplicity and usage counts ≥ 1. |
| Report.ImagesCollected | pkg/core/migration/report.go:304-340 | The images collected hold what ImagesOf says: membership, count, exact multiplicity and usage counts ≥ 1. |
| Report.VmsCollected | pkg/core/migration/report.go:342-376 | The VM entries hold what VmsOf says: one per VM in order, built from the spec and image the lookup finds for the VM, and from the defaults otherwise. |
| Report.CostOfNamed | pkg/core/migration/report.go:445-468 | For VM entries named after the VMs, the estimate holds what CostOf says. |
| Report.CostCollected | pkg/core/migration/report.go:445-468 | The estimate of the VM entries built for the VMs holds what CostOf says. |
| Report.ReportNetwork | pkg/core/migration/report.go:53-57 | The report's VNets are exactly the projections of the readable VNets the snapshot's VMs refer to, one per distinct VNet, each with region "". Each record occurs exactly once per distinct id that reads to it. |
| Report.ReportSshKeys | pkg/core/migration/report.go:59-63 | The report's SSH keys are exactly the truncated projections of the readable keys the VMs refer to, one per distinct key. Each record occurs exactly once per distinct id that reads to it. |
| Report.ReportSecurityGroups | pkg/core/migration/report.go:59-63 | The report's groups are exactly the projections of the readable groups the VMs list, one per distinct group; a failed group read is skipped. Each record occurs exactly once per distinct id that reads to it. |
| Report.ReportSpecs | pkg/core/migration/report.go:65-69 | The report's specs are exactly the readable specs the VMs refer to, one per distinct spec, each with its usage count ≥ 1. Each record occurs exactly once per distinct id that reads to it. |
| Report.ReportImages | pkg/core/migration/report.go:65-69 | The report's images are exactly the readable images the VMs refer to, one per distinct image, each with its usage count ≥ 1. Each record occurs exactly once per distinct id that reads to it. |
| Report.ReportVms | pkg/core/migration/report.go:65-69 | The report holds one VM entry per snapshot VM, in order, built from the VM's own spec and image when named and readable, and from the defaults otherwise. |
| Report.ReportCost | pkg/core/migration/report.go:71-72 | The cost is in USD with one line per VM named after it. Lines and regions both add up to the hourly total, and the regions count every VM once. The daily total is hourly × 24 and the monthly total is hourly × 720. |
| Report.ReportCostByRegion | pkg/core/migration/report.go:71-72 | The report's region roll-up is the exact roll-up of the report's VM entries. |
| Report.EmptyInfrastructure | pkg/core/migration/report.go:30-98 | A snapshot without VMs gives a report with every list empty, zero counts, "Unknown" target, and zero costs. |
| Scenarios.ReadableOfThree | pkg/core/migration/report.go:252-258 | Of three listed groups with one failing, exactly the other two are readable. |
| Scenarios.ThreeIds | pkg/core/migration/report.go:133-148 | Three distinct non-empty ids, however often referenced, leave exactly those three ids to read. |
| Scenarios.ExtractedThree | pkg/core/migration/report.go:133-148 | VMs listing exactly three distinct groups yield exactly those three ids. |
| Scenarios.OneOfThreeGroupsKept | pkg/core/migration/report.go:252-281 | Any group list the VMs give rise to holds exactly the two readable groups. |
| Scenarios.ThirdGroupWarns | pkg/core/migration/report.go:253-258 | Collecting three distinct groups of which one fails logs exactly one warning, naming that group and its cause. |
| Scenarios.OneOfThreeGroupsFails | pkg/core/migration/report.go:252-258 | One failing security group out of three does not fail the report, which holds exactly two groups: the projections of the two readable ones. |
| Scenarios.OneOfThreeGroupsWarns | pkg/core/migration/report.go:253-258 | Given the key and group identifiers extracted from the VMs, as the engine passes them at report.go:59-63, the security warnings are the SSH key warnings followed by exactly one warning, naming the unreadable group and its cause. |
| Scenarios.ThreeAndOneRefs | pkg/core/migration/report.go:319-322 | Three VMs on spec a and one on b count a three times and b once. |
| Scenarios.ThreeAndOneReadable | pkg/core/migration/report.go:294-302 | Those VMs have two distinct readable specs. |
| Scenarios.SharedSpecUsage | pkg/core/migration/report.go:318-331 | The report's spec list for those VMs has two records, with usage counts 3 and 1. |
| Scenarios.LongAndShortPublicKeys | pkg/core/migration/report.go:235-239 | An 80-character key shows as its first 50 characters and "...", 53 in all. A 30-character key shows unchanged. |
| Scenarios.RunningIsRunning | pkg/core/migration/report.go:387 | "Running" is counted as running. |
| Scenarios.StoppedAndTerminatedAreStopped | pkg/core/migration/report.go:389 | "STOPPED" and "Terminated" are counted as stopped. |
| Scenarios.SuspendedIsOther | pkg/core/migration/report.go:386-391 | "Suspended" is counted as neither. |
| Scenarios.MixedStatuses | pkg/core/migration/report.go:382-413 | Statuses Running, STOPPED, Terminated and Suspended give total 4, running 1 and stopped 2. |

## Left out

- HTTP: the inventory client's transport is not modelled. Each read is a total function of namespace and id returning an entity or an error cause.
- The generation time: `time.Now()` becomes the `generatedAt` parameter.
- Logging: the log calls are not modelled. A collector's warnings are returned beside its result as `Collect.Warning` values. As in the source, they never reach the report and never fail it. The collectors' error results are always nil, so they are dropped.
- Concurrency: the engine is sequential and none is modelled.
- Go map iteration order, which is unspecified. The extracted id lists, the spec and image lists, and the region roll-up are built in a fixed order: first occurrence among the VMs. The properties stated about these lists are set, multiset, count or sum properties that hold for any order, with one exception: a VM's cost (see Cost.VmHourlyCost below).
- Cost.VmHourlyCost: the model fixes the spec list in first-occurrence order, so a VM's cost is that of the first spec in that order whose CSP spec name matches. The source builds the list by ranging over a Go map (report.go:325-331). So when two readable specs share a CSP spec name but differ in cost per hour, the VM's cost depends on map order, and so do byVm, byRegion and the totals. The model does not capture that choice. Cost.CostIndependentOfOrder shows that the order does not matter when no two specs share a CSP spec name.
- Cost.CalculateCostEstimation: costs are exact `real`s, not float32. The sums and products are exact, so float32 rounding and the order dependence of float sums are not modelled.
- Collect.ProjectVm: memory is a `real` and vCPUs a `nat`, without the float32 and integer widths of the entities.
- Text.ToUpper: upper-cases ASCII letters only. Go's Unicode case mapping of other letters is not modelled.
- Text.EqualFold: modelled only against lower-case ASCII words, the only way the engine calls it. In that case it is exact, including the long s and the Kelvin sign.
- Collect.TruncatePublicKey: counts characters where Go slices bytes. The two agree for the ASCII text of public keys.
- Nil versus empty lists: the source starts some lists as `[]` and leaves others nil, which serialize differently. The model does not tell them apart.
- The report record types and the Tumblebug entity types are declared outside report.go. They are not part of this model beyond the fields the engine reads or fills.
- Collect.ShortSpecName: the `return fullSpecName` fallback of extractShortSpecName is unreachable, because splitting always yields at least one part (`Text.Split`), so it has no counterpart.
