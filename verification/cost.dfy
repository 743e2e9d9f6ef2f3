/** Cost estimation: per-VM hourly and monthly costs, a roll-up per region,
    and hourly, daily and monthly totals, in exact arithmetic. */
module Cost {
  import opened Results
  import opened Text
  import opened Catalog
  import opened ReportTypes

  const Currency: string := "USD"
  const HoursPerDay: real := 24.0
  /** The report's fixed month length. */
  const DaysPerMonth: real := 30.0

  function MonthlyOf(hourly: real): real {
    hourly * HoursPerDay * DaysPerMonth
  }

  // ---------------------------------------------------------------- per VM

  /** The position of the first spec whose CSP spec name is `name`. */
  function FirstMatch(specs: seq<SpecWithUsage>, name: string): (m: Option<nat>)
    ensures m.Some? ==>
      && m.value < |specs|
      && specs[m.value].spec.cspSpecName == name
      && (forall k :: 0 <= k < m.value ==> specs[k].spec.cspSpecName != name)
    ensures m.None? ==> forall k :: 0 <= k < |specs| ==> specs[k].spec.cspSpecName != name
    decreases |specs|
  {
    if |specs| == 0 then None
    else if specs[0].spec.cspSpecName == name then Some(0)
    else
      match FirstMatch(specs[1..], name)
      case None => None
      case Some(j) => Some(j + 1)
  }

  /** The hourly cost of a VM: that of the first spec whose CSP spec name
      equals the VM's short spec name, and zero when no spec does. */
  function VmHourlyCost(specs: seq<SpecWithUsage>, vm: ReportVm): (c: real)
    ensures (forall k :: 0 <= k < |specs| ==> specs[k].spec.cspSpecName != vm.spec.name) ==> c == 0.0
    ensures forall j ::
      (0 <= j < |specs| && specs[j].spec.cspSpecName == vm.spec.name
       && (forall k :: 0 <= k < j ==> specs[k].spec.cspSpecName != vm.spec.name))
      ==> c == specs[j].spec.costPerHour
  {
    match FirstMatch(specs, vm.spec.name)
    case None => 0.0
    case Some(j) => specs[j].spec.costPerHour
  }

  /** No two specs share a CSP spec name. */
  predicate DistinctCspNames(specs: seq<SpecWithUsage>) {
    forall i, j :: 0 <= i < j < |specs| ==> specs[i].spec.cspSpecName != specs[j].spec.cspSpecName
  }

  /** While no two specs share a CSP spec name, a VM's hourly cost does not
      depend on the order of the spec list. */
  lemma CostIndependentOfOrder(specs: seq<SpecWithUsage>, other: seq<SpecWithUsage>, vm: ReportVm)
    requires multiset(specs) == multiset(other)
    requires DistinctCspNames(specs)
    ensures VmHourlyCost(specs, vm) == VmHourlyCost(other, vm)
  {
    var name := vm.spec.name;
    match FirstMatch(specs, name)
    case None =>
      forall k | 0 <= k < |other| ensures other[k].spec.cspSpecName != name {
        assert other[k] in multiset(other);
        assert other[k] in specs;
      }
      assert FirstMatch(other, name).None?;
    case Some(j) =>
      assert specs[j] in multiset(specs);
      assert specs[j] in other;
      var j2 := FirstMatch(other, name).value;
      assert other[j2] in multiset(other);
      assert other[j2] in specs;
      var k :| 0 <= k < |specs| && specs[k] == other[j2];
      assert k == j;
  }

  /** The hourly cost of all VMs, summed in VM order: never negative while
      no spec has a negative price, and zero when no VM has a priced spec. */
  function TotalHourly(specs: seq<SpecWithUsage>, vms: seq<ReportVm>): (t: real)
    ensures (forall k :: 0 <= k < |specs| ==> specs[k].spec.costPerHour >= 0.0) ==> t >= 0.0
    ensures (forall i :: 0 <= i < |vms| ==> VmHourlyCost(specs, vms[i]) == 0.0) ==> t == 0.0
    decreases |vms|
  {
    if |vms| == 0 then 0.0
    else TotalHourly(specs, vms[..|vms| - 1]) + VmHourlyCost(specs, vms[|vms| - 1])
  }

  /** One cost line per VM, in VM order. */
  function CostsByVm(specs: seq<SpecWithUsage>, vms: seq<ReportVm>): (byVm: seq<CostByVm>)
    ensures |byVm| == |vms|
    ensures forall i :: 0 <= i < |vms| ==>
      && byVm[i].vmName == vms[i].name
      && byVm[i].specName == vms[i].spec.name
      && byVm[i].costPerHour == VmHourlyCost(specs, vms[i])
      && byVm[i].costPerMonth == MonthlyOf(byVm[i].costPerHour)
  {
    seq(|vms|, i requires 0 <= i < |vms| =>
      var c := VmHourlyCost(specs, vms[i]);
      CostByVm(vms[i].name, vms[i].spec.name, c, MonthlyOf(c)))
  }

  function SumByVm(byVm: seq<CostByVm>): real
    decreases |byVm|
  {
    if |byVm| == 0 then 0.0 else SumByVm(byVm[..|byVm| - 1]) + byVm[|byVm| - 1].costPerHour
  }

  /** The per-VM cost lines add up to the total hourly cost. */
  lemma {:induction false} CostsByVmSum(specs: seq<SpecWithUsage>, vms: seq<ReportVm>)
    ensures SumByVm(CostsByVm(specs, vms)) == TotalHourly(specs, vms)
    decreases |vms|
  {
    if |vms| > 0 {
      var init := vms[..|vms| - 1];
      CostsByVmSum(specs, init);
      assert CostsByVm(specs, vms)[..|vms| - 1] == CostsByVm(specs, init);
    }
  }

  // ------------------------------------------------------------- per region

  /** The provider tag of a region: the text before the first '-' of a VM's
      connection name, upper-cased. */
  function RegionCsp(connectionName: string): (csp: string)
    ensures |csp| <= |connectionName|
    ensures '-' !in csp
    ensures forall i :: 0 <= i < |csp| ==> !IsLowerAscii(csp[i])
    ensures |csp| < |connectionName| ==> connectionName[|csp|] == '-'
    ensures '-' !in connectionName ==> |csp| == |connectionName|
    ensures forall i :: 0 <= i < |csp| ==>
      if IsLowerAscii(connectionName[i]) then csp[i] as int == connectionName[i] as int - 32
      else csp[i] == connectionName[i]
  {
    var head := FirstField(connectionName, '-');
    var csp := ToUpper(head);
    assert forall i :: 0 <= i < |csp| ==> csp[i] != '-' by {
      forall i | 0 <= i < |csp| ensures csp[i] != '-' {
        assert head[i] in head;
      }
    }
    csp
  }

  /** The tag is as long as the text before the first '-'. */
  lemma RegionCspLength(connectionName: string, k: nat)
    requires k < |connectionName| && connectionName[k] == '-'
    requires forall i :: 0 <= i < k ==> connectionName[i] != '-'
    ensures |RegionCsp(connectionName)| == k
  {
    var csp := RegionCsp(connectionName);
    forall i | 0 <= i < |csp|
      ensures connectionName[i] != '-'
    {
      assert csp[i] in csp;
    }
  }

  /** A connection named "aws-ap-northeast-2" is tagged "AWS". */
  lemma RegionCspOfAws(name: string)
    requires name == "aws-ap-northeast-2"
    ensures RegionCsp(name) == "AWS"
  {
    assert name[3] == '-' && name[0] != '-' && name[1] != '-' && name[2] != '-';
    RegionCspLength(name, 3);
    var csp := RegionCsp(name);
    assert csp[0] == 'A' && csp[1] == 'W' && csp[2] == 'S';
    assert csp == [csp[0], csp[1], csp[2]];
  }

  /** The number of VMs in `region`. */
  function RegionVmCount(vms: seq<ReportVm>, region: string): nat
    decreases |vms|
  {
    if |vms| == 0 then 0
    else RegionVmCount(vms[..|vms| - 1], region) + (if vms[|vms| - 1].region == region then 1 else 0)
  }

  /** The hourly cost of the VMs in `region`. */
  function RegionHourly(specs: seq<SpecWithUsage>, vms: seq<ReportVm>, region: string): real
    decreases |vms|
  {
    if |vms| == 0 then 0.0
    else
      RegionHourly(specs, vms[..|vms| - 1], region)
        + (if vms[|vms| - 1].region == region then VmHourlyCost(specs, vms[|vms| - 1]) else 0.0)
  }

  predicate HasRegion(groups: seq<CostByRegion>, region: string) {
    exists j :: 0 <= j < |groups| && groups[j].region == region
  }

  /** The position of the group of `region`. */
  function RegionIndex(groups: seq<CostByRegion>, region: string): (m: Option<nat>)
    ensures m.Some? ==> m.value < |groups| && groups[m.value].region == region
    ensures m.None? <==> !HasRegion(groups, region)
    decreases |groups|
  {
    if |groups| == 0 then None
    else if groups[0].region == region then Some(0)
    else
      match RegionIndex(groups[1..], region)
      case None =>
        assert forall j :: 1 <= j < |groups| ==> groups[j] == groups[1..][j - 1];
        None
      case Some(j) => Some(j + 1)
  }

  /** No two groups share a region. */
  predicate DistinctRegions(groups: seq<CostByRegion>) {
    forall i, j :: 0 <= i < j < |groups| ==> groups[i].region != groups[j].region
  }

  /** `vms[k]` is the first VM of its region. */
  predicate FirstOfRegion(vms: seq<ReportVm>, k: int) {
    0 <= k < |vms| && forall i :: 0 <= i < k ==> vms[i].region != vms[k].region
  }

  /** Every VM's region has a group. */
  predicate Covers(groups: seq<CostByRegion>, vms: seq<ReportVm>) {
    forall k :: 0 <= k < |vms| ==> HasRegion(groups, vms[k].region)
  }

  /** Each group holds its region's VM count and hourly cost. */
  predicate Tallies(specs: seq<SpecWithUsage>, vms: seq<ReportVm>, groups: seq<CostByRegion>) {
    forall j :: 0 <= j < |groups| ==>
      && groups[j].vmCount == RegionVmCount(vms, groups[j].region)
      && groups[j].costPerHour == RegionHourly(specs, vms, groups[j].region)
  }

  /** `g` is tagged with the provider of `vms[k]`, the first VM of its region. */
  predicate TaggedBy(vms: seq<ReportVm>, g: CostByRegion, k: int) {
    FirstOfRegion(vms, k) && vms[k].region == g.region && g.csp == RegionCsp(vms[k].misc.connectionName)
  }

  /** `g` is tagged with the provider of the first VM of its region. */
  predicate TaggedFirst(vms: seq<ReportVm>, g: CostByRegion) {
    exists k :: 0 <= k < |vms| && TaggedBy(vms, g, k)
  }

  /** Each group is tagged with the provider of the first VM of its region. */
  predicate Tagged(vms: seq<ReportVm>, groups: seq<CostByRegion>) {
    forall j :: 0 <= j < |groups| ==> TaggedFirst(vms, groups[j])
  }

  /** `groups` is the region roll-up of `vms`: one group per region of a VM,
      holding that region's VM count and hourly cost, tagged with the
      provider of the region's first VM. */
  predicate Accounts(specs: seq<SpecWithUsage>, vms: seq<ReportVm>, groups: seq<CostByRegion>) {
    DistinctRegions(groups) && Covers(groups, vms) && Tallies(specs, vms, groups) && Tagged(vms, groups)
  }

  function SumCounts(groups: seq<CostByRegion>): nat
    decreases |groups|
  {
    if |groups| == 0 then 0 else SumCounts(groups[..|groups| - 1]) + groups[|groups| - 1].vmCount
  }

  function SumHourly(groups: seq<CostByRegion>): real
    decreases |groups|
  {
    if |groups| == 0 then 0.0 else SumHourly(groups[..|groups| - 1]) + groups[|groups| - 1].costPerHour
  }

  /** Replacing one group changes the sums by the difference. */
  lemma {:induction false} SumsUpdate(groups: seq<CostByRegion>, i: nat, g: CostByRegion)
    requires i < |groups|
    ensures SumCounts(groups[i := g]) == SumCounts(groups) - groups[i].vmCount + g.vmCount
    ensures SumHourly(groups[i := g]) == SumHourly(groups) - groups[i].costPerHour + g.costPerHour
    decreases |groups|
  {
    var n := |groups|;
    var updated := groups[i := g];
    if i < n - 1 {
      SumsUpdate(groups[..n - 1], i, g);
      assert updated[..n - 1] == groups[..n - 1][i := g];
    } else {
      assert updated[..n - 1] == groups[..n - 1];
    }
  }

  /** One step of the source's grouping loop: the group of the VM's region,
      created with that VM's provider tag and zero totals when absent, gains
      one VM and the VM's cost. */
  function AddToRegion(groups: seq<CostByRegion>, vm: ReportVm, cost: real): (r: seq<CostByRegion>)
    ensures HasRegion(r, vm.region)
    ensures |r| == if HasRegion(groups, vm.region) then |groups| else |groups| + 1
    ensures forall j :: 0 <= j < |groups| && groups[j].region != vm.region ==> r[j] == groups[j]
    ensures !HasRegion(groups, vm.region) ==>
      r[|groups|] == CostByRegion(RegionCsp(vm.misc.connectionName), vm.region, 1, cost, 0.0)
  {
    var grown := if HasRegion(groups, vm.region) then groups else groups + [NewGroup(vm)];
    assert grown[|grown| - 1].region == vm.region || HasRegion(groups, vm.region);
    assert HasRegion(grown, vm.region);
    var i := RegionIndex(grown, vm.region).value;
    assert !HasRegion(groups, vm.region) ==> i == |groups|;
    assert grown[i := Gain(grown[i], cost)][i].region == vm.region;
    grown[i := Gain(grown[i], cost)]
  }

  /** Appending a VM moves the reference counts of its region only. */
  lemma AppendVm(specs: seq<SpecWithUsage>, vms: seq<ReportVm>, vm: ReportVm, region: string)
    ensures RegionVmCount(vms + [vm], region) == RegionVmCount(vms, region) + (if vm.region == region then 1 else 0)
    ensures RegionHourly(specs, vms + [vm], region)
      == RegionHourly(specs, vms, region) + (if vm.region == region then VmHourlyCost(specs, vm) else 0.0)
    ensures TotalHourly(specs, vms + [vm]) == TotalHourly(specs, vms) + VmHourlyCost(specs, vm)
  {
    assert (vms + [vm])[..|vms|] == vms;
  }

  /** A region no VM is in has no VMs and no cost. */
  lemma {:induction false} AbsentRegion(specs: seq<SpecWithUsage>, vms: seq<ReportVm>, region: string)
    requires forall k :: 0 <= k < |vms| ==> vms[k].region != region
    ensures RegionVmCount(vms, region) == 0
    ensures RegionHourly(specs, vms, region) == 0.0
    decreases |vms|
  {
    if |vms| > 0 {
      AbsentRegion(specs, vms[..|vms| - 1], region);
    }
  }

  /** Two group lists that agree on regions and provider tags. */
  predicate SameKeys(a: seq<CostByRegion>, b: seq<CostByRegion>) {
    |a| == |b| && forall j :: 0 <= j < |a| ==> a[j].region == b[j].region && a[j].csp == b[j].csp
  }

  /** Coverage, distinctness and tags depend only on regions and tags. */
  lemma SameKeysKeep(vms: seq<ReportVm>, a: seq<CostByRegion>, b: seq<CostByRegion>)
    requires SameKeys(a, b)
    requires DistinctRegions(a) && Covers(a, vms) && Tagged(vms, a)
    ensures DistinctRegions(b) && Covers(b, vms) && Tagged(vms, b)
  {
    forall k | 0 <= k < |vms| ensures HasRegion(b, vms[k].region) {
      var j :| 0 <= j < |a| && a[j].region == vms[k].region;
      assert b[j].region == vms[k].region;
    }
    forall j | 0 <= j < |b| ensures TaggedFirst(vms, b[j]) {
      var k :| 0 <= k < |vms| && TaggedBy(vms, a[j], k);
      assert FirstOfRegion(vms, k);
      assert a[j].region == b[j].region;
      assert TaggedBy(vms, b[j], k);
    }
  }

  /** Appending a VM keeps a VM the first of its region. */
  lemma AppendKeepsFirst(vms: seq<ReportVm>, vm: ReportVm, groups: seq<CostByRegion>)
    requires Tagged(vms, groups)
    ensures Tagged(vms + [vm], groups)
  {
    var vms' := vms + [vm];
    forall j | 0 <= j < |groups| ensures TaggedFirst(vms', groups[j]) {
      var k :| 0 <= k < |vms| && TaggedBy(vms, groups[j], k);
      assert forall i :: 0 <= i < |vms| ==> vms'[i] == vms[i];
      assert TaggedBy(vms', groups[j], k);
    }
  }

  /** The group `g` after it gains a VM costing `cost`. */
  function Gain(g: CostByRegion, cost: real): CostByRegion {
    g.(vmCount := g.vmCount + 1, costPerHour := g.costPerHour + cost)
  }

  /** A new group for the region of `vm`, before it gains the VM. */
  function NewGroup(vm: ReportVm): CostByRegion {
    CostByRegion(RegionCsp(vm.misc.connectionName), vm.region, 0, 0.0, 0.0)
  }

  /** The result of a grouping step, by case. */
  lemma AddToRegionShape(groups: seq<CostByRegion>, vm: ReportVm, cost: real)
    ensures HasRegion(groups, vm.region) ==>
      var i := RegionIndex(groups, vm.region).value;
      AddToRegion(groups, vm, cost) == groups[i := Gain(groups[i], cost)]
    ensures !HasRegion(groups, vm.region) ==>
      AddToRegion(groups, vm, cost) == groups + [Gain(NewGroup(vm), cost)]
  {
    if !HasRegion(groups, vm.region) {
      var grown := groups + [NewGroup(vm)];
      assert grown[|groups|].region == vm.region;
      assert HasRegion(grown, vm.region);
      assert RegionIndex(grown, vm.region).value == |groups|;
    }
  }

  /** Appending `vm` moves only its own region's tallies. */
  lemma TalliesAfterAppend(specs: seq<SpecWithUsage>, vms: seq<ReportVm>, vm: ReportVm, before: seq<CostByRegion>, after: seq<CostByRegion>)
    requires |before| <= |after|
    requires forall j :: 0 <= j < |before| ==>
      && after[j].region == before[j].region
      && after[j].vmCount == before[j].vmCount + (if before[j].region == vm.region then 1 else 0)
      && after[j].costPerHour == before[j].costPerHour + (if before[j].region == vm.region then VmHourlyCost(specs, vm) else 0.0)
    requires forall j :: 0 <= j < |before| ==>
      && before[j].vmCount == RegionVmCount(vms, before[j].region)
      && before[j].costPerHour == RegionHourly(specs, vms, before[j].region)
    requires forall j :: |before| <= j < |after| ==>
      && after[j].vmCount == RegionVmCount(vms + [vm], after[j].region)
      && after[j].costPerHour == RegionHourly(specs, vms + [vm], after[j].region)
    ensures Tallies(specs, vms + [vm], after)
  {
    forall j | 0 <= j < |before|
      ensures after[j].vmCount == RegionVmCount(vms + [vm], after[j].region)
      ensures after[j].costPerHour == RegionHourly(specs, vms + [vm], after[j].region)
    {
      AppendVm(specs, vms, vm, after[j].region);
    }
  }

  /** Appending a VM whose region has a group keeps every VM covered. */
  lemma AppendCovers(vms: seq<ReportVm>, vm: ReportVm, groups: seq<CostByRegion>)
    requires Covers(groups, vms)
    requires HasRegion(groups, vm.region)
    ensures Covers(groups, vms + [vm])
  {
    assert forall k :: 0 <= k < |vms| ==> (vms + [vm])[k] == vms[k];
  }

  /** Gaining a VM in a known region keeps groups distinct, covering and tagged. */
  lemma KnownRegionKeys(vms: seq<ReportVm>, groups: seq<CostByRegion>, vm: ReportVm, i: nat, cost: real)
    requires DistinctRegions(groups) && Covers(groups, vms) && Tagged(vms, groups)
    requires i < |groups| && groups[i].region == vm.region
    ensures var r := groups[i := Gain(groups[i], cost)];
      DistinctRegions(r) && Covers(r, vms + [vm]) && Tagged(vms + [vm], r)
  {
    var r := groups[i := Gain(groups[i], cost)];
    assert SameKeys(groups, r);
    AppendKeepsFirst(vms, vm, groups);
    AppendCovers(vms, vm, groups);
    SameKeysKeep(vms + [vm], groups, r);
  }

  /** Gaining a VM in a known region keeps every tally exact. */
  lemma KnownRegionTallies(specs: seq<SpecWithUsage>, vms: seq<ReportVm>, groups: seq<CostByRegion>, vm: ReportVm, i: nat)
    requires DistinctRegions(groups) && Tallies(specs, vms, groups)
    requires i < |groups| && groups[i].region == vm.region
    ensures Tallies(specs, vms + [vm], groups[i := Gain(groups[i], VmHourlyCost(specs, vm))])
  {
    TalliesAfterAppend(specs, vms, vm, groups, groups[i := Gain(groups[i], VmHourlyCost(specs, vm))]);
  }

  /** A grouping step for a VM whose region already has a group. */
  lemma AddToKnownRegion(specs: seq<SpecWithUsage>, vms: seq<ReportVm>, groups: seq<CostByRegion>, vm: ReportVm, i: nat)
    requires Accounts(specs, vms, groups)
    requires i < |groups| && groups[i].region == vm.region
    ensures Accounts(specs, vms + [vm], groups[i := Gain(groups[i], VmHourlyCost(specs, vm))])
  {
    KnownRegionKeys(vms, groups, vm, i, VmHourlyCost(specs, vm));
    KnownRegionTallies(specs, vms, groups, vm, i);
  }

  /** Gaining a VM in a new region keeps groups distinct, covering and tagged. */
  lemma NewRegionKeys(vms: seq<ReportVm>, groups: seq<CostByRegion>, vm: ReportVm, cost: real)
    requires DistinctRegions(groups) && Covers(groups, vms) && Tagged(vms, groups)
    requires !HasRegion(groups, vm.region)
    ensures var r := groups + [Gain(NewGroup(vm), cost)];
      DistinctRegions(r) && Covers(r, vms + [vm]) && Tagged(vms + [vm], r)
  {
    var vms' := vms + [vm];
    var r := groups + [Gain(NewGroup(vm), cost)];
    AppendKeepsFirst(vms, vm, groups);
    assert forall k :: 0 <= k < |vms| ==> vms'[k] == vms[k];
    forall k | 0 <= k < |vms'| ensures HasRegion(r, vms'[k].region) {
      if k < |vms| {
        var j :| 0 <= j < |groups| && groups[j].region == vms[k].region;
        assert r[j].region == vms'[k].region;
      } else {
        assert r[|groups|].region == vms'[k].region;
      }
    }
    forall k | 0 <= k < |vms| ensures vms[k].region != vm.region {
      assert HasRegion(groups, vms[k].region);
    }
    forall j | 0 <= j < |r| ensures TaggedFirst(vms', r[j]) {
      if j == |groups| {
        assert TaggedBy(vms', r[j], |vms|);
      } else {
        assert r[j] == groups[j];
      }
    }
  }

  /** Gaining a VM in a new region keeps every tally exact. */
  lemma NewRegionTallies(specs: seq<SpecWithUsage>, vms: seq<ReportVm>, groups: seq<CostByRegion>, vm: ReportVm)
    requires Covers(groups, vms) && Tallies(specs, vms, groups)
    requires !HasRegion(groups, vm.region)
    ensures Tallies(specs, vms + [vm], groups + [Gain(NewGroup(vm), VmHourlyCost(specs, vm))])
  {
    forall k | 0 <= k < |vms| ensures vms[k].region != vm.region {
      assert HasRegion(groups, vms[k].region);
    }
    AbsentRegion(specs, vms, vm.region);
    AppendVm(specs, vms, vm, vm.region);
    TalliesAfterAppend(specs, vms, vm, groups, groups + [Gain(NewGroup(vm), VmHourlyCost(specs, vm))]);
  }

  /** A grouping step keeps the roll-up exact for the longer VM list. */
  lemma AddToRegionAccounts(specs: seq<SpecWithUsage>, vms: seq<ReportVm>, groups: seq<CostByRegion>, vm: ReportVm)
    requires Accounts(specs, vms, groups)
    ensures Accounts(specs, vms + [vm], AddToRegion(groups, vm, VmHourlyCost(specs, vm)))
  {
    var cost := VmHourlyCost(specs, vm);
    AddToRegionShape(groups, vm, cost);
    if HasRegion(groups, vm.region) {
      AddToKnownRegion(specs, vms, groups, vm, RegionIndex(groups, vm.region).value);
    } else {
      NewRegionKeys(vms, groups, vm, cost);
      NewRegionTallies(specs, vms, groups, vm);
    }
  }

  /** A grouping step adds one VM and its cost to the sums over groups. */
  lemma AddToRegionSums(groups: seq<CostByRegion>, vm: ReportVm, cost: real)
    ensures SumCounts(AddToRegion(groups, vm, cost)) == SumCounts(groups) + 1
    ensures SumHourly(AddToRegion(groups, vm, cost)) == SumHourly(groups) + cost
  {
    var grown := if HasRegion(groups, vm.region) then groups else groups + [NewGroup(vm)];
    if !HasRegion(groups, vm.region) {
      assert grown[..|groups|] == groups;
    }
    assert SumCounts(grown) == SumCounts(groups) && SumHourly(grown) == SumHourly(groups);
    assert HasRegion(grown, vm.region) by {
      assert grown[|grown| - 1].region == vm.region || HasRegion(groups, vm.region);
    }
    var i := RegionIndex(grown, vm.region).value;
    SumsUpdate(grown, i, Gain(grown[i], cost));
  }

  /** The source's grouping loop over the VMs, before monthly costs are set. */
  function GroupByRegion(specs: seq<SpecWithUsage>, vms: seq<ReportVm>): (groups: seq<CostByRegion>)
    ensures Accounts(specs, vms, groups)
    ensures SumCounts(groups) == |vms|
    ensures SumHourly(groups) == TotalHourly(specs, vms)
    decreases |vms|
  {
    if |vms| == 0 then []
    else
      var init := vms[..|vms| - 1];
      var vm := vms[|vms| - 1];
      assert vms == init + [vm];
      var prev := GroupByRegion(specs, init);
      AddToRegionAccounts(specs, init, prev, vm);
      AddToRegionSums(prev, vm, VmHourlyCost(specs, vm));
      AddToRegion(prev, vm, VmHourlyCost(specs, vm))
  }

  /** Sets each group's monthly cost once the accumulation is over. */
  function SetMonthly(groups: seq<CostByRegion>): (r: seq<CostByRegion>)
    ensures |r| == |groups|
    ensures forall j :: 0 <= j < |groups| ==>
      && r[j].csp == groups[j].csp && r[j].region == groups[j].region
      && r[j].vmCount == groups[j].vmCount && r[j].costPerHour == groups[j].costPerHour
      && r[j].costPerMonth == MonthlyOf(groups[j].costPerHour)
  {
    seq(|groups|, j requires 0 <= j < |groups| => groups[j].(costPerMonth := MonthlyOf(groups[j].costPerHour)))
  }

  /** Setting monthly costs leaves the roll-up and its sums as they were. */
  lemma {:induction false} SetMonthlyKeeps(specs: seq<SpecWithUsage>, vms: seq<ReportVm>, groups: seq<CostByRegion>)
    requires Accounts(specs, vms, groups)
    ensures Accounts(specs, vms, SetMonthly(groups))
    ensures SumCounts(SetMonthly(groups)) == SumCounts(groups)
    ensures SumHourly(SetMonthly(groups)) == SumHourly(groups)
  {
    var r := SetMonthly(groups);
    assert SameKeys(groups, r);
    SameKeysKeep(vms, groups, r);
    SetMonthlySums(groups);
  }

  lemma {:induction false} SetMonthlySums(groups: seq<CostByRegion>)
    ensures SumCounts(SetMonthly(groups)) == SumCounts(groups)
    ensures SumHourly(SetMonthly(groups)) == SumHourly(groups)
    decreases |groups|
  {
    if |groups| > 0 {
      var init := groups[..|groups| - 1];
      SetMonthlySums(init);
      assert SetMonthly(groups)[..|groups| - 1] == SetMonthly(init);
    }
  }

  /** The region roll-up as the source returns it: grouped, then given
      monthly costs. */
  function ByRegion(specs: seq<SpecWithUsage>, vms: seq<ReportVm>): (groups: seq<CostByRegion>)
    ensures Accounts(specs, vms, groups)
    ensures SumCounts(groups) == |vms|
    ensures SumHourly(groups) == TotalHourly(specs, vms)
    ensures forall j :: 0 <= j < |groups| ==> groups[j].costPerMonth == MonthlyOf(groups[j].costPerHour)
  {
    SetMonthlyKeeps(specs, vms, GroupByRegion(specs, vms));
    SetMonthly(GroupByRegion(specs, vms))
  }

  // ------------------------------------------------------------------ total

  /** calculateCostEstimation: a cost line per VM in VM order, a roll-up per
      region, and totals; the per-VM lines and the regions both add up to the
      total hourly cost, and the regions hold every VM once. */
  function CalculateCostEstimation(compute: ComputeResources): (c: CostEstimation)
    ensures c.currency == Currency
    ensures c.byVm == CostsByVm(compute.specs, compute.vms)
    ensures c.byRegion == ByRegion(compute.specs, compute.vms)
    ensures c.totalCostPerHour == TotalHourly(compute.specs, compute.vms)
    ensures c.totalCostPerHour == SumByVm(c.byVm)
    ensures c.totalCostPerDay == c.totalCostPerHour * HoursPerDay
    ensures c.totalCostPerMonth == MonthlyOf(c.totalCostPerHour)
  {
    CostsByVmSum(compute.specs, compute.vms);
    var total := TotalHourly(compute.specs, compute.vms);
    CostEstimation(
      Currency,
      total,
      total * HoursPerDay,
      MonthlyOf(total),
      ByRegion(compute.specs, compute.vms),
      CostsByVm(compute.specs, compute.vms))
  }
}
