/** Resource collection: each referenced identifier is read once from the
    client and turned into a report record; an identifier whose read fails is
    skipped with a warning and never stops the collection. */
module Collect {
  import opened Results
  import opened Text
  import opened Catalog
  import opened ReportTypes
  import opened Extract

  datatype ResourceKind = VNetKind | SshKeyKind | SecurityGroupKind | SpecKind | ImageKind

  /** The warning logged for an identifier whose read failed. */
  datatype Warning = Unavailable(kind: ResourceKind, id: string, cause: string)

  /** What a collector produces: its records and the warnings it logged. The
      source also returns an error value, which is nil on every path. */
  datatype Logged<T> = Logged(value: T, warnings: seq<Warning>)

  /** An entity read successfully under identifier `id`. */
  datatype Fetched<T> = Fetched(id: string, entity: T)

  /** Reads every identifier of `ids` once, in order, keeping the entities
      that were read and a warning for each read that failed. */
  function FetchAll<T(!new)>(kind: ResourceKind, read: string -> Result<T, string>, ids: seq<string>): (r: Logged<seq<Fetched<T>>>)
    ensures |r.value| + |r.warnings| == |ids|
    ensures forall f :: f in r.value <==> f.id in ids && read(f.id) == Success(f.entity)
    ensures forall w :: w in r.warnings <==> w.kind == kind && w.id in ids && read(w.id) == Failure(w.cause)
    ensures NoDup(ids) ==> forall i, j :: 0 <= i < j < |r.value| ==> r.value[i].id != r.value[j].id
    decreases |ids|
  {
    if |ids| == 0 then Logged([], [])
    else
      var init := ids[..|ids| - 1];
      var id := ids[|ids| - 1];
      assert ids == init + [id];
      assert NoDup(ids) ==> NoDup(init) && id !in init;
      var prev := FetchAll(kind, read, init);
      match read(id)
      case Success(e) => Logged(prev.value + [Fetched(id, e)], prev.warnings)
      case Failure(cause) => Logged(prev.value, prev.warnings + [Unavailable(kind, id, cause)])
  }

  /** The identifiers of fetched entities, in order. */
  function FetchedIds<T>(fs: seq<Fetched<T>>): (ids: seq<string>)
    ensures |ids| == |fs|
    ensures forall i :: 0 <= i < |fs| ==> ids[i] == fs[i].id
  {
    seq(|fs|, i requires 0 <= i < |fs| => fs[i].id)
  }

  /** Applies a projection to each fetched entity, in order. */
  function Project<T, R>(fs: seq<Fetched<T>>, project: T -> R): (rs: seq<R>)
    ensures |rs| == |fs|
    ensures forall i :: 0 <= i < |fs| ==> rs[i] == project(fs[i].entity)
  {
    seq(|fs|, i requires 0 <= i < |fs| => project(fs[i].entity))
  }

  /** Over distinct identifiers the collection holds one entity per
      identifier that could be read. */
  lemma FetchAllOnePerId<T(!new)>(kind: ResourceKind, read: string -> Result<T, string>, ids: seq<string>)
    requires NoDup(ids)
    ensures |FetchAll(kind, read, ids).value| == |set id | id in ids && read(id).Success?|
  {
    var fs := FetchAll(kind, read, ids).value;
    var fetchedIds := FetchedIds(fs);
    assert NoDup(fetchedIds);
    NoDupCard(fetchedIds);
    forall id | id in ids && read(id).Success?
      ensures id in fetchedIds
    {
      assert Fetched(id, read(id).value) in fs;
    }
    assert (set x | x in fetchedIds) == (set id | id in ids && read(id).Success?);
  }

  /** The identifiers of `ids` whose entity could be read and projects to `x`. */
  ghost function Givers<T(!new), R>(ids: seq<string>, read: string -> Result<T, string>, project: T -> R, x: R): set<string> {
    set id | id in ids && read(id).Success? && project(read(id).value) == x
  }

  /** Over distinct identifiers, a record occurs among the projections as
      often as there are identifiers whose entity projects to it. */
  lemma ProjectionCounts<T(!new), R>(
    kind: ResourceKind, read: string -> Result<T, string>, project: T -> R, ids: seq<string>, x: R)
    requires NoDup(ids)
    ensures multiset(Project(FetchAll(kind, read, ids).value, project))[x] == |Givers(ids, read, project, x)|
  {
    var fs := FetchAll(kind, read, ids).value;
    var keys := FetchedIds(fs);
    var rs := Project(fs, project);
    assert NoDup(keys);
    CountByKeys(keys, rs, x);
    forall i | 0 <= i < |keys|
      ensures read(keys[i]).Success? && rs[i] == project(read(keys[i]).value)
    {
      assert fs[i] in fs;
    }
    forall id | id in ids && read(id).Success? && project(read(id).value) == x
      ensures exists i :: 0 <= i < |keys| && rs[i] == x && keys[i] == id
    {
      var f := Fetched(id, read(id).value);
      assert f in fs;
      var i :| 0 <= i < |fs| && fs[i] == f;
      assert keys[i] == id && rs[i] == x;
    }
    assert (set i | 0 <= i < |keys| && rs[i] == x :: keys[i]) == Givers(ids, read, project, x);
  }

  /** Reads every identifier once and projects each entity read into its
      report record: the records are exactly the projections of the entities
      that could be read, and every failed read leaves one warning. */
  function CollectEach<T(!new), R(!new)>(kind: ResourceKind, read: string -> Result<T, string>, project: T -> R, ids: seq<string>)
    : (r: Logged<seq<R>>)
    ensures |r.value| + |r.warnings| == |ids|
    ensures forall x :: x in r.value <==> exists id :: id in ids && read(id).Success? && x == project(read(id).value)
    ensures forall w :: w in r.warnings <==> w.kind == kind && w.id in ids && read(w.id) == Failure(w.cause)
    ensures NoDup(ids) ==> |r.value| == |set id | id in ids && read(id).Success?|
    ensures NoDup(ids) ==> forall x :: multiset(r.value)[x] == |Givers(ids, read, project, x)|
  {
    var fetched := FetchAll(kind, read, ids);
    var records := Project(fetched.value, project);
    assert forall x :: x in records ==> exists id :: id in ids && read(id).Success? && x == project(read(id).value) by {
      forall x | x in records
        ensures exists id :: id in ids && read(id).Success? && x == project(read(id).value)
      {
        var i :| 0 <= i < |records| && records[i] == x;
        assert fetched.value[i] in fetched.value;
      }
    }
    assert forall id :: id in ids && read(id).Success? ==> project(read(id).value) in records by {
      forall id | id in ids && read(id).Success?
        ensures project(read(id).value) in records
      {
        var f := Fetched(id, read(id).value);
        assert f in fetched.value;
        var i :| 0 <= i < |fetched.value| && fetched.value[i] == f;
        assert records[i] == project(read(id).value);
      }
    }
    if NoDup(ids) then
      FetchAllOnePerId(kind, read, ids);
      assert forall x :: multiset(records)[x] == |Givers(ids, read, project, x)| by {
        forall x {
          ProjectionCounts(kind, read, project, ids, x);
        }
      }
      Logged(records, fetched.warnings)
    else
      Logged(records, fetched.warnings)
  }

  // ---------------------------------------------------------------- network

  /** A subnet as the report shows it: its name, CSP resource id, IPv4 CIDR
      block and zone. */
  function ProjectSubnet(s: SubnetInfo): (r: ReportSubnet)
    ensures r.name == s.name && r.cspSubnetId == s.cspResourceId
    ensures r.cidrBlock == s.ipv4Cidr && r.zone == s.zone
  {
    ReportSubnet(s.name, s.cspResourceId, s.ipv4Cidr, s.zone)
  }

  /** A VNet as the report shows it. The VNet entity carries no region, so
      the region is always empty. */
  function ProjectVNet(v: VNetInfo): (r: ReportVNet)
    ensures r.region == ""
    ensures r.subnetCount == |r.subnets| == |v.subnets|
    ensures forall i :: 0 <= i < |v.subnets| ==> r.subnets[i] == ProjectSubnet(v.subnets[i])
    ensures r.name == v.name && r.cspVNetId == v.cspResourceId
    ensures r.cidrBlock == v.cidrBlock && r.connectionName == v.connectionName
  {
    var subnets := seq(|v.subnets|, i requires 0 <= i < |v.subnets| => ProjectSubnet(v.subnets[i]));
    ReportVNet(v.name, v.cspResourceId, v.cidrBlock, "", subnets, |subnets|, v.connectionName)
  }

  /** Counting the VNets through a reader that agrees with the client is
      counting them through the client. */
  lemma VNetCounts(client: Client, nsId: string, ids: seq<string>, read: string -> Result<VNetInfo, string>, rs: seq<ReportVNet>)
    requires forall id :: read(id) == client.readVNet(nsId, id)
    requires forall v :: multiset(rs)[v] == |Givers(ids, read, ProjectVNet, v)|
    ensures forall v ::
      multiset(rs)[v] == |set id | id in ids && client.readVNet(nsId, id).Success?
        && ProjectVNet(client.readVNet(nsId, id).value) == v|
  {
    forall v
      ensures Givers(ids, read, ProjectVNet, v)
        == set id | id in ids && client.readVNet(nsId, id).Success?
          && ProjectVNet(client.readVNet(nsId, id).value) == v
    {
    }
  }

  /** collectNetworkResources: one VNet record per VNet that could be read. */
  function CollectNetworkResources(client: Client, nsId: string, vNetIds: seq<string>): (r: Logged<NetworkResources>)
    ensures |r.value.vNets| + |r.warnings| == |vNetIds|
    ensures forall v :: v in r.value.vNets <==>
      exists id :: id in vNetIds && client.readVNet(nsId, id).Success? && v == ProjectVNet(client.readVNet(nsId, id).value)
    ensures forall w :: w in r.warnings <==>
      w.kind == VNetKind && w.id in vNetIds && client.readVNet(nsId, w.id) == Failure(w.cause)
    ensures forall v :: v in r.value.vNets ==> v.region == "" && v.subnetCount == |v.subnets|
    ensures NoDup(vNetIds) ==> |r.value.vNets| == |set id | id in vNetIds && client.readVNet(nsId, id).Success?|
    ensures NoDup(vNetIds) ==> forall v ::
      multiset(r.value.vNets)[v] == |set id | id in vNetIds && client.readVNet(nsId, id).Success?
        && ProjectVNet(client.readVNet(nsId, id).value) == v|
  {
    var read := id => client.readVNet(nsId, id);
    assert (set id | id in vNetIds && read(id).Success?) == (set id | id in vNetIds && client.readVNet(nsId, id).Success?);
    var vNets := CollectEach(VNetKind, read, ProjectVNet, vNetIds);
    assert NoDup(vNetIds) ==> forall v ::
      multiset(vNets.value)[v] == |set id | id in vNetIds && client.readVNet(nsId, id).Success?
        && ProjectVNet(client.readVNet(nsId, id).value) == v| by {
      if NoDup(vNetIds) {
        VNetCounts(client, nsId, vNetIds, read, vNets.value);
      }
    }
    Logged(NetworkResources(vNets.value), vNets.warnings)
  }

  // --------------------------------------------------------------- security

  /** How many characters of a public key the report shows. */
  const PublicKeyShown: nat := 50

  /** What the report appends to a shortened public key. */
  const TruncationMarker: string := "..."

  /** A public key as the report shows it: a key longer than 50 characters
      is cut to its first 50 characters followed by the marker. */
  function TruncatePublicKey(key: string): (shown: string)
    ensures |key| <= PublicKeyShown ==> shown == key
    ensures |key| > PublicKeyShown ==>
      && |shown| == PublicKeyShown + |TruncationMarker|
      && shown[..PublicKeyShown] == key[..PublicKeyShown]
      && shown[PublicKeyShown..] == TruncationMarker
  {
    if |key| > PublicKeyShown then key[..PublicKeyShown] + TruncationMarker else key
  }

  function ProjectSshKey(k: SshKeyInfo): (r: ReportSshKey)
    ensures r.publicKey == TruncatePublicKey(k.publicKey)
    ensures r.name == k.name && r.cspSshKeyId == k.cspResourceId
    ensures r.username == k.username && r.fingerprint == k.fingerprint
  {
    ReportSshKey(k.name, k.cspResourceId, k.username, TruncatePublicKey(k.publicKey), k.fingerprint)
  }

  /** A firewall rule's single port becomes both ends of the report's range. */
  function ProjectRule(rule: FirewallRuleInfo): (r: ReportFirewallRule)
    ensures r.fromPort == rule.port && r.toPort == rule.port
    ensures r.direction == rule.direction && r.protocol == rule.protocol && r.cidr == rule.cidr
  {
    ReportFirewallRule(rule.direction, rule.protocol, rule.port, rule.port, rule.cidr)
  }

  function ProjectSecurityGroup(sg: SecurityGroupInfo): (r: ReportSecurityGroup)
    ensures r.ruleCount == |r.rules| == |sg.firewallRules|
    ensures forall i :: 0 <= i < |sg.firewallRules| ==> r.rules[i] == ProjectRule(sg.firewallRules[i])
    ensures r.name == sg.name && r.cspSecurityGroupId == sg.cspResourceId && r.vNetName == sg.vNetId
  {
    var rules := seq(|sg.firewallRules|, i requires 0 <= i < |sg.firewallRules| => ProjectRule(sg.firewallRules[i]));
    ReportSecurityGroup(sg.name, sg.cspResourceId, sg.vNetId, rules, |rules|)
  }

  /** Counting the SSH keys through a reader that agrees with the client is
      counting them through the client. */
  lemma SshKeyCounts(
    client: Client, nsId: string, ids: seq<string>,
    read: string -> Result<SshKeyInfo, string>, rs: seq<ReportSshKey>)
    requires forall id :: read(id) == client.readSshKey(nsId, id)
    requires forall k :: multiset(rs)[k] == |Givers(ids, read, ProjectSshKey, k)|
    ensures forall k ::
      multiset(rs)[k] == |set id | id in ids && client.readSshKey(nsId, id).Success?
        && ProjectSshKey(client.readSshKey(nsId, id).value) == k|
  {
    forall k
      ensures Givers(ids, read, ProjectSshKey, k)
        == set id | id in ids && client.readSshKey(nsId, id).Success?
          && ProjectSshKey(client.readSshKey(nsId, id).value) == k
    {
    }
  }

  /** Counting the security groups through a reader that agrees with the client is
      counting them through the client. */
  lemma SecurityGroupCounts(
    client: Client, nsId: string, ids: seq<string>,
    read: string -> Result<SecurityGroupInfo, string>, rs: seq<ReportSecurityGroup>)
    requires forall id :: read(id) == client.readSecurityGroup(nsId, id)
    requires forall g :: multiset(rs)[g] == |Givers(ids, read, ProjectSecurityGroup, g)|
    ensures forall g ::
      multiset(rs)[g] == |set id | id in ids && client.readSecurityGroup(nsId, id).Success?
        && ProjectSecurityGroup(client.readSecurityGroup(nsId, id).value) == g|
  {
    forall g
      ensures Givers(ids, read, ProjectSecurityGroup, g)
        == set id | id in ids && client.readSecurityGroup(nsId, id).Success?
          && ProjectSecurityGroup(client.readSecurityGroup(nsId, id).value) == g
    {
    }
  }

  /** The SSH-key half of collectSecurityResources: one record per SSH key
      that could be read. */
  function CollectSshKeys(client: Client, nsId: string, sshKeyIds: seq<string>): (r: Logged<seq<ReportSshKey>>)
    ensures |r.value| + |r.warnings| == |sshKeyIds|
    ensures forall k :: k in r.value <==>
      exists id :: id in sshKeyIds && client.readSshKey(nsId, id).Success? && k == ProjectSshKey(client.readSshKey(nsId, id).value)
    ensures forall w :: w in r.warnings <==>
      w.kind == SshKeyKind && w.id in sshKeyIds && client.readSshKey(nsId, w.id) == Failure(w.cause)
    ensures NoDup(sshKeyIds) ==> |r.value| == |set id | id in sshKeyIds && client.readSshKey(nsId, id).Success?|
    ensures NoDup(sshKeyIds) ==> forall k ::
      multiset(r.value)[k] == |set id | id in sshKeyIds && client.readSshKey(nsId, id).Success?
        && ProjectSshKey(client.readSshKey(nsId, id).value) == k|
  {
    var read := id => client.readSshKey(nsId, id);
    assert (set id | id in sshKeyIds && read(id).Success?) == (set id | id in sshKeyIds && client.readSshKey(nsId, id).Success?);
    var keys := CollectEach(SshKeyKind, read, ProjectSshKey, sshKeyIds);
    assert NoDup(sshKeyIds) ==> forall k ::
      multiset(keys.value)[k] == |set id | id in sshKeyIds && client.readSshKey(nsId, id).Success?
        && ProjectSshKey(client.readSshKey(nsId, id).value) == k| by {
      if NoDup(sshKeyIds) {
        SshKeyCounts(client, nsId, sshKeyIds, read, keys.value);
      }
    }
    keys
  }

  /** The security-group half of collectSecurityResources: one record per
      security group that could be read. */
  function CollectSecurityGroups(client: Client, nsId: string, securityGroupIds: seq<string>)
    : (r: Logged<seq<ReportSecurityGroup>>)
    ensures |r.value| + |r.warnings| == |securityGroupIds|
    ensures forall g :: g in r.value <==>
      exists id :: id in securityGroupIds && client.readSecurityGroup(nsId, id).Success?
        && g == ProjectSecurityGroup(client.readSecurityGroup(nsId, id).value)
    ensures forall w :: w in r.warnings <==>
      w.kind == SecurityGroupKind && w.id in securityGroupIds && client.readSecurityGroup(nsId, w.id) == Failure(w.cause)
    ensures NoDup(securityGroupIds) ==>
      |r.value| == |set id | id in securityGroupIds && client.readSecurityGroup(nsId, id).Success?|
    ensures NoDup(securityGroupIds) ==> forall g ::
      multiset(r.value)[g] == |set id | id in securityGroupIds && client.readSecurityGroup(nsId, id).Success?
        && ProjectSecurityGroup(client.readSecurityGroup(nsId, id).value) == g|
  {
    var read := id => client.readSecurityGroup(nsId, id);
    assert (set id | id in securityGroupIds && read(id).Success?)
      == (set id | id in securityGroupIds && client.readSecurityGroup(nsId, id).Success?);
    var groups := CollectEach(SecurityGroupKind, read, ProjectSecurityGroup, securityGroupIds);
    assert NoDup(securityGroupIds) ==> forall g ::
      multiset(groups.value)[g] == |set id | id in securityGroupIds && client.readSecurityGroup(nsId, id).Success?
        && ProjectSecurityGroup(client.readSecurityGroup(nsId, id).value) == g| by {
      if NoDup(securityGroupIds) {
        SecurityGroupCounts(client, nsId, securityGroupIds, read, groups.value);
      }
    }
    groups
  }

  /** collectSecurityResources: one record per SSH key and per security group
      that could be read; the SSH-key warnings come first. */
  function CollectSecurityResources(client: Client, nsId: string, sshKeyIds: seq<string>, securityGroupIds: seq<string>)
    : (r: Logged<SecurityResources>)
    ensures |r.value.sshKeys| + |r.value.securityGroups| + |r.warnings| == |sshKeyIds| + |securityGroupIds|
    ensures forall k :: k in r.value.sshKeys <==>
      exists id :: id in sshKeyIds && client.readSshKey(nsId, id).Success? && k == ProjectSshKey(client.readSshKey(nsId, id).value)
    ensures forall g :: g in r.value.securityGroups <==>
      exists id :: id in securityGroupIds && client.readSecurityGroup(nsId, id).Success?
        && g == ProjectSecurityGroup(client.readSecurityGroup(nsId, id).value)
    ensures forall w :: w in r.warnings <==>
      || (w.kind == SshKeyKind && w.id in sshKeyIds && client.readSshKey(nsId, w.id) == Failure(w.cause))
      || (w.kind == SecurityGroupKind && w.id in securityGroupIds && client.readSecurityGroup(nsId, w.id) == Failure(w.cause))
    ensures forall g :: g in r.value.securityGroups ==>
      g.ruleCount == |g.rules| && forall rule :: rule in g.rules ==> rule.fromPort == rule.toPort
    ensures NoDup(sshKeyIds) ==>
      |r.value.sshKeys| == |set id | id in sshKeyIds && client.readSshKey(nsId, id).Success?|
    ensures NoDup(securityGroupIds) ==>
      |r.value.securityGroups| == |set id | id in securityGroupIds && client.readSecurityGroup(nsId, id).Success?|
    ensures NoDup(sshKeyIds) ==> forall k ::
      multiset(r.value.sshKeys)[k] == |set id | id in sshKeyIds && client.readSshKey(nsId, id).Success?
        && ProjectSshKey(client.readSshKey(nsId, id).value) == k|
    ensures NoDup(securityGroupIds) ==> forall g ::
      multiset(r.value.securityGroups)[g] == |set id | id in securityGroupIds && client.readSecurityGroup(nsId, id).Success?
        && ProjectSecurityGroup(client.readSecurityGroup(nsId, id).value) == g|
  {
    var keys := CollectSshKeys(client, nsId, sshKeyIds);
    var groups := CollectSecurityGroups(client, nsId, securityGroupIds);
    Logged(SecurityResources(keys.value, groups.value), keys.warnings + groups.warnings)
  }

  // ---------------------------------------------------------------- compute

  /** The number of references to `id`, counted the way the source fills its
      usage map: one increment per reference. */
  function UsageCount(refs: seq<string>, id: string): (n: nat)
    ensures n == multiset(refs)[id]
    decreases |refs|
  {
    if |refs| == 0 then 0
    else
      var init := refs[..|refs| - 1];
      assert refs == init + [refs[|refs| - 1]];
      UsageCount(init, id) + (if refs[|refs| - 1] == id then 1 else 0)
  }

  /** The entities that could be read, keyed by identifier: the source's
      `specMap` and `imageMap`. */
  function EntityMap<T(!new)>(read: string -> Result<T, string>, ids: seq<string>): (m: map<string, T>)
    ensures forall id :: id in m <==> id in ids && read(id).Success?
    ensures forall id :: id in m ==> read(id) == Success(m[id])
  {
    map id | id in ids && read(id).Success? :: read(id).value
  }

  /** A Go map lookup that yields nil for a missing key. */
  function Get<T>(m: map<string, T>, id: string): Option<T> {
    if id in m then Some(m[id]) else None
  }

  /** The identifiers of `ids` whose read succeeds, in order. */
  function Readable<T>(read: string -> Result<T, string>, ids: seq<string>): (ok: seq<string>)
    ensures forall id :: id in ok <==> id in ids && read(id).Success?
    decreases |ids|
  {
    if |ids| == 0 then []
    else if read(ids[0]).Success? then [ids[0]] + Readable(read, ids[1..])
    else Readable(read, ids[1..])
  }

  /** The keys of EntityMap(read, ids), once each, in an order the source
      leaves unspecified. */
  function ReadableKeys<T>(read: string -> Result<T, string>, ids: seq<string>): (keys: seq<string>)
    ensures NoDup(keys)
    ensures forall id :: id in keys <==> id in ids && read(id).Success?
    ensures |keys| == |set id | id in ids && read(id).Success?|
  {
    var keys := Dedup(Readable(read, ids));
    NoDupCard(keys);
    assert (set x | x in keys) == (set id | id in ids && read(id).Success?);
    keys
  }

  /** One record per key: the entity read under it and its usage count. */
  function UsageRecords<T, R>(read: string -> Result<T, string>, keys: seq<string>, refs: seq<string>, wrap: (T, nat) -> R)
    : (rs: seq<R>)
    requires forall k :: k in keys ==> read(k).Success?
    ensures |rs| == |keys|
    ensures forall i :: 0 <= i < |keys| ==> rs[i] == wrap(read(keys[i]).value, multiset(refs)[keys[i]])
  {
    seq(|keys|, i requires 0 <= i < |keys| => wrap(read(keys[i]).value, UsageCount(refs, keys[i])))
  }

  /** The identifiers of `ids` whose entity could be read and, with its
      usage count over `refs`, gives `x`. */
  ghost function UsageGivers<T(!new), R>(ids: seq<string>, read: string -> Result<T, string>, refs: seq<string>, wrap: (T, nat) -> R, x: R)
    : set<string>
  {
    set id | id in ids && read(id).Success? && wrap(read(id).value, multiset(refs)[id]) == x
  }

  /** A usage record occurs as often as there are readable identifiers whose
      entity and usage count give it. */
  lemma UsageCounts<T(!new), R>(read: string -> Result<T, string>, ids: seq<string>, refs: seq<string>, wrap: (T, nat) -> R, x: R)
    ensures multiset(UsageRecords(read, ReadableKeys(read, ids), refs, wrap))[x] == |UsageGivers(ids, read, refs, wrap, x)|
  {
    var keys := ReadableKeys(read, ids);
    var rs := UsageRecords(read, keys, refs, wrap);
    CountByKeys(keys, rs, x);
    assert (set i | 0 <= i < |keys| && rs[i] == x :: keys[i]) == UsageGivers(ids, read, refs, wrap, x);
  }

  /** Reads every identifier once and lists each entity read together with
      the number of references to its identifier in `refs`: one record per
      identifier read. */
  function UsageList<T(!new), R(!new)>(
    kind: ResourceKind, read: string -> Result<T, string>, ids: seq<string>, refs: seq<string>, wrap: (T, nat) -> R)
    : (r: Logged<seq<R>>)
    ensures forall x :: x in r.value <==>
      exists id :: id in ids && read(id).Success? && x == wrap(read(id).value, multiset(refs)[id])
    ensures |r.value| == |set id | id in ids && read(id).Success?|
    ensures forall x :: multiset(r.value)[x] == |UsageGivers(ids, read, refs, wrap, x)|
    ensures forall w :: w in r.warnings <==> w.kind == kind && w.id in ids && read(w.id) == Failure(w.cause)
  {
    var keys := ReadableKeys(read, ids);
    var records := UsageRecords(read, keys, refs, wrap);
    assert forall x :: multiset(records)[x] == |UsageGivers(ids, read, refs, wrap, x)| by {
      forall x {
        UsageCounts(read, ids, refs, wrap, x);
      }
    }
    assert forall x :: x in records ==>
      exists id :: id in ids && read(id).Success? && x == wrap(read(id).value, multiset(refs)[id]) by {
      forall x | x in records
        ensures exists id :: id in ids && read(id).Success? && x == wrap(read(id).value, multiset(refs)[id])
      {
        var i :| 0 <= i < |records| && records[i] == x;
        assert keys[i] in keys;
      }
    }
    assert forall id :: id in ids && read(id).Success? ==> wrap(read(id).value, multiset(refs)[id]) in records by {
      forall id | id in ids && read(id).Success?
        ensures wrap(read(id).value, multiset(refs)[id]) in records
      {
        var i :| 0 <= i < |keys| && keys[i] == id;
        assert records[i] == wrap(read(id).value, multiset(refs)[id]);
      }
    }
    Logged(records, FetchAll(kind, read, ids).warnings)
  }

  /** extractShortSpecName: the last `+`-separated segment of a spec's full
      name, so "aws+ap-northeast-2+t3a.xlarge" gives "t3a.xlarge". */
  function ShortSpecName(fullName: string): (short: string)
    ensures '+' !in short
    ensures |short| <= |fullName| && fullName[|fullName| - |short|..] == short
    ensures |short| < |fullName| ==> fullName[|fullName| - |short| - 1] == '+'
    ensures '+' !in fullName ==> short == fullName
  {
    LastField(fullName, '+')
  }

  /** A short spec name is its own short name. */
  lemma ShortSpecNameIdempotent(fullName: string)
    ensures ShortSpecName(ShortSpecName(fullName)) == ShortSpecName(fullName)
  {
  }

  /** getSpecVCpus: zero when the spec is missing. */
  function SpecVCpus(spec: Option<SpecInfo>): (n: nat)
    ensures spec.None? ==> n == 0
    ensures spec.Some? ==> n == spec.value.vCpu
  {
    if spec.None? then 0 else spec.value.vCpu
  }

  /** getSpecMemory: zero when the spec is missing. */
  function SpecMemory(spec: Option<SpecInfo>): (m: real)
    ensures spec.None? ==> m == 0.0
    ensures spec.Some? ==> m == spec.value.memoryGiB
  {
    if spec.None? then 0.0 else spec.value.memoryGiB
  }

  /** getSpecArchitecture: empty when the spec is missing. */
  function SpecArchitecture(spec: Option<SpecInfo>): (a: string)
    ensures spec.None? ==> a == ""
    ensures spec.Some? ==> a == spec.value.architecture
  {
    if spec.None? then "" else spec.value.architecture
  }

  /** extractShortImageName: the image's own name, empty when it is missing. */
  function ShortImageName(image: Option<ImageInfo>): (n: string)
    ensures image.None? ==> n == ""
    ensures image.Some? ==> n == image.value.name
  {
    if image.None? then "" else image.value.name
  }

  /** The first non-empty candidate, or empty when every candidate is. */
  function FirstNonEmpty(candidates: seq<string>): (s: string)
    ensures s == "" <==> forall i :: 0 <= i < |candidates| ==> candidates[i] == ""
    ensures s != "" ==>
      exists i :: 0 <= i < |candidates| && candidates[i] == s && (forall k :: 0 <= k < i ==> candidates[k] == "")
    decreases |candidates|
  {
    if |candidates| == 0 then ""
    else if candidates[0] != "" then candidates[0]
    else
      var s := FirstNonEmpty(candidates[1..]);
      assert s != "" ==>
        exists i :: 0 <= i < |candidates| && candidates[i] == s && (forall k :: 0 <= k < i ==> candidates[k] == "") by {
        if s != "" {
          var i :| 0 <= i < |candidates| - 1 && candidates[1..][i] == s
            && (forall k :: 0 <= k < i ==> candidates[1..][k] == "");
          assert candidates[i + 1] == s;
        }
      }
      s
  }

  /** getImageDistribution: the OS distribution, else the OS type, else the
      OS platform; empty when the image is missing. */
  function ImageDistribution(image: Option<ImageInfo>): (d: string)
    ensures image.None? ==> d == ""
    ensures image.Some? ==> d == FirstNonEmpty([image.value.osDistribution, image.value.osType, image.value.osPlatform])
  {
    if image.None? then ""
    else FirstNonEmpty([image.value.osDistribution, image.value.osType, image.value.osPlatform])
  }

  /** getImageOsVersion: the OS distribution, else the OS type (never the
      platform); empty when the image is missing. */
  function ImageOsVersion(image: Option<ImageInfo>): (v: string)
    ensures image.None? ==> v == ""
    ensures image.Some? ==> v == FirstNonEmpty([image.value.osDistribution, image.value.osType])
  {
    if image.None? then ""
    else FirstNonEmpty([image.value.osDistribution, image.value.osType])
  }

  /** The version and the distribution agree whenever a version is known;
      they differ only when the distribution fell back to the platform. */
  lemma DistributionExtendsVersion(image: Option<ImageInfo>)
    ensures ImageOsVersion(image) != "" ==> ImageDistribution(image) == ImageOsVersion(image)
    ensures ImageDistribution(image) != ImageOsVersion(image) ==>
      image.Some? && ImageOsVersion(image) == "" && ImageDistribution(image) == image.value.osPlatform
  {
    if image.Some? {
      var img := image.value;
      var ds := [img.osDistribution, img.osType, img.osPlatform];
      var vs := [img.osDistribution, img.osType];
      if img.osDistribution != "" {
        assert FirstNonEmpty(ds) == img.osDistribution == FirstNonEmpty(vs);
      } else if img.osType != "" {
        assert FirstNonEmpty(ds) == FirstNonEmpty(ds[1..]) == img.osType;
        assert FirstNonEmpty(vs) == FirstNonEmpty(vs[1..]) == img.osType;
      } else {
        assert FirstNonEmpty(vs) == "";
        assert FirstNonEmpty(ds) == FirstNonEmpty(ds[1..]) == FirstNonEmpty(ds[2..]) == img.osPlatform;
      }
    }
  }

  /** A VM as the report shows it, given the spec and image found for it
      (None when its read failed or was never made). */
  function ProjectVm(vm: VmInfo, spec: Option<SpecInfo>, image: Option<ImageInfo>): (r: ReportVm)
    ensures r.name == vm.name && r.cspVmId == vm.cspResourceId && r.status == vm.status
    ensures r.region == vm.region.region && r.zone == vm.region.zone
    ensures r.misc == ReportVmMisc(vm.vNetId, vm.subnetId, vm.publicIp, vm.privateIp,
                                   vm.securityGroupIds, vm.sshKeyId, vm.connectionName)
    ensures r.spec.name == ShortSpecName(vm.cspSpecName)
    ensures spec.None? ==> r.spec.vCpus == 0 && r.spec.memoryGiB == 0.0 && r.spec.architecture == ""
    ensures spec.Some? ==>
      && r.spec.vCpus == spec.value.vCpu
      && r.spec.memoryGiB == spec.value.memoryGiB
      && r.spec.architecture == spec.value.architecture
    ensures image.None? ==> r.image == ReportVmImage("", "", "")
    ensures image.Some? ==>
      && r.image.name == image.value.name
      && r.image.distribution == ImageDistribution(image)
      && r.image.osVersion == ImageOsVersion(image)
  {
    ReportVm(
      vm.name,
      vm.cspResourceId,
      vm.status,
      ReportVmSpec(ShortSpecName(vm.cspSpecName), SpecVCpus(spec), SpecMemory(spec), SpecArchitecture(spec)),
      ReportVmImage(ShortImageName(image), ImageDistribution(image), ImageOsVersion(image)),
      ReportVmMisc(vm.vNetId, vm.subnetId, vm.publicIp, vm.privateIp, vm.securityGroupIds, vm.sshKeyId, vm.connectionName),
      vm.region.region,
      vm.region.zone)
  }

  /** The spec found for a VM: the one read under its spec identifier, if
      that identifier was among those read and the read succeeded. */
  function SpecFor(client: Client, specIds: seq<string>, vm: VmInfo): Option<SpecInfo> {
    var read := client.readSpec(SystemNamespace, vm.specId);
    if vm.specId in specIds && read.Success? then Some(read.value) else None
  }

  /** The image found for a VM, like SpecFor. */
  function ImageFor(client: Client, imageIds: seq<string>, vm: VmInfo): Option<ImageInfo> {
    var read := client.readImage(SystemNamespace, vm.imageId);
    if vm.imageId in imageIds && read.Success? then Some(read.value) else None
  }

  /** The report VMs, one per snapshot VM in order, each looked up in the
      maps of the specs and images read. */
  function ProjectVms(client: Client, specIds: seq<string>, imageIds: seq<string>, vms: seq<VmInfo>): (rs: seq<ReportVm>)
    ensures |rs| == |vms|
    ensures forall i :: 0 <= i < |vms| ==>
      rs[i] == ProjectVm(vms[i], SpecFor(client, specIds, vms[i]), ImageFor(client, imageIds, vms[i]))
  {
    var specMap := EntityMap(id => client.readSpec(SystemNamespace, id), specIds);
    var imageMap := EntityMap(id => client.readImage(SystemNamespace, id), imageIds);
    assert forall vm: VmInfo :: Get(specMap, vm.specId) == SpecFor(client, specIds, vm);
    assert forall vm: VmInfo :: Get(imageMap, vm.imageId) == ImageFor(client, imageIds, vm);
    seq(|vms|, i requires 0 <= i < |vms| => ProjectVm(vms[i], Get(specMap, vms[i].specId), Get(imageMap, vms[i].imageId)))
  }

  /** Counting the specs through a reader that agrees with the client is
      counting them through the client. */
  lemma SpecCounts(
    client: Client, ids: seq<string>, refs: seq<string>,
    read: string -> Result<SpecInfo, string>, wrap: (SpecInfo, nat) -> SpecWithUsage, rs: seq<SpecWithUsage>)
    requires forall id :: read(id) == client.readSpec(SystemNamespace, id)
    requires forall e, n :: wrap(e, n) == SpecWithUsage(e, n)
    requires forall s :: multiset(rs)[s] == |UsageGivers(ids, read, refs, wrap, s)|
    ensures forall s ::
      multiset(rs)[s] == |set id | id in ids && client.readSpec(SystemNamespace, id).Success?
        && SpecWithUsage(client.readSpec(SystemNamespace, id).value, multiset(refs)[id]) == s|
  {
    forall s
      ensures UsageGivers(ids, read, refs, wrap, s) == set id | id in ids && client.readSpec(SystemNamespace, id).Success?
        && SpecWithUsage(client.readSpec(SystemNamespace, id).value, multiset(refs)[id]) == s
    {
    }
  }

  /** Counting the images through a reader that agrees with the client is
      counting them through the client. */
  lemma ImageCounts(
    client: Client, ids: seq<string>, refs: seq<string>,
    read: string -> Result<ImageInfo, string>, wrap: (ImageInfo, nat) -> ImageWithUsage, rs: seq<ImageWithUsage>)
    requires forall id :: read(id) == client.readImage(SystemNamespace, id)
    requires forall e, n :: wrap(e, n) == ImageWithUsage(e, n)
    requires forall m :: multiset(rs)[m] == |UsageGivers(ids, read, refs, wrap, m)|
    ensures forall m ::
      multiset(rs)[m] == |set id | id in ids && client.readImage(SystemNamespace, id).Success?
        && ImageWithUsage(client.readImage(SystemNamespace, id).value, multiset(refs)[id]) == m|
  {
    forall m
      ensures UsageGivers(ids, read, refs, wrap, m) == set id | id in ids && client.readImage(SystemNamespace, id).Success?
        && ImageWithUsage(client.readImage(SystemNamespace, id).value, multiset(refs)[id]) == m
    {
    }
  }

  /** The specs read from the system namespace, each with the number of VMs
      that use it. */
  function CollectSpecs(client: Client, specIds: seq<string>, vms: seq<VmInfo>): (r: Logged<seq<SpecWithUsage>>)
    ensures forall s :: s in r.value <==>
      exists id :: id in specIds && client.readSpec(SystemNamespace, id).Success?
        && s == SpecWithUsage(client.readSpec(SystemNamespace, id).value, multiset(SpecRefs(vms))[id])
    ensures |r.value| == |set id | id in specIds && client.readSpec(SystemNamespace, id).Success?|
    ensures forall s ::
      multiset(r.value)[s] == |set id | id in specIds && client.readSpec(SystemNamespace, id).Success?
        && SpecWithUsage(client.readSpec(SystemNamespace, id).value, multiset(SpecRefs(vms))[id]) == s|
    ensures forall w :: w in r.warnings <==>
      w.kind == SpecKind && w.id in specIds && client.readSpec(SystemNamespace, w.id) == Failure(w.cause)
  {
    var read := id => client.readSpec(SystemNamespace, id);
    var wrap := (s: SpecInfo, n: nat) => SpecWithUsage(s, n);
    assert (set id | id in specIds && read(id).Success?) == (set id | id in specIds && client.readSpec(SystemNamespace, id).Success?);
    var specs := UsageList(SpecKind, read, specIds, SpecRefs(vms), wrap);
    SpecCounts(client, specIds, SpecRefs(vms), read, wrap, specs.value);
    specs
  }

  /** The images read from the system namespace, each with the number of VMs
      that use it. */
  function CollectImages(client: Client, imageIds: seq<string>, vms: seq<VmInfo>): (r: Logged<seq<ImageWithUsage>>)
    ensures forall m :: m in r.value <==>
      exists id :: id in imageIds && client.readImage(SystemNamespace, id).Success?
        && m == ImageWithUsage(client.readImage(SystemNamespace, id).value, multiset(ImageRefs(vms))[id])
    ensures |r.value| == |set id | id in imageIds && client.readImage(SystemNamespace, id).Success?|
    ensures forall m ::
      multiset(r.value)[m] == |set id | id in imageIds && client.readImage(SystemNamespace, id).Success?
        && ImageWithUsage(client.readImage(SystemNamespace, id).value, multiset(ImageRefs(vms))[id]) == m|
    ensures forall w :: w in r.warnings <==>
      w.kind == ImageKind && w.id in imageIds && client.readImage(SystemNamespace, w.id) == Failure(w.cause)
  {
    var read := id => client.readImage(SystemNamespace, id);
    var wrap := (m: ImageInfo, n: nat) => ImageWithUsage(m, n);
    assert (set id | id in imageIds && read(id).Success?) == (set id | id in imageIds && client.readImage(SystemNamespace, id).Success?);
    var images := UsageList(ImageKind, read, imageIds, ImageRefs(vms), wrap);
    ImageCounts(client, imageIds, ImageRefs(vms), read, wrap, images.value);
    images
  }

  /** collectComputeResources: specs and images read from the system
      namespace, each with its usage count over the VMs, and one report VM
      per VM in snapshot order. */
  function CollectComputeResources(client: Client, nsId: string, mci: MciInfo, specIds: seq<string>, imageIds: seq<string>)
    : (r: Logged<ComputeResources>)
    ensures forall s :: s in r.value.specs <==>
      exists id :: id in specIds && client.readSpec(SystemNamespace, id).Success?
        && s == SpecWithUsage(client.readSpec(SystemNamespace, id).value, multiset(SpecRefs(mci.vms))[id])
    ensures |r.value.specs| == |set id | id in specIds && client.readSpec(SystemNamespace, id).Success?|
    ensures forall s ::
      multiset(r.value.specs)[s] == |set id | id in specIds && client.readSpec(SystemNamespace, id).Success?
        && SpecWithUsage(client.readSpec(SystemNamespace, id).value, multiset(SpecRefs(mci.vms))[id]) == s|
    ensures forall m :: m in r.value.images <==>
      exists id :: id in imageIds && client.readImage(SystemNamespace, id).Success?
        && m == ImageWithUsage(client.readImage(SystemNamespace, id).value, multiset(ImageRefs(mci.vms))[id])
    ensures |r.value.images| == |set id | id in imageIds && client.readImage(SystemNamespace, id).Success?|
    ensures forall m ::
      multiset(r.value.images)[m] == |set id | id in imageIds && client.readImage(SystemNamespace, id).Success?
        && ImageWithUsage(client.readImage(SystemNamespace, id).value, multiset(ImageRefs(mci.vms))[id]) == m|
    ensures |r.value.vms| == |mci.vms|
    ensures forall i :: 0 <= i < |mci.vms| ==>
      r.value.vms[i] == ProjectVm(mci.vms[i], SpecFor(client, specIds, mci.vms[i]), ImageFor(client, imageIds, mci.vms[i]))
    ensures forall w :: w in r.warnings <==>
      || (w.kind == SpecKind && w.id in specIds && client.readSpec(SystemNamespace, w.id) == Failure(w.cause))
      || (w.kind == ImageKind && w.id in imageIds && client.readImage(SystemNamespace, w.id) == Failure(w.cause))
  {
    var specs := CollectSpecs(client, specIds, mci.vms);
    var images := CollectImages(client, imageIds, mci.vms);
    var vms := ProjectVms(client, specIds, imageIds, mci.vms);
    Logged(ComputeResources(specs.value, images.value, vms), specs.warnings + images.warnings)
  }
}
