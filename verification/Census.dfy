/**
 The census of a v0.4 evidence manifest: many separate count and set checks that together leave room for exactly one
 population of records.

 Fields that no check below looks at (dependencies, artifact lists, record hashes) are not part of the records here. The
 checks on them only reject more manifests.
 */
module Census {
  import opened Wrappers
  import PosixPath
  import Text

  // ---------- The manifest ----------

  datatype Schema = Named(text: string) | Number(number: int)

  /** What a record declares about itself; a missing key is `None`, and digests are in lower case. */
  datatype Declared = Declared(path: string, schema: Schema, role: Option<string>, validator: Option<string>,
                               mode: Option<string>, family: Option<string>, model: Option<string>,
                               binary: Option<string>, quality: Option<string>)

  datatype Identity = Identity(platform: Option<string>, target: Option<string>, backend: Option<string>)

  /** A record with the identity it inherits from its backend, or declares itself when it is shared. */
  datatype Record = Record(shared: bool, identity: Identity, declared: Declared) {
    function Role(): Option<string> {
      declared.role
    }

    function Backend(): Option<string> {
      identity.backend
    }
  }

  datatype Requirement = Requirement(id: string, platform: string, target: string, backend: string,
                                     records: seq<Declared>)

  datatype Manifest = Manifest(complete: bool, destinations: seq<string>, families: seq<string>,
                               requirements: seq<Requirement>, shared: seq<(Identity, Declared)>)

  const CUDA := Identity(Some("linux-x86_64"), Some("x86_64-unknown-linux-gnu"), Some("cuda"))
  const METAL := Identity(Some("darwin-arm64"), Some("aarch64-apple-darwin"), Some("metal"))
  const BACKEND_IDS := {"linux-x86_64-cuda", "darwin-arm64-metal"}
  const FAMILIES := ["qwen3", "llama"]

  const QWEN3_MODEL := ("d98cdcbd03e17ce4" + "7681435b5150e34c") + ("1417f50b5c0019dd" + "560e4882c5745785")
  const LLAMA_MODEL := ("1d0e9419ec4e12ae" + "f73ccf4ffd122703") + ("e94c48344a96bc7c" + "5f0f2772c2152ce3")

  const RECEIPTS := "receipts/"
  const CUDA_NAME := "v04-linux-cuda-"
  const METAL_NAME := "v04-darwin-metal-"
  const BATCHING_PATH := RECEIPTS + (CUDA_NAME + "batched-service.json")
  const CUDA_BRANCHING := RECEIPTS + (CUDA_NAME + "branching-service.json")
  const METAL_BRANCHING := RECEIPTS + (METAL_NAME + "branching-service.json")
  const CUDA_QUALITY := RECEIPTS + (CUDA_NAME + "quality-comparison-qwen3.json")
  const METAL_QUALITY := RECEIPTS + (METAL_NAME + "quality-comparison-qwen3.json")

  function ModelOf(family: Option<string>): Option<string> {
    if family == Some("qwen3") then Some(QWEN3_MODEL)
    else if family == Some("llama") then Some(LLAMA_MODEL)
    else None
  }

  function ValidatorsOf(role: string): set<string> {
    if role == "runtime" then {"runtime-receipt-v1"}
    else if role == "quality" then {"quality-receipt-v1", "quality-stage-v1"}
    else if role == "oracle" then {"quality-stage-v1"}
    else if role == "service" then {"concurrent-service-v1"}
    else if role == "metrics" then {"service-metrics-v1"}
    else if role == "client" then {"openai-client-v1"}
    else if role == "batching" then {"batched-service-v1"}
    else if role == "branching" then {"branching-service-v1"}
    else {}
  }

  function RolesOf(backend: string): set<string> {
    if backend == "cuda" then {"runtime", "quality", "service", "batching", "branching"}
    else {"runtime", "quality", "service", "branching"}
  }

  // ---------- Collecting the records ----------

  function OwnRecords(requirement: Requirement, records: seq<Declared>): (r: seq<Record>)
    ensures |r| == |records|
  {
    var identity := Identity(Some(requirement.platform), Some(requirement.target), Some(requirement.backend));
    seq(|records|, k requires 0 <= k < |records| => Record(false, identity, records[k]))
  }

  function BackendRecords(requirements: seq<Requirement>): seq<Record> {
    if requirements == [] then []
    else
      var last := requirements[|requirements| - 1];
      BackendRecords(requirements[..|requirements| - 1]) + OwnRecords(last, last.records)
  }

  function SharedRecords(shared: seq<(Identity, Declared)>): (r: seq<Record>)
    ensures |r| == |shared|
  {
    seq(|shared|, k requires 0 <= k < |shared| => Record(true, shared[k].0, shared[k].1))
  }

  /** All records: those of the backends in order, then the shared ones. */
  function AllRecords(manifest: Manifest): seq<Record> {
    BackendRecords(manifest.requirements) + SharedRecords(manifest.shared)
  }

  /** A relative path in normal form. */
  predicate IsRelative(path: string) {
    && path != "" && !PosixPath.Absolute(path) && ".." !in PosixPath.Parts(path) && '\\' !in path
    && PosixPath.Print(PosixPath.Parts(path)) == path
  }

  lemma EmptyPrint()
    ensures PosixPath.Print([]) == ""
  {
  }

  /** Such a path prints parts that stay below its base, and holds no backslash. */
  lemma RelativeMeans(path: string)
    ensures IsRelative(path) <==>
              && '\\' !in path
              && exists parts :: PosixPath.Relative(parts) && ".." !in parts && path == PosixPath.Print(parts)
  {
    hide PosixPath.Parts;
    if IsRelative(path) {
      PosixPath.PartsAreNormal(path);
      EmptyPrint();
    }
    if parts :| PosixPath.Relative(parts) && ".." !in parts && path == PosixPath.Print(parts) {
      PosixPath.PartsPrint(parts);
    }
  }

  predicate DeclaredAllowed(d: Declared) {
    && IsRelative(d.path)
    && (d.mode.Some? ==> IsRelative(d.mode.value)) && (d.quality.Some? ==> IsRelative(d.quality.value))
    && d.family != Some("")
    && (d.model.Some? ==> Text.IsDigest(d.model.value)) && (d.binary.Some? ==> Text.IsDigest(d.binary.value))
  }

  predicate SharedAllowed(identity: Identity, d: Declared) {
    Some("") !in {identity.platform, identity.target, identity.backend} && DeclaredAllowed(d)
  }

  predicate RequirementAllowed(requirement: Requirement) {
    && requirement.id != "" && requirement.platform != "" && requirement.target != "" && requirement.backend != ""
    && requirement.records != []
    && forall k :: 0 <= k < |requirement.records| ==> DeclaredAllowed(requirement.records[k])
  }

  predicate DistinctIds(requirements: seq<Requirement>) {
    forall i, j :: 0 <= i < j < |requirements| ==> requirements[i].id != requirements[j].id
  }

  predicate DistinctShared(shared: seq<(Identity, Declared)>) {
    forall i, j :: 0 <= i < j < |shared| ==> shared[i].1.path != shared[j].1.path
  }

  predicate DistinctPaths(records: seq<Record>) {
    forall i, j :: 0 <= i < j < |records| ==> records[i].declared.path != records[j].declared.path
  }

  function IdentityOf(requirement: Requirement): Identity {
    Identity(Some(requirement.platform), Some(requirement.target), Some(requirement.backend))
  }

  function Ids(requirements: seq<Requirement>): set<string> {
    set k | 0 <= k < |requirements| :: requirements[k].id
  }

  /** The manifest declares exactly the two native backends. */
  predicate NativeBackends(requirements: seq<Requirement>) {
    && Ids(requirements) == BACKEND_IDS
    && (set k | 0 <= k < |requirements| :: IdentityOf(requirements[k])) == {CUDA, METAL}
  }

  predicate EntriesAllowed(manifest: Manifest) {
    && manifest.requirements != []
    && (forall k :: 0 <= k < |manifest.requirements| ==> RequirementAllowed(manifest.requirements[k]))
    && DistinctIds(manifest.requirements)
    && NativeBackends(manifest.requirements)
    && manifest.shared != [] && DistinctShared(manifest.shared)
    && forall k :: 0 <= k < |manifest.shared| ==> SharedAllowed(manifest.shared[k].0, manifest.shared[k].1)
  }

  lemma NoIds(requirements: seq<Requirement>)
    requires requirements == []
    ensures DistinctIds(requirements) && Ids(requirements) == {} && BackendRecords(requirements) == []
  {
  }

  lemma OneMoreId(requirements: seq<Requirement>, n: nat)
    requires n < |requirements|
    ensures Ids(requirements[..n + 1]) == Ids(requirements[..n]) + {requirements[n].id}
    ensures DistinctIds(requirements[..n + 1]) <==>
              DistinctIds(requirements[..n]) && requirements[n].id !in Ids(requirements[..n])
    ensures DistinctIds(requirements) ==> DistinctIds(requirements[..n + 1])
  {
    var longer, shorter := requirements[..n + 1], requirements[..n];
    assert forall k :: 0 <= k < n ==> longer[k] == requirements[k] && shorter[k] == requirements[k];
    assert longer[n] == requirements[n];
    forall id ensures id in Ids(longer) <==> id in Ids(shorter) || id == requirements[n].id {
      assert requirements[n].id == longer[n].id;
      assert forall k :: 0 <= k < n ==> longer[k].id == shorter[k].id;
    }
  }

  lemma OneMoreBackend(requirements: seq<Requirement>, n: nat)
    requires n < |requirements|
    ensures BackendRecords(requirements[..n + 1])
         == BackendRecords(requirements[..n]) + OwnRecords(requirements[n], requirements[n].records)
  {
    assert requirements[..n + 1][..n] == requirements[..n];
  }

  method RecordEntries(manifest: Manifest) returns (r: Result<seq<Record>, string>)
    ensures r.Ok? <==> EntriesAllowed(manifest)
    ensures r.Ok? ==> r.value == AllRecords(manifest)
  {
    hide NativeBackends, RequirementAllowed, DistinctIds, Ids, BackendRecords, OwnRecords, DistinctShared,
      SharedAllowed;
    if manifest.requirements == [] {
      return Err("backend_requirements must be a non-empty list");
    }
    var records: seq<Record>, backendIds: set<string> := [], {};
    NoIds(manifest.requirements[..0]);
    for n := 0 to |manifest.requirements|
      invariant records == BackendRecords(manifest.requirements[..n])
      invariant backendIds == Ids(manifest.requirements[..n]) && DistinctIds(manifest.requirements[..n])
      invariant forall k :: 0 <= k < n ==> RequirementAllowed(manifest.requirements[k])
    {
      var requirement := manifest.requirements[n];
      OneMoreId(manifest.requirements, n);
      OneMoreBackend(manifest.requirements, n);
      if !RequirementAllowed(requirement) {
        return Err("backend requirement is incomplete");
      }
      if requirement.id in backendIds {
        return Err("evidence manifest repeats a backend");
      }
      backendIds := backendIds + {requirement.id};
      records := records + OwnRecords(requirement, requirement.records);
    }
    assert manifest.requirements[..|manifest.requirements|] == manifest.requirements;
    if !NativeBackends(manifest.requirements) {
      return Err("v0.4 evidence must declare exactly Linux CUDA and Darwin Metal backends");
    }
    var shared := SharedEntries(manifest.shared);
    if shared.Err? {
      return Err(shared.error);
    }
    r := Ok(records + shared.value);
  }

  method SharedEntries(shared: seq<(Identity, Declared)>) returns (r: Result<seq<Record>, string>)
    ensures r.Ok? <==>
              && shared != [] && DistinctShared(shared)
              && forall k :: 0 <= k < |shared| ==> SharedAllowed(shared[k].0, shared[k].1)
    ensures r.Ok? ==> r.value == SharedRecords(shared)
  {
    hide SharedAllowed;
    if shared == [] {
      return Err("v0.4 evidence must declare shared records");
    }
    var records: seq<Record>, paths: set<string> := [], {};
    for n := 0 to |shared|
      invariant |records| == n && forall k :: 0 <= k < n ==> records[k] == Record(true, shared[k].0, shared[k].1)
      invariant forall k :: 0 <= k < n ==> shared[k].1.path in paths
      invariant forall path :: path in paths ==> exists k :: 0 <= k < n && shared[k].1.path == path
      invariant DistinctShared(shared[..n])
      invariant forall k :: 0 <= k < n ==> SharedAllowed(shared[k].0, shared[k].1)
    {
      if !SharedAllowed(shared[n].0, shared[n].1) {
        return Err("shared record is invalid");
      }
      if shared[n].1.path in paths {
        return Err("evidence manifest repeats a shared record");
      }
      paths := paths + {shared[n].1.path};
      records := records + [Record(true, shared[n].0, shared[n].1)];
    }
    assert shared[..|shared|] == shared;
    r := Ok(records);
  }

  // ---------- One record ----------

  predicate BoundTo(record: Record, family: string) {
    record.declared.family == Some(family) && record.declared.model == ModelOf(Some(family))
  }

  predicate RoleBound(record: Record, complete: bool) {
    var d := record.declared;
    && (d.role in {Some("runtime"), Some("service"), Some("metrics"), Some("batching"), Some("branching")} ==>
          BoundTo(record, "qwen3"))
    && (d.role == Some("batching") ==>
          && d.path == BATCHING_PATH && d.schema == Named("leone.batched-service-study.v1")
          && d.quality == Some(CUDA_QUALITY))
    && (d.role == Some("branching") ==>
          && d.path in {CUDA_BRANCHING, METAL_BRANCHING} && d.schema == Named("leone.branching-service.v1")
          && d.quality == Some(if d.path == CUDA_BRANCHING then CUDA_QUALITY else METAL_QUALITY))
    && (d.role == Some("client") ==> d.schema == Named("leone.openai-client-check.v2") && BoundTo(record, "llama"))
    && (complete && d.role in {Some("batching"), Some("branching"), Some("client")} ==> d.binary.Some?)
  }

  predicate IsComparison(record: Record) {
    record.declared.validator == Some("quality-stage-v1") && record.declared.mode == Some("comparison")
  }

  function ComparisonSchema(backend: Option<string>): Schema {
    Named(if backend == Some("cuda") then "leone.quality-comparison.v2" else "leone.quality-cross-device.v2")
  }

  predicate RecordAllowed(record: Record, complete: bool) {
    var d := record.declared;
    && record.identity in {CUDA, METAL}
    && d.role.Some? && d.validator.Some? && d.validator.value in ValidatorsOf(d.role.value)
    && RoleBound(record, complete)
    && (d.role == Some("quality") ==> d.family in {Some("qwen3"), Some("llama")} && d.model == ModelOf(d.family))
    && (d.validator == Some("quality-stage-v1") ==> d.mode in {Some("export"), Some("metal"), Some("comparison")})
    && (IsComparison(record) ==> d.schema == ComparisonSchema(record.Backend()))
  }

  // ---------- Counting ----------

  function Scoped(records: seq<Record>, backend: string): seq<Record> {
    if records == [] then []
    else
      var r := records[0];
      (if !r.shared && r.Backend() == Some(backend) then [r] else []) + Scoped(records[1..], backend)
  }

  function Shareds(records: seq<Record>): seq<Record> {
    if records == [] then [] else (if records[0].shared then [records[0]] else []) + Shareds(records[1..])
  }

  function RoleList(records: seq<Record>): (roles: seq<Option<string>>)
    ensures |roles| == |records|
  {
    if records == [] then [] else [records[0].Role()] + RoleList(records[1..])
  }

  function QualityFamilies(records: seq<Record>): seq<Option<string>> {
    if records == [] then []
    else
      var r := records[0];
      (if r.Role() == Some("quality") then [r.declared.family] else []) + QualityFamilies(records[1..])
  }

  /** The identities of the records of one role. */
  function IdentitiesOf(records: seq<Record>, role: string): seq<Identity> {
    if records == [] then []
    else (if records[0].Role() == Some(role) then [records[0].identity] else []) + IdentitiesOf(records[1..], role)
  }

  function Members<T>(list: seq<T>): set<T> {
    set x | x in list
  }

  function Required(roles: set<string>): set<Option<string>> {
    set role | role in roles :: Some(role)
  }

  predicate BackendRoles(backend: string, records: seq<Record>) {
    var roles := RoleList(records);
    && Members(roles) == Required(RolesOf(backend))
    && forall role :: role in RolesOf(backend) - {"quality"} ==> multiset(roles)[Some(role)] == 1
  }

  predicate OnePerFamily(records: seq<Record>) {
    multiset(QualityFamilies(records)) == multiset{Some("qwen3"), Some("llama")}
  }

  function Natives(): set<Identity> {
    {CUDA, METAL}
  }

  predicate SharedCounts(shared: seq<Record>) {
    var roles := multiset(RoleList(shared));
    && roles[Some("client")] == 2 && roles[Some("metrics")] == 1 && |shared| == 3
    && Members(IdentitiesOf(shared, "client")) == Natives()
    && IdentitiesOf(shared, "metrics") != [] && IdentitiesOf(shared, "metrics")[0] == CUDA
  }

  /** The counting checks, over all records. */
  predicate Counted(records: seq<Record>) {
    && BackendRoles("cuda", Scoped(records, "cuda")) && OnePerFamily(Scoped(records, "cuda"))
    && BackendRoles("metal", Scoped(records, "metal")) && OnePerFamily(Scoped(records, "metal"))
    && SharedCounts(Shareds(records))
  }

  // ---------- The slots ----------

  /** What a record is there for. */
  datatype Slot = Native(backend: Option<string>, role: Option<string>, family: Option<string>)
                | Common(identity: Identity, role: Option<string>)

  function SlotOf(record: Record): Slot {
    if record.shared then Common(record.identity, record.Role())
    else
      var family := if record.Role() == Some("quality") then record.declared.family else None;
      Native(record.Backend(), record.Role(), family)
  }

  function SlotsOf(records: seq<Record>): multiset<Slot> {
    if records == [] then multiset{} else multiset{SlotOf(records[0])} + SlotsOf(records[1..])
  }

  function NativeSlot(backend: string, role: string): Slot {
    Native(Some(backend), Some(role), None)
  }

  function QualitySlot(backend: string, family: string): Slot {
    Native(Some(backend), Some("quality"), Some(family))
  }

  function MetalSlots(backend: string): multiset<Slot> {
    multiset{NativeSlot(backend, "runtime"), NativeSlot(backend, "service"), NativeSlot(backend, "branching"),
             QualitySlot(backend, "qwen3"), QualitySlot(backend, "llama")}
  }

  function BackendSlots(backend: string): multiset<Slot> {
    MetalSlots(backend) + (if backend == "cuda" then multiset{NativeSlot(backend, "batching")} else multiset{})
  }

  function CommonSlots(): multiset<Slot> {
    multiset{Common(CUDA, Some("client")), Common(METAL, Some("client")), Common(CUDA, Some("metrics"))}
  }

  /** The fourteen slots of a release. */
  function ReleaseSlots(): multiset<Slot> {
    BackendSlots("cuda") + BackendSlots("metal") + CommonSlots()
  }

  /** The slots of one backend's records are the slots of that backend. */
  lemma {:induction false} ScopedSlots(records: seq<Record>, backend: string, slot: Slot)
    ensures SlotsOf(Scoped(records, backend))[slot]
         == if slot.Native? && slot.backend == Some(backend) then SlotsOf(records)[slot] else 0
  {
    if records != [] {
      hide SlotsOf;
      ScopedSlots(records[1..], backend, slot);
      var r, rest := records[0], Scoped(records[1..], backend);
      SlotHead(records, slot);
      SlotHead([r] + rest, slot);
      assert ([r] + rest)[1..] == rest && [] + rest == rest;
    }
  }

  lemma {:induction false} ScopedAreNative(records: seq<Record>, backend: string)
    ensures AllOf(Scoped(records, backend), backend)
  {
    if records != [] {
      ScopedAreNative(records[1..], backend);
    }
  }

  lemma {:induction false} SharedSlots(records: seq<Record>, slot: Slot)
    ensures SlotsOf(Shareds(records))[slot] == if slot.Common? then SlotsOf(records)[slot] else 0
    ensures forall k :: 0 <= k < |Shareds(records)| ==> Shareds(records)[k].shared
  {
    if records != [] {
      SharedSlots(records[1..], slot);
      var r, rest := records[0], Shareds(records[1..]);
      if r.shared {
        assert ([r] + rest)[1..] == rest;
      } else {
        assert [] + rest == rest;
      }
    }
  }

  predicate AllOf(records: seq<Record>, backend: string) {
    forall k :: 0 <= k < |records| ==> !records[k].shared && records[k].Backend() == Some(backend)
  }

  lemma CountHead<T>(head: T, rest: seq<T>, x: T)
    ensures multiset([head] + rest)[x] == (if head == x then 1 else 0) + multiset(rest)[x]
  {
    assert multiset([head] + rest) == multiset([head]) + multiset(rest);
  }

  lemma SlotHead(records: seq<Record>, slot: Slot)
    requires records != []
    ensures SlotsOf(records)[slot] == (if SlotOf(records[0]) == slot then 1 else 0) + SlotsOf(records[1..])[slot]
  {
  }

  /** For one backend, slots count what its role list counts. */
  lemma {:induction false} RoleCounts(records: seq<Record>, backend: string, role: Option<string>)
    requires AllOf(records, backend) && role != Some("quality")
    ensures SlotsOf(records)[Native(Some(backend), role, None)] == multiset(RoleList(records))[role]
  {
    if records != [] {
      hide SlotsOf;
      RoleCounts(records[1..], backend, role);
      SlotHead(records, Native(Some(backend), role, None));
      CountHead(records[0].Role(), RoleList(records[1..]), role);
    }
  }

  /** Only quality records are told apart by family. */
  lemma {:induction false} NoFamily(records: seq<Record>, backend: string, role: Option<string>, family: Option<string>)
    requires AllOf(records, backend) && role != Some("quality") && family.Some?
    ensures SlotsOf(records)[Native(Some(backend), role, family)] == 0
  {
    if records != [] {
      hide SlotsOf;
      NoFamily(records[1..], backend, role, family);
      SlotHead(records, Native(Some(backend), role, family));
    }
  }

  /** For one backend, quality slots count what its family list counts. */
  lemma {:induction false} FamilyCounts(records: seq<Record>, backend: string, family: Option<string>)
    requires AllOf(records, backend)
    ensures SlotsOf(records)[Native(Some(backend), Some("quality"), family)]
         == multiset(QualityFamilies(records))[family]
  {
    if records != [] {
      hide SlotsOf;
      var r, rest := records[0], QualityFamilies(records[1..]);
      FamilyCounts(records[1..], backend, family);
      SlotHead(records, Native(Some(backend), Some("quality"), family));
      CountHead(r.declared.family, rest, family);
      assert [] + rest == rest;
    }
  }

  lemma {:induction false} QualityCount(records: seq<Record>)
    ensures multiset(RoleList(records))[Some("quality")] == |QualityFamilies(records)|
  {
    if records != [] {
      QualityCount(records[1..]);
      CountHead(records[0].Role(), RoleList(records[1..]), Some("quality"));
    }
  }

  lemma {:induction false} OnlyNative(records: seq<Record>, backend: string, slot: Slot)
    requires AllOf(records, backend)
    requires slot.Common? || slot.backend != Some(backend)
    ensures SlotsOf(records)[slot] == 0
  {
    if records != [] {
      OnlyNative(records[1..], backend, slot);
    }
  }

  lemma {:induction false} CommonCounts(records: seq<Record>, identity: Identity, role: string)
    requires forall k :: 0 <= k < |records| ==> records[k].shared
    ensures SlotsOf(records)[Common(identity, Some(role))] == multiset(IdentitiesOf(records, role))[identity]
    ensures multiset(RoleList(records))[Some(role)] == |IdentitiesOf(records, role)|
    ensures |SlotsOf(records)| == |records|
  {
    if records != [] {
      CommonCounts(records[1..], identity, role);
    }
  }

  /** Counted roles and families of one backend are exactly its slots. */
  lemma ChecksGiveSlots(records: seq<Record>, backend: string)
    requires AllOf(records, backend) && backend in {"cuda", "metal"}
    requires BackendRoles(backend, records) && OnePerFamily(records)
    ensures SlotsOf(records) == BackendSlots(backend)
  {
    hide SlotsOf, RoleList, QualityFamilies, BackendSlots, BackendRoles;
    forall slot ensures SlotsOf(records)[slot] == BackendSlots(backend)[slot] {
      CountedSlot(records, backend, slot);
      BackendSlotCount(backend, slot);
    }
  }

  function Expected(backend: string, slot: Slot): nat {
    if slot.Common? || slot.backend != Some(backend) || slot.role.None? then 0
    else if slot.role == Some("quality") then (if slot.family in {Some("qwen3"), Some("llama")} then 1 else 0)
    else if slot.family.None? && slot.role.value in RolesOf(backend) then 1
    else 0
  }

  lemma BackendSlotCount(backend: string, slot: Slot)
    requires backend in {"cuda", "metal"}
    ensures BackendSlots(backend)[slot] == Expected(backend, slot)
  {
  }

  lemma CountedSlot(records: seq<Record>, backend: string, slot: Slot)
    requires AllOf(records, backend) && backend in {"cuda", "metal"}
    requires BackendRoles(backend, records) && OnePerFamily(records)
    ensures SlotsOf(records)[slot] == Expected(backend, slot)
  {
    hide SlotsOf, RoleList, QualityFamilies, RolesOf;
    if slot.Common? || slot.backend != Some(backend) {
      OnlyNative(records, backend, slot);
    } else if slot.role == Some("quality") {
      FamilyCounts(records, backend, slot.family);
    } else if slot.family.Some? {
      NoFamily(records, backend, slot.role, slot.family);
    } else {
      RoleCounts(records, backend, slot.role);
      RoleIsRequired(records, backend, slot.role);
    }
  }

  lemma InRequired(role: Option<string>, roles: set<string>)
    ensures role in Required(roles) <==> role.Some? && role.value in roles
  {
  }

  lemma InMembers<T>(x: T, list: seq<T>)
    ensures x in Members(list) <==> multiset(list)[x] > 0
    ensures x in Members(list) <==> x in list
  {
  }

  lemma RoleIsRequired(records: seq<Record>, backend: string, role: Option<string>)
    requires BackendRoles(backend, records) && role != Some("quality")
    ensures multiset(RoleList(records))[role] == if role.Some? && role.value in RolesOf(backend) then 1 else 0
  {
    hide RoleList, RolesOf, Members, Required;
    InMembers(role, RoleList(records));
    InRequired(role, RolesOf(backend));
  }

  lemma SlotsGiveChecks(records: seq<Record>, backend: string)
    requires AllOf(records, backend) && backend in {"cuda", "metal"}
    requires SlotsOf(records) == BackendSlots(backend)
    ensures BackendRoles(backend, records) && OnePerFamily(records)
  {
    hide SlotsOf, RoleList, QualityFamilies, BackendSlots, RolesOf;
    forall family ensures multiset(QualityFamilies(records))[family] == multiset{Some("qwen3"), Some("llama")}[family] {
      FamilyCounts(records, backend, family);
      BackendSlotCount(backend, Native(Some(backend), Some("quality"), family));
    }
    assert multiset(QualityFamilies(records)) == multiset{Some("qwen3"), Some("llama")};
    assert |QualityFamilies(records)| == |multiset(QualityFamilies(records))| == 2;
    QualityCount(records);
    forall role | role != Some("quality")
      ensures multiset(RoleList(records))[role] == if role.Some? && role.value in RolesOf(backend) then 1 else 0
    {
      RoleCounts(records, backend, role);
      BackendSlotCount(backend, Native(Some(backend), role, None));
    }
    QualityIsRequired(backend);
    RolesFromCounts(RoleList(records), RolesOf(backend));
  }

  lemma QualityIsRequired(backend: string)
    ensures "quality" in RolesOf(backend)
  {
  }

  lemma RolesFromCounts(roles: seq<Option<string>>, required: set<string>)
    requires "quality" in required && multiset(roles)[Some("quality")] > 0
    requires forall role | role != Some("quality") ::
               multiset(roles)[role] == if role.Some? && role.value in required then 1 else 0
    ensures Members(roles) == Required(required)
    ensures forall role :: role in required - {"quality"} ==> multiset(roles)[Some(role)] == 1
  {
    hide Members, Required;
    forall role ensures role in Members(roles) <==> role in Required(required) {
      InMembers(role, roles);
      InRequired(role, required);
    }
  }

  /** The counted shared records are exactly the shared slots. */
  lemma SharedChecksGiveSlots(shared: seq<Record>)
    requires SharedCounts(shared) && forall k :: 0 <= k < |shared| ==> shared[k].shared
    ensures SlotsOf(shared) == CommonSlots()
  {
    hide SlotsOf, RoleList, IdentitiesOf, Members, CommonSlots;
    CommonCounts(shared, CUDA, "client");
    CommonCounts(shared, METAL, "client");
    CommonCounts(shared, CUDA, "metrics");
    InMembers(CUDA, IdentitiesOf(shared, "client"));
    InMembers(METAL, IdentitiesOf(shared, "client"));
    InMembers(CUDA, IdentitiesOf(shared, "metrics"));
    ThreeSlots(SlotsOf(shared));
  }

  lemma ThreeSlots(slots: multiset<Slot>)
    requires |slots| == 3
    requires slots[Common(CUDA, Some("client"))] > 0 && slots[Common(METAL, Some("client"))] > 0
    requires slots[Common(CUDA, Some("metrics"))] > 0
    ensures slots == CommonSlots()
  {
    assert CommonSlots() <= slots;
    assert slots == CommonSlots() + (slots - CommonSlots());
  }

  lemma CommonSlotCount(identity: Identity)
    ensures CommonSlots()[Common(identity, Some("client"))] == multiset{CUDA, METAL}[identity]
    ensures CommonSlots()[Common(identity, Some("metrics"))] == multiset{CUDA}[identity]
  {
  }

  /** The identities of one role, from the slots. */
  lemma RoleIdentities(shared: seq<Record>, role: string, expected: multiset<Identity>)
    requires forall k :: 0 <= k < |shared| ==> shared[k].shared
    requires forall identity :: SlotsOf(shared)[Common(identity, Some(role))] == expected[identity]
    ensures multiset(IdentitiesOf(shared, role)) == expected
    ensures multiset(RoleList(shared))[Some(role)] == |IdentitiesOf(shared, role)| == |expected|
    ensures |SlotsOf(shared)| == |shared|
  {
    hide SlotsOf, RoleList, IdentitiesOf;
    var list := IdentitiesOf(shared, role);
    forall identity ensures multiset(list)[identity] == expected[identity] {
      CommonCounts(shared, identity, role);
    }
    CommonCounts(shared, CUDA, role);
    assert multiset(list) == expected;
    assert |list| == |multiset(list)|;
  }

  lemma SlotsGiveSharedChecks(shared: seq<Record>)
    requires SlotsOf(shared) == CommonSlots() && forall k :: 0 <= k < |shared| ==> shared[k].shared
    ensures SharedCounts(shared)
  {
    hide SlotsOf, RoleList, IdentitiesOf, Members, CommonSlots, Natives;
    ClientsFromSlots(shared);
    MetricsFromSlots(shared);
  }

  lemma CommonSize()
    ensures |CommonSlots()| == 3
  {
  }

  lemma ClientsFromSlots(shared: seq<Record>)
    requires SlotsOf(shared) == CommonSlots() && forall k :: 0 <= k < |shared| ==> shared[k].shared
    ensures multiset(RoleList(shared))[Some("client")] == 2
    ensures Members(IdentitiesOf(shared, "client")) == Natives()
  {
    hide SlotsOf, RoleList, IdentitiesOf, Members, CommonSlots;
    forall identity ensures SlotsOf(shared)[Common(identity, Some("client"))] == multiset{CUDA, METAL}[identity] {
      CommonSlotCount(identity);
    }
    RoleIdentities(shared, "client", multiset{CUDA, METAL});
    TwoMembers(IdentitiesOf(shared, "client"));
  }

  lemma MetricsFromSlots(shared: seq<Record>)
    requires SlotsOf(shared) == CommonSlots() && forall k :: 0 <= k < |shared| ==> shared[k].shared
    ensures multiset(RoleList(shared))[Some("metrics")] == 1 && |shared| == 3
    ensures IdentitiesOf(shared, "metrics") != [] && IdentitiesOf(shared, "metrics")[0] == CUDA
  {
    hide SlotsOf, RoleList, IdentitiesOf, Members, CommonSlots;
    forall identity ensures SlotsOf(shared)[Common(identity, Some("metrics"))] == multiset{CUDA}[identity] {
      CommonSlotCount(identity);
    }
    RoleIdentities(shared, "metrics", multiset{CUDA});
    CommonSize();
    OneMember(IdentitiesOf(shared, "metrics"));
  }

  lemma TwoMembers(list: seq<Identity>)
    requires multiset(list) == multiset{CUDA, METAL}
    ensures Members(list) == {CUDA, METAL}
  {
    hide Members;
    forall identity ensures identity in Members(list) <==> identity in {CUDA, METAL} {
      InMembers(identity, list);
    }
  }

  lemma OneMember(list: seq<Identity>)
    requires multiset(list) == multiset{CUDA}
    ensures list != [] && list[0] == CUDA
  {
    assert |list| == |multiset(list)|;
    assert list[0] in multiset(list);
  }

  // ---------- The census ----------

  predicate NativeIdentities(records: seq<Record>) {
    forall k :: 0 <= k < |records| ==> records[k].identity in {CUDA, METAL}
  }

  ghost predicate PartOf(part: multiset<Slot>, all: multiset<Slot>, backend: string) {
    forall slot :: part[slot] == if slot.Native? && slot.backend == Some(backend) then all[slot] else 0
  }

  ghost predicate CommonPart(part: multiset<Slot>, all: multiset<Slot>) {
    forall slot :: part[slot] == if slot.Common? then all[slot] else 0
  }

  /** The records fall into those of the two backends and the shared ones. */
  lemma ThreeParts(records: seq<Record>)
    requires NativeIdentities(records)
    ensures PartOf(SlotsOf(Scoped(records, "cuda")), SlotsOf(records), "cuda")
    ensures PartOf(SlotsOf(Scoped(records, "metal")), SlotsOf(records), "metal")
    ensures CommonPart(SlotsOf(Shareds(records)), SlotsOf(records))
    ensures SlotsOf(records)
         == SlotsOf(Scoped(records, "cuda")) + SlotsOf(Scoped(records, "metal")) + SlotsOf(Shareds(records))
    ensures AllOf(Scoped(records, "cuda"), "cuda") && AllOf(Scoped(records, "metal"), "metal")
    ensures forall k :: 0 <= k < |Shareds(records)| ==> Shareds(records)[k].shared
  {
    hide SlotsOf, Scoped, Shareds, NativeIdentities;
    var cuda, metal, shared := Scoped(records, "cuda"), Scoped(records, "metal"), Shareds(records);
    forall slot
      ensures SlotsOf(cuda)[slot] == if slot.Native? && slot.backend == Some("cuda") then SlotsOf(records)[slot] else 0
      ensures SlotsOf(metal)[slot]
           == if slot.Native? && slot.backend == Some("metal") then SlotsOf(records)[slot] else 0
      ensures SlotsOf(shared)[slot] == if slot.Common? then SlotsOf(records)[slot] else 0
      ensures SlotsOf(records)[slot] == SlotsOf(cuda)[slot] + SlotsOf(metal)[slot] + SlotsOf(shared)[slot]
    {
      ScopedSlots(records, "cuda", slot);
      ScopedSlots(records, "metal", slot);
      SharedSlots(records, slot);
      OtherBackends(records, slot);
    }
    ScopedAreNative(records, "cuda");
    ScopedAreNative(records, "metal");
    SharedSlots(records, NativeSlot("cuda", "runtime"));
  }

  lemma BackendPart(part: multiset<Slot>, backend: string)
    requires backend in {"cuda", "metal"} && PartOf(part, ReleaseSlots(), backend)
    ensures part == BackendSlots(backend)
  {
    hide BackendSlots, CommonSlots, RolesOf;
    forall slot ensures part[slot] == BackendSlots(backend)[slot] {
      BackendSlotCount("cuda", slot);
      BackendSlotCount("metal", slot);
      OnlyCommon(slot);
    }
  }

  lemma OnlyCommon(slot: Slot)
    ensures slot.Native? ==> CommonSlots()[slot] == 0
  {
  }

  lemma SharedPart(part: multiset<Slot>)
    requires CommonPart(part, ReleaseSlots())
    ensures part == CommonSlots()
  {
    hide BackendSlots, CommonSlots, RolesOf;
    forall slot ensures part[slot] == CommonSlots()[slot] {
      BackendSlotCount("cuda", slot);
      BackendSlotCount("metal", slot);
      OnlyCommon(slot);
    }
  }

  /** When every record has a native identity, the counting checks pass exactly for the fourteen slots. */
  lemma CountedIsPopulation(records: seq<Record>)
    requires NativeIdentities(records)
    ensures Counted(records) <==> SlotsOf(records) == ReleaseSlots()
  {
    hide SlotsOf, BackendSlots, CommonSlots, BackendRoles, OnePerFamily, SharedCounts, Scoped, Shareds, AllOf, PartOf,
      CommonPart, NativeIdentities;
    var cuda, metal, shared := Scoped(records, "cuda"), Scoped(records, "metal"), Shareds(records);
    ThreeParts(records);
    if Counted(records) {
      ChecksGiveSlots(cuda, "cuda");
      ChecksGiveSlots(metal, "metal");
      SharedChecksGiveSlots(shared);
    }
    if SlotsOf(records) == ReleaseSlots() {
      BackendPart(SlotsOf(cuda), "cuda");
      BackendPart(SlotsOf(metal), "metal");
      SharedPart(SlotsOf(shared));
      SlotsGiveChecks(cuda, "cuda");
      SlotsGiveChecks(metal, "metal");
      SlotsGiveSharedChecks(shared);
    }
  }

  lemma {:induction false} OtherBackends(records: seq<Record>, slot: Slot)
    requires NativeIdentities(records)
    ensures slot.Native? && slot.backend !in {Some("cuda"), Some("metal")} ==> SlotsOf(records)[slot] == 0
  {
    if records != [] {
      OtherBackends(records[1..], slot);
    }
  }

  // ---------- The whole validation ----------

  predicate FamiliesDeclared(families: seq<string>) {
    multiset(families) == multiset(FAMILIES)
  }

  predicate FilesListed(destinations: seq<string>) {
    && destinations != []
    && (forall k :: 0 <= k < |destinations| ==> IsRelative(destinations[k]))
    && forall i, j :: 0 <= i < j < |destinations| ==> destinations[i] != destinations[j]
  }

  predicate FilesCover(destinations: seq<string>, records: seq<Record>) {
    && DistinctPaths(records)
    && (forall k :: 0 <= k < |records| ==> records[k].declared.path in destinations)
    && "release-evidence.json" in destinations
  }

  /** The quality record of a backend must be comparison evidence. */
  predicate QualityCompared(record: Record) {
    !record.shared && record.Role() == Some("quality") ==> IsComparison(record)
  }

  /** The binaries of the CUDA records of one role. */
  function CudaBinaries(records: seq<Record>, role: string): set<Option<string>> {
    set k | 0 <= k < |records| && records[k].Role() == Some(role) && records[k].identity == CUDA ::
      records[k].declared.binary
  }

  function ClientBinaries(records: seq<Record>): map<Option<string>, Option<string>> {
    if records == [] then map[]
    else
      var last, front := records[|records| - 1], ClientBinaries(records[..|records| - 1]);
      if last.Role() == Some("client") then front[last.Backend() := last.declared.binary] else front
  }

  function ByPath(records: seq<Record>): map<string, Record> {
    if records == [] then map[]
    else
      var last := records[|records| - 1];
      ByPath(records[..|records| - 1])[last.declared.path := last]
  }

  predicate BinaryMatches(record: Record, clients: map<Option<string>, Option<string>>) {
    record.Role() == Some("branching") ==>
      record.declared.binary == if record.Backend() in clients then clients[record.Backend()] else None
  }

  predicate QualityLinked(record: Record, byPath: map<string, Record>) {
    record.Role() == Some("branching") ==>
      && record.declared.quality.Some? && record.declared.quality.value in byPath
      && var linked := byPath[record.declared.quality.value];
         && IsComparison(linked) && linked.Backend() == record.Backend()
         && linked.declared.family == record.declared.family && linked.declared.model == record.declared.model
  }

  predicate EachAllowed(records: seq<Record>, complete: bool) {
    forall k :: 0 <= k < |records| ==> RecordAllowed(records[k], complete)
  }

  predicate EachLinked(records: seq<Record>) {
    forall k :: 0 <= k < |records| ==>
      && QualityCompared(records[k])
      && BinaryMatches(records[k], ClientBinaries(records))
      && QualityLinked(records[k], ByPath(records))
  }

  predicate Accepted(manifest: Manifest) {
    && FilesListed(manifest.destinations)
    && EntriesAllowed(manifest)
    && var records := AllRecords(manifest);
       && FilesCover(manifest.destinations, records)
       && FamiliesDeclared(manifest.families)
       && EachAllowed(records, manifest.complete)
       && Counted(records)
       && CudaBinaries(records, "batching") == CudaBinaries(records, "client")
       && EachLinked(records)
  }

  /** The checks in their order. What they return is a full release: one record for each slot, at distinct paths. */
  method Validate(manifest: Manifest) returns (r: Result<seq<Record>, string>)
    ensures r.Ok? <==> Accepted(manifest)
    ensures r.Ok? ==> r.value == AllRecords(manifest)
    ensures r.Ok? ==> SlotsOf(r.value) == ReleaseSlots() && |r.value| == 14 && DistinctPaths(r.value)
  {
    hide EntriesAllowed, AllRecords, FilesCover, FamiliesDeclared, RecordAllowed, Counted, CudaBinaries, ClientBinaries,
      ByPath, QualityCompared, BinaryMatches, QualityLinked, FilesListed, SlotsOf, ReleaseSlots, DistinctPaths, Scoped,
      Shareds;
    if !FilesListed(manifest.destinations) {
      return Err("evidence manifest files are invalid");
    }
    var entries := RecordEntries(manifest);
    if entries.Err? {
      return Err(entries.error);
    }
    var records := entries.value;
    if !FilesCover(manifest.destinations, records) {
      return Err("evidence files do not cover the records");
    }
    if !FamiliesDeclared(manifest.families) {
      return Err("v0.4 evidence must declare the reviewed model families");
    }
    for n := 0 to |records|
      invariant forall k :: 0 <= k < n ==> RecordAllowed(records[k], manifest.complete)
    {
      if !RecordAllowed(records[n], manifest.complete) {
        return Err("v0.4 record contract differs");
      }
    }
    if !Counted(records) {
      return Err("v0.4 evidence must contain exactly the required records");
    }
    if CudaBinaries(records, "batching") != CudaBinaries(records, "client") {
      return Err("v0.4 batching record binary differs from the CUDA client binary");
    }
    var clients, byPath := ClientBinaries(records), ByPath(records);
    for n := 0 to |records|
      invariant forall k :: 0 <= k < n ==>
        QualityCompared(records[k]) && BinaryMatches(records[k], clients) && QualityLinked(records[k], byPath)
    {
      if !QualityCompared(records[n]) || !BinaryMatches(records[n], clients) || !QualityLinked(records[n], byPath) {
        return Err("v0.4 record has no matching quality comparison or binary");
      }
    }
    Census(manifest);
    r := Ok(records);
  }

  lemma {:induction false} OneSlotEach(records: seq<Record>)
    ensures |SlotsOf(records)| == |records|
  {
    if records != [] {
      OneSlotEach(records[1..]);
    }
  }

  lemma {:induction false} SlotFound(records: seq<Record>, slot: Slot) returns (i: nat)
    requires SlotsOf(records)[slot] > 0
    ensures i < |records| && SlotOf(records[i]) == slot
  {
    hide SlotOf;
    if SlotOf(records[0]) == slot {
      i := 0;
    } else {
      var j := SlotFound(records[1..], slot);
      i := j + 1;
    }
  }

  lemma {:induction false} SlotHeld(records: seq<Record>, i: nat)
    requires i < |records|
    ensures SlotsOf(records)[SlotOf(records[i])] > 0
  {
    hide SlotOf;
    if i > 0 {
      SlotHeld(records[1..], i - 1);
    }
  }

  /** Two records never share a slot that is counted once. */
  lemma {:induction false} SlotUnique(records: seq<Record>, i: nat, j: nat)
    requires i < j < |records| && SlotOf(records[i]) == SlotOf(records[j])
    ensures SlotsOf(records)[SlotOf(records[i])] >= 2
  {
    hide SlotOf;
    if i == 0 {
      SlotHeld(records[1..], j - 1);
    } else {
      SlotUnique(records[1..], i - 1, j - 1);
    }
  }

  /** An accepted manifest has exactly fourteen records at distinct paths, one for each slot of a release. */
  lemma Census(manifest: Manifest)
    requires Accepted(manifest)
    ensures var records := AllRecords(manifest);
            && SlotsOf(records) == ReleaseSlots()
            && |records| == 14 && DistinctPaths(records)
            && |Scoped(records, "cuda")| == 6 && |Scoped(records, "metal")| == 5 && |Shareds(records)| == 3
  {
    hide SlotsOf, AllRecords, EntriesAllowed, EachLinked, RecordAllowed, FilesListed, BackendSlots, CommonSlots,
      FamiliesDeclared,
      BackendRoles, OnePerFamily, SharedCounts, Scoped, Shareds, AllOf, RoleBound, PartOf, CommonPart, DistinctPaths;
    var records := AllRecords(manifest);
    AllNative(records, manifest.complete);
    ThreeParts(records);
    ChecksGiveSlots(Scoped(records, "cuda"), "cuda");
    ChecksGiveSlots(Scoped(records, "metal"), "metal");
    SharedChecksGiveSlots(Shareds(records));
    OneSlotEach(records);
    OneSlotEach(Scoped(records, "cuda"));
    OneSlotEach(Scoped(records, "metal"));
    OneSlotEach(Shareds(records));
    SlotSizes();
  }

  lemma SlotSizes()
    ensures |BackendSlots("cuda")| == 6 && |BackendSlots("metal")| == 5 && |CommonSlots()| == 3
  {
  }

  lemma AllNative(records: seq<Record>, complete: bool)
    requires EachAllowed(records, complete)
    ensures NativeIdentities(records)
  {
    forall k | 0 <= k < |records| ensures records[k].identity in {CUDA, METAL} {
      assert RecordAllowed(records[k], complete);
    }
  }

  // ---------- Branching records and their quality ----------

  /** Record `j` is the comparison quality record, of the same backend and of qwen3, that record `i` names. */
  predicate IsLink(records: seq<Record>, i: nat, j: nat)
    requires i < |records| && j < |records|
  {
    && records[i].declared.quality == Some(records[j].declared.path)
    && SlotOf(records[j]) == Native(records[i].Backend(), Some("quality"), Some("qwen3"))
    && IsComparison(records[j])
  }

  predicate IsBranching(record: Record, backend: string) {
    SlotOf(record) == NativeSlot(backend, "branching")
  }

  lemma {:induction false} PathFound(records: seq<Record>, path: string) returns (j: nat)
    requires path in ByPath(records)
    ensures j < |records| && records[j] == ByPath(records)[path] && records[j].declared.path == path
  {
    var last := |records| - 1;
    if records[last].declared.path == path {
      j := last;
    } else {
      j := PathFound(records[..last], path);
    }
  }

  lemma ReleaseSlotShape(slot: Slot)
    requires ReleaseSlots()[slot] > 0
    ensures slot.Native? ==> slot.role != Some("oracle") && slot.backend in {Some("cuda"), Some("metal")}
    ensures slot.Common? ==> slot.role in {Some("client"), Some("metrics")}
    ensures ReleaseSlots()[slot] == 1
  {
    hide BackendSlots;
    BackendSlotCount("cuda", slot);
    BackendSlotCount("metal", slot);
    CommonSlotShape(slot);
  }

  lemma CommonSlotShape(slot: Slot)
    ensures CommonSlots()[slot] <= 1
    ensures CommonSlots()[slot] == 1 ==> slot.Common? && slot.role in {Some("client"), Some("metrics")}
  {
  }

  /** Only quality and oracle records may carry the stage validator. */
  lemma StageRoles(record: Record, complete: bool)
    requires RecordAllowed(record, complete) && IsComparison(record)
    ensures record.Role() in {Some("quality"), Some("oracle")}
  {
  }

  lemma BranchingBound(record: Record, complete: bool)
    requires RecordAllowed(record, complete) && record.Role() == Some("branching")
    ensures record.declared.family == Some("qwen3")
    ensures record.declared.path in {CUDA_BRANCHING, METAL_BRANCHING}
    ensures record.declared.quality
         == Some(if record.declared.path == CUDA_BRANCHING then CUDA_QUALITY else METAL_QUALITY)
  {
  }

  lemma BranchingAccepted(manifest: Manifest, i: nat)
    requires Accepted(manifest) && i < |AllRecords(manifest)|
    requires AllRecords(manifest)[i].Role() == Some("branching")
    ensures var d := AllRecords(manifest)[i].declared;
            && d.path in {CUDA_BRANCHING, METAL_BRANCHING}
            && d.quality == Some(if d.path == CUDA_BRANCHING then CUDA_QUALITY else METAL_QUALITY)
  {
    hide AllRecords, FilesListed, EntriesAllowed, FilesCover, FamiliesDeclared, RecordAllowed, Counted, CudaBinaries,
      EachLinked;
    BranchingBound(AllRecords(manifest)[i], manifest.complete);
  }

  /** The quality record that an accepted branching record names. */
  lemma LinkFound(manifest: Manifest, i: nat) returns (j: nat)
    requires Accepted(manifest) && i < |AllRecords(manifest)|
    requires AllRecords(manifest)[i].Role() == Some("branching")
    ensures j < |AllRecords(manifest)| && IsLink(AllRecords(manifest), i, j)
  {
    hide SlotsOf, AllRecords, EntriesAllowed, RecordAllowed, FamiliesDeclared, FilesCover, Counted, ReleaseSlots,
      ByPath, FilesListed,
      ClientBinaries, CudaBinaries, BinaryMatches, QualityCompared, Scoped, Shareds, DistinctPaths;
    var records := AllRecords(manifest);
    Census(manifest);
    assert QualityLinked(records[i], ByPath(records));
    j := PathFound(records, records[i].declared.quality.value);
    SlotHeld(records, j);
    ReleaseSlotShape(SlotOf(records[j]));
    StageRoles(records[j], manifest.complete);
    BranchingBound(records[i], manifest.complete);
  }

  /** The record in a slot of a release, the only one there. */
  lemma SlotFilled(manifest: Manifest, slot: Slot) returns (i: nat)
    requires Accepted(manifest) && ReleaseSlots()[slot] > 0
    ensures var records := AllRecords(manifest);
            && i < |records| && SlotOf(records[i]) == slot
            && forall k :: 0 <= k < |records| && SlotOf(records[k]) == slot ==> k == i
  {
    hide SlotsOf, SlotOf, AllRecords, ReleaseSlots, Accepted, Scoped, Shareds, DistinctPaths;
    var records := AllRecords(manifest);
    Census(manifest);
    ReleaseSlotShape(slot);
    i := SlotFound(records, slot);
    forall k | 0 <= k < |records| && SlotOf(records[k]) == slot ensures k == i {
      OneHolder(records, i, k);
    }
  }

  lemma OneHolder(records: seq<Record>, i: nat, k: nat)
    requires i < |records| && k < |records| && SlotOf(records[i]) == SlotOf(records[k])
    requires SlotsOf(records)[SlotOf(records[i])] == 1
    ensures i == k
  {
    hide SlotsOf, SlotOf;
    if i < k {
      SlotUnique(records, i, k);
    } else if k < i {
      SlotUnique(records, k, i);
    }
  }

  /**
   An accepted manifest has exactly two branching records, one for each backend, at the two reviewed paths. They link to
   two different records: each to the one qwen3 comparison record of its own backend. The path of a branching record
   names its backend exactly when the path of that comparison record does.
   */
  lemma BranchingLinks(manifest: Manifest) returns (cuda: nat, metal: nat, cudaQuality: nat, metalQuality: nat)
    requires Accepted(manifest)
    ensures var records := AllRecords(manifest);
            && cuda < |records| && metal < |records| && cudaQuality < |records| && metalQuality < |records|
            && cuda != metal && cudaQuality != metalQuality
            && IsBranching(records[cuda], "cuda") && IsBranching(records[metal], "metal")
            && (forall k :: 0 <= k < |records| && records[k].Role() == Some("branching") ==> k == cuda || k == metal)
            && IsLink(records, cuda, cudaQuality) && IsLink(records, metal, metalQuality)
            && {records[cuda].declared.path, records[metal].declared.path} == {CUDA_BRANCHING, METAL_BRANCHING}
            && (records[cuda].declared.path == CUDA_BRANCHING <==> records[cudaQuality].declared.path == CUDA_QUALITY)
            && (records[metal].declared.path == METAL_BRANCHING <==>
                records[metalQuality].declared.path == METAL_QUALITY)
  {
    hide SlotsOf, AllRecords, Accepted, ReleaseSlots, Scoped, Shareds;
    var records := AllRecords(manifest);
    Census(manifest);
    BranchingSlots();
    cuda := SlotFilled(manifest, NativeSlot("cuda", "branching"));
    metal := SlotFilled(manifest, NativeSlot("metal", "branching"));
    cudaQuality := LinkFound(manifest, cuda);
    metalQuality := LinkFound(manifest, metal);
    BranchingAccepted(manifest, cuda);
    BranchingAccepted(manifest, metal);
    assert records[cuda].declared.path != records[metal].declared.path;
    forall k | 0 <= k < |records| && records[k].Role() == Some("branching") ensures k == cuda || k == metal {
      BranchingSlot(manifest, k);
    }
  }

  lemma BranchingSlots()
    ensures ReleaseSlots()[NativeSlot("cuda", "branching")] > 0 && ReleaseSlots()[NativeSlot("metal", "branching")] > 0
  {
  }

  lemma BranchingSlot(manifest: Manifest, k: nat)
    requires Accepted(manifest) && k < |AllRecords(manifest)|
    requires AllRecords(manifest)[k].Role() == Some("branching")
    ensures IsBranching(AllRecords(manifest)[k], "cuda") || IsBranching(AllRecords(manifest)[k], "metal")
  {
    hide SlotsOf, AllRecords, Accepted, ReleaseSlots, Scoped, Shareds, DistinctPaths;
    Census(manifest);
    SlotHeld(AllRecords(manifest), k);
    ReleaseSlotShape(SlotOf(AllRecords(manifest)[k]));
  }

  // ---------- What the records of a release declare ----------

  /** The names, identities and digests that a release is reviewed for. */
  lemma ReviewedNames()
    ensures CUDA == Identity(Some("linux-x86_64"), Some("x86_64-unknown-linux-gnu"), Some("cuda"))
    ensures METAL == Identity(Some("darwin-arm64"), Some("aarch64-apple-darwin"), Some("metal"))
    ensures BACKEND_IDS == {"linux-x86_64-cuda", "darwin-arm64-metal"} && FAMILIES == ["qwen3", "llama"]
    ensures QWEN3_MODEL == ("d98cdcbd03e17ce4" + "7681435b5150e34c") + ("1417f50b5c0019dd" + "560e4882c5745785")
    ensures LLAMA_MODEL == ("1d0e9419ec4e12ae" + "f73ccf4ffd122703") + ("e94c48344a96bc7c" + "5f0f2772c2152ce3")
    ensures BATCHING_PATH == "receipts/" + ("v04-linux-cuda-" + "batched-service.json")
    ensures CUDA_BRANCHING == "receipts/" + ("v04-linux-cuda-" + "branching-service.json")
    ensures METAL_BRANCHING == "receipts/" + ("v04-darwin-metal-" + "branching-service.json")
    ensures CUDA_QUALITY == "receipts/" + ("v04-linux-cuda-" + "quality-comparison-qwen3.json")
    ensures METAL_QUALITY == "receipts/" + ("v04-darwin-metal-" + "quality-comparison-qwen3.json")
  {
  }

  /** The validators that each role may have. */
  predicate Validates(role: string, validator: string) {
    (role, validator) in {
      ("runtime", "runtime-receipt-v1"), ("quality", "quality-receipt-v1"), ("quality", "quality-stage-v1"),
      ("oracle", "quality-stage-v1"), ("service", "concurrent-service-v1"), ("metrics", "service-metrics-v1"),
      ("client", "openai-client-v1"), ("batching", "batched-service-v1"), ("branching", "branching-service-v1")}
  }

  /** The model family that each role is reviewed with; a quality record may have either. */
  predicate HasFamily(role: string, family: Option<string>, model: Option<string>) {
    match role
    case "client" => family == Some("llama") && model == Some(LLAMA_MODEL)
    case "quality" => (family == Some("qwen3") && model == Some(QWEN3_MODEL))
                      || (family == Some("llama") && model == Some(LLAMA_MODEL))
    case "oracle" => true
    case _ => family == Some("qwen3") && model == Some(QWEN3_MODEL)
  }

  /** The place, schema and quality record of the roles that have fixed ones. */
  predicate HasPlace(role: string, d: Declared) {
    match role
    case "batching" =>
      d.path == BATCHING_PATH && d.schema == Named("leone.batched-service-study.v1") && d.quality == Some(CUDA_QUALITY)
    case "branching" =>
      && d.schema == Named("leone.branching-service.v1")
      && ((d.path == CUDA_BRANCHING && d.quality == Some(CUDA_QUALITY))
          || (d.path == METAL_BRANCHING && d.quality == Some(METAL_QUALITY)))
    case "client" => d.schema == Named("leone.openai-client-check.v2")
    case _ => true
  }

  /** The mode of a stage record, and the schema of a comparison on each backend. */
  predicate HasMode(backend: Option<string>, d: Declared) {
    d.validator == Some("quality-stage-v1") ==>
      && d.mode in {Some("export"), Some("metal"), Some("comparison")}
      && (d.mode == Some("comparison") ==>
           d.schema == if backend == Some("cuda") then Named("leone.quality-comparison.v2")
                       else Named("leone.quality-cross-device.v2"))
  }

  /** A record passes exactly with a native identity, a validator of its role, and the role's family, place and mode. */
  lemma RecordContract(record: Record, complete: bool)
    ensures RecordAllowed(record, complete) <==>
              var d := record.declared;
              && record.identity in {CUDA, METAL}
              && d.role.Some? && d.validator.Some? && Validates(d.role.value, d.validator.value)
              && HasFamily(d.role.value, d.family, d.model) && HasPlace(d.role.value, d)
              && HasMode(record.identity.backend, d)
              && (complete && d.role.value in {"batching", "branching", "client"} ==> d.binary.Some?)
  {
  }

  // ---------- Which binaries and comparisons go together ----------

  lemma {:induction false} ClientFound(records: seq<Record>, backend: Option<string>) returns (k: nat)
    requires backend in ClientBinaries(records)
    ensures k < |records| && records[k].Role() == Some("client") && records[k].Backend() == backend
    ensures records[k].declared.binary == ClientBinaries(records)[backend]
  {
    var last := |records| - 1;
    if records[last].Role() == Some("client") && records[last].Backend() == backend {
      k := last;
    } else {
      k := ClientFound(records[..last], backend);
    }
  }

  lemma {:induction false} ClientListed(records: seq<Record>, k: nat)
    requires k < |records| && records[k].Role() == Some("client")
    ensures records[k].Backend() in ClientBinaries(records)
  {
    var last := |records| - 1;
    if k < last {
      ClientListed(records[..last], k);
    }
  }

  /** In an accepted manifest only one client record belongs to a backend. */
  lemma OneClient(manifest: Manifest, i: nat, k: nat)
    requires Accepted(manifest) && i < |AllRecords(manifest)| && k < |AllRecords(manifest)|
    requires AllRecords(manifest)[i].Role() == AllRecords(manifest)[k].Role() == Some("client")
    requires AllRecords(manifest)[i].Backend() == AllRecords(manifest)[k].Backend()
    ensures i == k
  {
    hide SlotsOf, AllRecords, ReleaseSlots, Scoped, Shareds, DistinctPaths, RecordAllowed, Accepted;
    var records := AllRecords(manifest);
    Census(manifest);
    ClientIsShared(manifest, i);
    ClientIsShared(manifest, k);
    ReleaseSlotShape(SlotOf(records[i]));
    OneHolder(records, i, k);
  }

  lemma ClientIsShared(manifest: Manifest, i: nat)
    requires Accepted(manifest) && i < |AllRecords(manifest)|
    requires AllRecords(manifest)[i].Role() == Some("client")
    ensures var r := AllRecords(manifest)[i];
            && r.shared && SlotsOf(AllRecords(manifest))[SlotOf(r)] > 0 && ReleaseSlots()[SlotOf(r)] > 0
            && r.identity in {CUDA, METAL}
  {
    hide SlotsOf, AllRecords, ReleaseSlots, Scoped, Shareds, DistinctPaths, Accepted, RoleBound;
    var records := AllRecords(manifest);
    Census(manifest);
    SlotHeld(records, i);
    NoNativeClient(SlotOf(records[i]));
    NativeRecord(manifest, i);
  }

  lemma NativeRecord(manifest: Manifest, i: nat)
    requires Accepted(manifest) && i < |AllRecords(manifest)|
    ensures AllRecords(manifest)[i].identity in {CUDA, METAL}
  {
    hide AllRecords, FilesListed, EntriesAllowed, FilesCover, FamiliesDeclared, Counted, CudaBinaries, EachLinked,
      RoleBound;
    assert RecordAllowed(AllRecords(manifest)[i], manifest.complete);
  }

  lemma NoNativeClient(slot: Slot)
    requires ReleaseSlots()[slot] > 0
    ensures slot.Native? ==> slot.role != Some("client")
    ensures slot.Native? && slot.role == Some("batching") ==> slot.backend == Some("cuda")
  {
    hide CommonSlots;
    CommonSlotShape(slot);
  }

  /** Branching and batching records were run with the binary of the client record of their backend. */
  lemma BinariesAgree(manifest: Manifest, i: nat, client: nat)
    requires Accepted(manifest) && i < |AllRecords(manifest)| && client < |AllRecords(manifest)|
    requires AllRecords(manifest)[i].Role() in {Some("branching"), Some("batching")}
    requires AllRecords(manifest)[client].Role() == Some("client")
    requires AllRecords(manifest)[client].Backend() == AllRecords(manifest)[i].Backend()
    ensures AllRecords(manifest)[i].declared.binary == AllRecords(manifest)[client].declared.binary
  {
    hide AllRecords, Accepted, ClientBinaries, CudaBinaries;
    if AllRecords(manifest)[i].Role() == Some("branching") {
      BranchingBinary(manifest, i, client);
    } else {
      BatchingBinary(manifest, i, client);
    }
  }

  lemma BranchingBinary(manifest: Manifest, i: nat, client: nat)
    requires Accepted(manifest) && i < |AllRecords(manifest)| && client < |AllRecords(manifest)|
    requires AllRecords(manifest)[i].Role() == Some("branching")
    requires AllRecords(manifest)[client].Role() == Some("client")
    requires AllRecords(manifest)[client].Backend() == AllRecords(manifest)[i].Backend()
    ensures AllRecords(manifest)[i].declared.binary == AllRecords(manifest)[client].declared.binary
  {
    hide AllRecords, FilesListed, EntriesAllowed, FilesCover, FamiliesDeclared, Counted, CudaBinaries, RecordAllowed,
      ClientBinaries, QualityLinked, QualityCompared;
    var records := AllRecords(manifest);
    assert BinaryMatches(records[i], ClientBinaries(records));
    ClientListed(records, client);
    var k := ClientFound(records, records[i].Backend());
    OneClient(manifest, client, k);
  }

  lemma BatchingBinary(manifest: Manifest, i: nat, client: nat)
    requires Accepted(manifest) && i < |AllRecords(manifest)| && client < |AllRecords(manifest)|
    requires AllRecords(manifest)[i].Role() == Some("batching")
    requires AllRecords(manifest)[client].Role() == Some("client")
    requires AllRecords(manifest)[client].Backend() == AllRecords(manifest)[i].Backend()
    ensures AllRecords(manifest)[i].declared.binary == AllRecords(manifest)[client].declared.binary
  {
    hide AllRecords, FilesListed, EntriesAllowed, FilesCover, FamiliesDeclared, Counted, RecordAllowed, EachLinked;
    var records := AllRecords(manifest);
    BatchingIsCuda(manifest, i);
    NativeRecord(manifest, i);
    NativeRecord(manifest, client);
    assert records[i].declared.binary in CudaBinaries(records, "batching");
    assert records[i].declared.binary in CudaBinaries(records, "client");
    var k :| 0 <= k < |records| && records[k].Role() == Some("client") && records[k].identity == CUDA
             && records[k].declared.binary == records[i].declared.binary;
    OneClient(manifest, client, k);
  }

  lemma BatchingIsCuda(manifest: Manifest, i: nat)
    requires Accepted(manifest) && i < |AllRecords(manifest)|
    requires AllRecords(manifest)[i].Role() == Some("batching")
    ensures AllRecords(manifest)[i].Backend() == Some("cuda")
  {
    hide SlotsOf, AllRecords, ReleaseSlots, Scoped, Shareds, DistinctPaths, Accepted;
    var records := AllRecords(manifest);
    Census(manifest);
    SlotHeld(records, i);
    NoNativeClient(SlotOf(records[i]));
    ReleaseSlotShape(SlotOf(records[i]));
  }

  /** The quality records of the backends are comparisons. */
  lemma QualityIsComparison(manifest: Manifest, i: nat)
    requires Accepted(manifest) && i < |AllRecords(manifest)|
    requires !AllRecords(manifest)[i].shared && AllRecords(manifest)[i].Role() == Some("quality")
    ensures AllRecords(manifest)[i].declared.validator == Some("quality-stage-v1")
    ensures AllRecords(manifest)[i].declared.mode == Some("comparison")
  {
    hide AllRecords, FilesListed, EntriesAllowed, FilesCover, FamiliesDeclared, Counted, CudaBinaries, RecordAllowed,
      ClientBinaries, ByPath, QualityLinked, BinaryMatches;
    assert QualityCompared(AllRecords(manifest)[i]);
  }

  // ---------- What the entries of an accepted manifest are ----------

  /** What a record may declare: normal relative paths, a named family, and digests of 64 lower-case digits. */
  predicate WellDeclared(d: Declared) {
    && IsRelative(d.path)
    && (d.mode == None || IsRelative(d.mode.value)) && (d.quality == None || IsRelative(d.quality.value))
    && d.family != Some("")
    && (d.model == None || Text.IsDigest(d.model.value)) && (d.binary == None || Text.IsDigest(d.binary.value))
  }

  /** Two backends under their two names, each with records, and shared records beside them, all well declared. */
  lemma AcceptedEntries(manifest: Manifest)
    requires Accepted(manifest)
    ensures |manifest.requirements| == 2
    ensures {manifest.requirements[0].id, manifest.requirements[1].id} == {"linux-x86_64-cuda", "darwin-arm64-metal"}
    ensures {IdentityOf(manifest.requirements[0]), IdentityOf(manifest.requirements[1])} == {CUDA, METAL}
    ensures manifest.requirements[0].records != [] && manifest.requirements[1].records != [] && manifest.shared != []
    ensures forall k :: 0 <= k < |AllRecords(manifest)| ==> WellDeclared(AllRecords(manifest)[k].declared)
  {
    hide AllRecords, FilesListed, FilesCover, FamiliesDeclared, EachAllowed, Counted, CudaBinaries, EachLinked,
      DeclaredAllowed, WellDeclared, SharedAllowed;
    TwoRequirements(manifest.requirements);
    DeclaredRecords(manifest);
    var r := manifest.requirements;
    assert RequirementAllowed(r[0]) && RequirementAllowed(r[1]);
    assert Ids(r) == {r[0].id, r[1].id};
    assert (set k | 0 <= k < |r| :: IdentityOf(r[k])) == {IdentityOf(r[0]), IdentityOf(r[1])};
  }

  lemma TwoRequirements(requirements: seq<Requirement>)
    requires DistinctIds(requirements) && Ids(requirements) == BACKEND_IDS
    ensures |requirements| == 2
  {
    IdCount(requirements);
    assert |BACKEND_IDS| == 2;
  }

  lemma {:induction false} IdCount(requirements: seq<Requirement>)
    requires DistinctIds(requirements)
    ensures |Ids(requirements)| == |requirements|
  {
    if requirements != [] {
      var front, last := requirements[..|requirements| - 1], requirements[|requirements| - 1];
      IdCount(front);
      assert last.id !in Ids(front);
      assert Ids(requirements) == Ids(front) + {last.id};
    }
  }

  lemma AllowedIsWellDeclared(d: Declared)
    requires DeclaredAllowed(d)
    ensures WellDeclared(d)
  {
  }

  lemma {:induction false} BackendDeclared(requirements: seq<Requirement>, k: nat)
    requires forall j :: 0 <= j < |requirements| ==> RequirementAllowed(requirements[j])
    requires k < |BackendRecords(requirements)|
    ensures DeclaredAllowed(BackendRecords(requirements)[k].declared)
  {
    hide DeclaredAllowed;
    var front, last := requirements[..|requirements| - 1], requirements[|requirements| - 1];
    if k < |BackendRecords(front)| {
      BackendDeclared(front, k);
    } else {
      assert RequirementAllowed(last);
    }
  }

  lemma DeclaredRecords(manifest: Manifest)
    requires EntriesAllowed(manifest)
    ensures forall k :: 0 <= k < |AllRecords(manifest)| ==> WellDeclared(AllRecords(manifest)[k].declared)
  {
    hide DeclaredAllowed, WellDeclared, BackendRecords, NativeBackends;
    var own := BackendRecords(manifest.requirements);
    forall k | 0 <= k < |AllRecords(manifest)| ensures WellDeclared(AllRecords(manifest)[k].declared) {
      if k < |own| {
        BackendDeclared(manifest.requirements, k);
      } else {
        assert SharedAllowed(manifest.shared[k - |own|].0, manifest.shared[k - |own|].1);
      }
      AllowedIsWellDeclared(AllRecords(manifest)[k].declared);
    }
  }

  /** The files of an accepted manifest: distinct normal paths, among them every record and the manifest itself. */
  lemma AcceptedFiles(manifest: Manifest)
    requires Accepted(manifest)
    ensures forall i, j :: 0 <= i < j < |manifest.destinations| ==> manifest.destinations[i] != manifest.destinations[j]
    ensures forall path :: path in manifest.destinations ==> IsRelative(path)
    ensures forall k :: 0 <= k < |AllRecords(manifest)| ==>
              AllRecords(manifest)[k].declared.path in manifest.destinations
    ensures "release-evidence.json" in manifest.destinations
    ensures multiset(manifest.families) == multiset{"qwen3", "llama"}
  {
    hide AllRecords, IsRelative, EntriesAllowed, EachAllowed, Counted, CudaBinaries, EachLinked, DistinctPaths;
    assert multiset(FAMILIES) == multiset{"qwen3", "llama"};
  }
}
