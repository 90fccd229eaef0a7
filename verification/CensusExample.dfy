/** A manifest that the census accepts, in two versions that differ only in which backend uses which reviewed paths. */
module CensusExample {
  import opened Wrappers
  import opened Census
  import PosixPath
  import Text

  function Entry(path: string, schema: string, role: string, validator: string, family: string, quality: Option<string>)
    : Declared
  {
    Declared(path, Named(schema), Some(role), Some(validator), if role == "quality" then Some("comparison") else None,
             Some(family), ModelOf(Some(family)), None, quality)
  }

  function Quality(path: string, family: string, backend: string): Declared {
    Entry(path, ComparisonSchema(Some(backend)).text, "quality", "quality-stage-v1", family, None)
  }

  function Branching(path: string): Declared {
    Entry(path, "leone.branching-service.v1", "branching", "branching-service-v1", "qwen3",
          Some(if path == CUDA_BRANCHING then CUDA_QUALITY else METAL_QUALITY))
  }

  /** The records of a backend that do not depend on its paths. */
  function Cuda(swapped: bool): seq<Declared> {
    [Entry("a", "", "runtime", "runtime-receipt-v1", "qwen3", None),
     Entry("aa", "", "service", "concurrent-service-v1", "qwen3", None),
     Quality("aaa", "llama", "cuda"),
     Entry(BATCHING_PATH, "leone.batched-service-study.v1", "batching", "batched-service-v1", "qwen3",
           Some(CUDA_QUALITY)),
     Quality(if swapped then METAL_QUALITY else CUDA_QUALITY, "qwen3", "cuda"),
     Branching(if swapped then METAL_BRANCHING else CUDA_BRANCHING)]
  }

  function Metal(swapped: bool): seq<Declared> {
    [Entry("aaaa", "", "runtime", "runtime-receipt-v1", "qwen3", None),
     Entry("aaaaa", "", "service", "concurrent-service-v1", "qwen3", None),
     Quality("aaaaaa", "llama", "metal"),
     Quality(if swapped then CUDA_QUALITY else METAL_QUALITY, "qwen3", "metal"),
     Branching(if swapped then CUDA_BRANCHING else METAL_BRANCHING)]
  }

  function Client(path: string): Declared {
    Entry(path, "leone.openai-client-check.v2", "client", "openai-client-v1", "llama", None)
  }

  const SHARED: seq<(Identity, Declared)> :=
    [(CUDA, Client("aaaaaaa")),
     (METAL, Client("aaaaaaaa")),
     (CUDA, Entry("aaaaaaaaa", "", "metrics", "service-metrics-v1", "qwen3", None))]

  function Requirements(swapped: bool): seq<Requirement> {
    [Requirement("linux-x86_64-cuda", "linux-x86_64", "x86_64-unknown-linux-gnu", "cuda", Cuda(swapped)),
     Requirement("darwin-arm64-metal", "darwin-arm64", "aarch64-apple-darwin", "metal", Metal(swapped))]
  }

  function Paths(records: seq<Record>): (paths: seq<string>)
    ensures |paths| == |records|
  {
    seq(|records|, k requires 0 <= k < |records| => records[k].declared.path)
  }

  function Records(swapped: bool): seq<Record> {
    var r := Requirements(swapped);
    (OwnRecords(r[0], r[0].records) + OwnRecords(r[1], r[1].records)) + SharedRecords(SHARED)
  }

  function Example(swapped: bool): Manifest {
    Manifest(false, Paths(Records(swapped)) + ["release-evidence.json"], FAMILIES, Requirements(swapped), SHARED)
  }

  lemma ExampleRecords(swapped: bool)
    ensures AllRecords(Example(swapped)) == Records(swapped)
  {
    hide OwnRecords, SharedRecords, Cuda, Metal;
    var r := Requirements(swapped);
    assert r[..1] == [r[0]] && r[..1][..0] == [];
    assert BackendRecords(r[..1]) == OwnRecords(r[0], r[0].records);
    assert BackendRecords(r) == BackendRecords(r[..1]) + OwnRecords(r[1], r[1].records);
  }

  lemma CudaShape(swapped: bool)
    ensures |Cuda(swapped)| == 6
  {
  }

  lemma MetalShape(swapped: bool)
    ensures |Metal(swapped)| == 5
  {
  }

  // ---------- Paths: all of different lengths ----------

  function Lengths(swapped: bool): seq<nat> {
    if swapped then [1, 2, 3, 44, 55, 48, 4, 5, 6, 53, 46, 7, 8, 9]
    else [1, 2, 3, 44, 53, 46, 4, 5, 6, 55, 48, 7, 8, 9]
  }

  lemma FixedLengths()
    ensures |BATCHING_PATH| == 44 && |CUDA_QUALITY| == 53 && |METAL_QUALITY| == 55
    ensures |CUDA_BRANCHING| == 46 && |METAL_BRANCHING| == 48
  {
  }

  lemma PathLengths(swapped: bool)
    ensures |Records(swapped)| == 14
    ensures forall k :: 0 <= k < 14 ==> |Records(swapped)[k].declared.path| == Lengths(swapped)[k]
  {
    hide Branching, Quality, Client;
    FixedLengths();
    CudaLengths(swapped);
    MetalLengths(swapped);
    SharedLengths();
  }

  lemma CudaLengths(swapped: bool)
    ensures |Cuda(swapped)| == 6
    ensures forall k :: 0 <= k < 6 ==> |Cuda(swapped)[k].path| == Lengths(swapped)[k]
  {
    FixedLengths();
  }

  lemma MetalLengths(swapped: bool)
    ensures |Metal(swapped)| == 5
    ensures forall k :: 0 <= k < 5 ==> |Metal(swapped)[k].path| == Lengths(swapped)[k + 6]
  {
    FixedLengths();
  }

  lemma SharedLengths()
    ensures |SHARED| == 3 && |SHARED[0].1.path| == 7 && |SHARED[1].1.path| == 8 && |SHARED[2].1.path| == 9
  {
  }

  lemma DistinctLengths(swapped: bool, i: nat, j: nat)
    requires i < j < 14
    ensures Lengths(swapped)[i] != Lengths(swapped)[j]
  {
  }

  lemma NameIsRelative(name: string)
    requires '/' !in name && '\\' !in name && name !in {"", ".", ".."}
    ensures IsRelative(name)
  {
    PosixPath.PartsPrint([name]);
    assert PosixPath.Print([name]) == name;
    assert PosixPath.Parts(name) == [name];
  }

  predicate Plain(text: string) {
    '/' !in text && '\\' !in text
  }

  lemma PlainJoined(one: string, two: string)
    requires Plain(one) && Plain(two)
    ensures Plain(one + two)
  {
  }

  lemma ReceiptIsRelative(prefix: string, rest: string)
    requires Plain(prefix) && Plain(rest) && |prefix| > 2
    ensures IsRelative(RECEIPTS + (prefix + rest))
  {
    hide PosixPath.Parts, PosixPath.Print;
    var name := prefix + rest;
    PlainJoined(prefix, rest);
    ReceiptPath(name);
    assert '\\' !in RECEIPTS + name;
    assert ".." !in ["receipts", name];
  }

  lemma ReceiptPath(name: string)
    requires Plain(name) && |name| > 2
    ensures PosixPath.Print(["receipts", name]) == RECEIPTS + name
    ensures PosixPath.Parts(RECEIPTS + name) == ["receipts", name] && !PosixPath.Absolute(RECEIPTS + name)
    ensures '\\' !in RECEIPTS
  {
    hide PosixPath.Parts;
    var path := ["receipts", name];
    assert PosixPath.IsPart("receipts");
    Text.JoinCons(path, '/');
    Text.JoinCons([name], '/');
    assert path[1..] == [name];
    assert RECEIPTS == "receipts" + ['/'];
    PosixPath.PartsPrint(path);
  }

  lemma ShortNames()
    ensures forall name | name in {"a", "aa", "aaa", "aaaa", "aaaaa", "aaaaaa", "aaaaaaa", "aaaaaaaa", "aaaaaaaaa"} ::
              IsRelative(name)
    ensures IsRelative("release-evidence.json") && IsRelative("comparison")
  {
    hide IsRelative;
    forall name | name in {"a", "aa", "aaa", "aaaa", "aaaaa", "aaaaaa", "aaaaaaa", "aaaaaaaa", "aaaaaaaaa"}
      ensures IsRelative(name)
    {
      AllAs(name);
    }
    NameIsRelative("release-evidence.json");
    NameIsRelative("comparison");
  }

  lemma AllAs(name: string)
    requires name != "" && forall k :: 0 <= k < |name| ==> name[k] == 'a'
    ensures IsRelative(name)
  {
    hide IsRelative;
    assert name[0] == 'a';
    NameIsRelative(name);
  }

  lemma CudaNameIsPlain()
    ensures Plain(CUDA_NAME)
  {
  }

  lemma MetalNameIsPlain()
    ensures Plain(METAL_NAME)
  {
  }

  lemma BatchedIsPlain()
    ensures Plain("batched-service.json")
  {
  }

  lemma BranchIsPlain()
    ensures Plain("branching-service.json")
  {
  }

  lemma ComparedIsPlain()
    ensures Plain("quality-comparison-qwen3.json")
  {
  }

  lemma PlainNames()
    ensures Plain(CUDA_NAME) && Plain(METAL_NAME)
    ensures Plain("batched-service.json") && Plain("branching-service.json") && Plain("quality-comparison-qwen3.json")
  {
    hide Plain;
    CudaNameIsPlain();
    MetalNameIsPlain();
    BatchedIsPlain();
    BranchIsPlain();
    ComparedIsPlain();
  }

  lemma FixedNames()
    ensures IsRelative(BATCHING_PATH) && IsRelative(CUDA_QUALITY) && IsRelative(METAL_QUALITY)
    ensures IsRelative(CUDA_BRANCHING) && IsRelative(METAL_BRANCHING)
  {
    hide IsRelative, Plain;
    PlainNames();
    ReceiptIsRelative(CUDA_NAME, "batched-service.json");
    ReceiptIsRelative(CUDA_NAME, "branching-service.json");
    ReceiptIsRelative(METAL_NAME, "branching-service.json");
    ReceiptIsRelative(CUDA_NAME, "quality-comparison-qwen3.json");
    ReceiptIsRelative(METAL_NAME, "quality-comparison-qwen3.json");
  }

  predicate AllHex(text: string) {
    forall c | c in text :: Text.LowerHex(c)
  }

  lemma JoinedHex(one: string, two: string)
    ensures AllHex(one) && AllHex(two) ==> AllHex(one + two)
  {
  }

  lemma HexIsDigest(text: string)
    requires AllHex(text) && |text| == 64
    ensures Text.IsDigest(text)
  {
    assert forall k :: 0 <= k < |text| ==> text[k] in text;
  }

  lemma QwenIsDigest()
    ensures Text.IsDigest(QWEN3_MODEL)
  {
    hide Text.IsDigest, Text.LowerHex;
    var one, two := "d98cdcbd03e17ce4" + "7681435b5150e34c", "1417f50b5c0019dd" + "560e4882c5745785";
    QwenPiece0();
    QwenPiece1();
    QwenPiece2();
    QwenPiece3();
    JoinedHex("d98cdcbd03e17ce4", "7681435b5150e34c");
    JoinedHex("1417f50b5c0019dd", "560e4882c5745785");
    JoinedHex(one, two);
    HexIsDigest(QWEN3_MODEL);
  }

  lemma QwenPiece0()
    ensures AllHex("d98cdcbd03e17ce4")
  {
  }

  lemma QwenPiece1()
    ensures AllHex("7681435b5150e34c")
  {
  }

  lemma QwenPiece2()
    ensures AllHex("1417f50b5c0019dd")
  {
  }

  lemma QwenPiece3()
    ensures AllHex("560e4882c5745785")
  {
  }

  lemma LlamaIsDigest()
    ensures Text.IsDigest(LLAMA_MODEL)
  {
    hide Text.IsDigest, Text.LowerHex;
    var one, two := "1d0e9419ec4e12ae" + "f73ccf4ffd122703", "e94c48344a96bc7c" + "5f0f2772c2152ce3";
    LlamaPiece0();
    LlamaPiece1();
    LlamaPiece2();
    LlamaPiece3();
    JoinedHex("1d0e9419ec4e12ae", "f73ccf4ffd122703");
    JoinedHex("e94c48344a96bc7c", "5f0f2772c2152ce3");
    JoinedHex(one, two);
    HexIsDigest(LLAMA_MODEL);
  }

  lemma LlamaPiece0()
    ensures AllHex("1d0e9419ec4e12ae")
  {
  }

  lemma LlamaPiece1()
    ensures AllHex("f73ccf4ffd122703")
  {
  }

  lemma LlamaPiece2()
    ensures AllHex("e94c48344a96bc7c")
  {
  }

  lemma LlamaPiece3()
    ensures AllHex("5f0f2772c2152ce3")
  {
  }

  lemma ModelsAreDigests()
    ensures Text.IsDigest(QWEN3_MODEL) && Text.IsDigest(LLAMA_MODEL)
  {
    hide Text.IsDigest;
    QwenIsDigest();
    LlamaIsDigest();
  }

  lemma Files(swapped: bool)
    ensures FilesCover(Example(swapped).destinations, Records(swapped))
  {
    hide Records;
    var records := Records(swapped);
    PathLengths(swapped);
    forall i, j | 0 <= i < j < |records| ensures records[i].declared.path != records[j].declared.path {
      DistinctLengths(swapped, i, j);
    }
    forall k | 0 <= k < |records| ensures records[k].declared.path in Example(swapped).destinations {
      assert Example(swapped).destinations[k] == records[k].declared.path;
    }
    assert Example(swapped).destinations[|records|] == "release-evidence.json";
  }

  // ---------- The records ----------

  /** What every record of the example has to meet on its own. */
  predicate Fits(record: Record, slot: Slot) {
    && RecordAllowed(record, false) && QualityCompared(record) && record.declared.binary == None
    && SlotOf(record) == slot && record.identity in {CUDA, METAL} && DeclaredAllowed(record.declared)
  }

  lemma RuntimeFits(path: string, identity: Identity)
    requires identity in {CUDA, METAL} && IsRelative(path)
    ensures Fits(Record(false, identity, Entry(path, "", "runtime", "runtime-receipt-v1", "qwen3", None)),
                 Native(identity.backend, Some("runtime"), None))
  {
    hide IsRelative, Text.IsDigest;
    ModelsAreDigests();
    ShortNames();
    FixedNames();
  }

  lemma ServiceFits(path: string, identity: Identity)
    requires identity in {CUDA, METAL} && IsRelative(path)
    ensures Fits(Record(false, identity, Entry(path, "", "service", "concurrent-service-v1", "qwen3", None)),
                 Native(identity.backend, Some("service"), None))
  {
    hide IsRelative, Text.IsDigest;
    ModelsAreDigests();
    ShortNames();
    FixedNames();
  }

  lemma QualityFits(path: string, family: string, identity: Identity)
    requires identity in {CUDA, METAL} && IsRelative(path) && family in {"qwen3", "llama"}
    ensures Fits(Record(false, identity, Quality(path, family, identity.backend.value)),
                 Native(identity.backend, Some("quality"), Some(family)))
    ensures IsComparison(Record(false, identity, Quality(path, family, identity.backend.value)))
  {
    hide IsRelative, Text.IsDigest;
    ModelsAreDigests();
    ShortNames();
    FixedNames();
  }

  lemma BatchingFits()
    ensures Fits(Record(false, CUDA, Entry(BATCHING_PATH, "leone.batched-service-study.v1", "batching",
                                           "batched-service-v1", "qwen3", Some(CUDA_QUALITY))),
                 NativeSlot("cuda", "batching"))
  {
    hide IsRelative, Text.IsDigest;
    ModelsAreDigests();
    ShortNames();
    FixedNames();
  }

  lemma BranchingFits(path: string, identity: Identity)
    requires identity in {CUDA, METAL} && path in {CUDA_BRANCHING, METAL_BRANCHING}
    ensures Fits(Record(false, identity, Branching(path)), Native(identity.backend, Some("branching"), None))
  {
    hide IsRelative, Text.IsDigest;
    ModelsAreDigests();
    ShortNames();
    FixedNames();
  }

  lemma ClientFits(path: string, identity: Identity)
    requires identity in {CUDA, METAL} && IsRelative(path)
    ensures Fits(Record(true, identity, Client(path)), Common(identity, Some("client")))
  {
    hide IsRelative, Text.IsDigest;
    ModelsAreDigests();
    ShortNames();
    FixedNames();
  }

  lemma MetricsFits(path: string)
    requires IsRelative(path)
    ensures Fits(Record(true, CUDA, Entry(path, "", "metrics", "service-metrics-v1", "qwen3", None)),
                 Common(CUDA, Some("metrics")))
  {
    hide IsRelative, Text.IsDigest;
    ModelsAreDigests();
    ShortNames();
    FixedNames();
  }

  function CudaPlan(): seq<Slot> {
    [NativeSlot("cuda", "runtime"), NativeSlot("cuda", "service"), QualitySlot("cuda", "llama"),
     NativeSlot("cuda", "batching"), QualitySlot("cuda", "qwen3"), NativeSlot("cuda", "branching")]
  }

  function MetalPlan(): seq<Slot> {
    [NativeSlot("metal", "runtime"), NativeSlot("metal", "service"), QualitySlot("metal", "llama"),
     QualitySlot("metal", "qwen3"), NativeSlot("metal", "branching")]
  }

  function SharedPlan(): seq<Slot> {
    [Common(CUDA, Some("client")), Common(METAL, Some("client")), Common(CUDA, Some("metrics"))]
  }

  lemma CudaFits(swapped: bool, k: nat)
    requires k < 6
    ensures var r := Requirements(swapped)[0]; Fits(OwnRecords(r, r.records)[k], CudaPlan()[k])
  {
    hide Fits, Entry, Quality, Branching, IsRelative;
    ShortNames();
    FixedNames();
    RuntimeFits("a", CUDA);
    ServiceFits("aa", CUDA);
    QualityFits("aaa", "llama", CUDA);
    BatchingFits();
    QualityFits(if swapped then METAL_QUALITY else CUDA_QUALITY, "qwen3", CUDA);
    BranchingFits(if swapped then METAL_BRANCHING else CUDA_BRANCHING, CUDA);
  }

  lemma MetalFits(swapped: bool, k: nat)
    requires k < 5
    ensures var r := Requirements(swapped)[1]; Fits(OwnRecords(r, r.records)[k], MetalPlan()[k])
  {
    hide Fits, Entry, Quality, Branching, IsRelative;
    ShortNames();
    FixedNames();
    RuntimeFits("aaaa", METAL);
    ServiceFits("aaaaa", METAL);
    QualityFits("aaaaaa", "llama", METAL);
    QualityFits(if swapped then CUDA_QUALITY else METAL_QUALITY, "qwen3", METAL);
    BranchingFits(if swapped then CUDA_BRANCHING else METAL_BRANCHING, METAL);
  }

  lemma SharedFits(k: nat)
    requires k < 3
    ensures Fits(SharedRecords(SHARED)[k], SharedPlan()[k])
  {
    hide Fits, Entry, Client, IsRelative;
    ShortNames();
    ClientFits("aaaaaaa", CUDA);
    ClientFits("aaaaaaaa", METAL);
    MetricsFits("aaaaaaaaa");
  }

  function Plan(): (plan: seq<Slot>)
    ensures |plan| == 14
  {
    CudaPlan() + MetalPlan() + SharedPlan()
  }

  lemma EachFits(swapped: bool)
    ensures |Records(swapped)| == 14
    ensures forall k :: 0 <= k < 14 ==> Fits(Records(swapped)[k], Plan()[k])
  {
    hide Fits, OwnRecords, SharedRecords, Cuda, Metal;
    CudaShape(swapped);
    MetalShape(swapped);
    forall k | 0 <= k < 14 ensures Fits(Records(swapped)[k], Plan()[k]) {
      if k < 6 {
        CudaFits(swapped, k);
      } else if k < 11 {
        MetalFits(swapped, k - 6);
      } else {
        SharedFits(k - 11);
      }
    }
  }

  lemma AllFit(swapped: bool)
    ensures EachAllowed(Records(swapped), false) && NativeIdentities(Records(swapped))
    ensures forall k :: 0 <= k < 14 ==>
              QualityCompared(Records(swapped)[k]) && Records(swapped)[k].declared.binary == None
  {
    hide Records, RecordAllowed, QualityCompared, SlotOf, Plan;
    EachFits(swapped);
    var records := Records(swapped);
    forall k | 0 <= k < 14
      ensures RecordAllowed(records[k], false) && QualityCompared(records[k]) && records[k].declared.binary == None
      ensures records[k].identity in {CUDA, METAL}
    {
      assert Fits(records[k], Plan()[k]);
    }
  }

  lemma CudaAllowed(swapped: bool, k: nat)
    requires k < 6
    ensures |Cuda(swapped)| == 6 && DeclaredAllowed(Cuda(swapped)[k])
  {
    hide DeclaredAllowed, RecordAllowed, QualityCompared, SlotOf, Cuda, Metal;
    CudaShape(swapped);
    CudaFits(swapped, k);
  }

  lemma MetalAllowed(swapped: bool, k: nat)
    requires k < 5
    ensures |Metal(swapped)| == 5 && DeclaredAllowed(Metal(swapped)[k])
  {
    hide DeclaredAllowed, RecordAllowed, QualityCompared, SlotOf, Cuda, Metal;
    MetalShape(swapped);
    MetalFits(swapped, k);
  }

  lemma SharedsAllowed(k: nat)
    requires k < 3
    ensures |SHARED| == 3 && SharedAllowed(SHARED[k].0, SHARED[k].1)
  {
    hide DeclaredAllowed, RecordAllowed, QualityCompared, SlotOf, Client, Entry;
    SharedFits(k);
    assert SharedRecords(SHARED)[k].declared == SHARED[k].1;
  }

  lemma Entries(swapped: bool)
    ensures EntriesAllowed(Example(swapped))
  {
    hide Records, Cuda, Metal, SharedAllowed, DeclaredAllowed, Client, Entry;
    CudaShape(swapped);
    MetalShape(swapped);
    var r := Requirements(swapped);
    assert Ids(r) == BACKEND_IDS by {
      assert r[0].id in Ids(r) && r[1].id in Ids(r);
    }
    assert IdentityOf(r[0]) == CUDA && IdentityOf(r[1]) == METAL;
    forall k | 0 <= k < 6 ensures DeclaredAllowed(Cuda(swapped)[k]) {
      CudaAllowed(swapped, k);
    }
    forall k | 0 <= k < 5 ensures DeclaredAllowed(Metal(swapped)[k]) {
      MetalAllowed(swapped, k);
    }
    forall k | 0 <= k < 3 ensures SharedAllowed(SHARED[k].0, SHARED[k].1) {
      SharedsAllowed(k);
    }
    SharedsApart();
  }

  lemma SharedsApart()
    ensures DistinctShared(SHARED)
  {
    SharedLengths();
  }

  lemma PathAllowed(swapped: bool, k: nat)
    requires k < 14
    ensures |Records(swapped)| == 14 && IsRelative(Records(swapped)[k].declared.path)
  {
    hide Records, RecordAllowed, QualityCompared, SlotOf, Plan, IsRelative;
    EachFits(swapped);
    assert Fits(Records(swapped)[k], Plan()[k]);
  }

  lemma Listed(swapped: bool)
    ensures FilesListed(Example(swapped).destinations)
  {
    hide Records, IsRelative, Requirements;
    var records, names := Records(swapped), Example(swapped).destinations;
    PathLengths(swapped);
    ShortNames();
    forall k | 0 <= k < |names| ensures IsRelative(names[k]) {
      if k < 14 {
        PathAllowed(swapped, k);
      }
    }
    forall i, j | 0 <= i < j < |names| ensures names[i] != names[j] {
      if j < 14 {
        DistinctLengths(swapped, i, j);
      } else {
        NoLengthIs21(swapped, i);
        assert |names[14]| == 21;
      }
    }
  }

  lemma NoLengthIs21(swapped: bool, i: nat)
    requires i < 14
    ensures Lengths(swapped)[i] != 21
  {
  }

  // ---------- The slots ----------

  /** A list that follows a plan, slot by slot, fills the plan's slots. */
  lemma {:induction false} PlanFilled(records: seq<Record>, plan: seq<Slot>)
    requires |records| == |plan| && forall k :: 0 <= k < |plan| ==> SlotOf(records[k]) == plan[k]
    ensures SlotsOf(records) == multiset(plan)
  {
    if records != [] {
      PlanFilled(records[1..], plan[1..]);
      assert plan == [plan[0]] + plan[1..];
    }
  }

  lemma CudaPlanIsBackend()
    ensures multiset(CudaPlan()) == BackendSlots("cuda")
  {
  }

  lemma MetalPlanIsBackend()
    ensures multiset(MetalPlan()) == BackendSlots("metal")
  {
  }

  lemma SharedPlanIsCommon()
    ensures multiset(SharedPlan()) == CommonSlots()
  {
  }

  lemma PlanIsRelease()
    ensures multiset(Plan()) == ReleaseSlots()
  {
    hide CudaPlan, MetalPlan, SharedPlan, BackendSlots, CommonSlots;
    CudaPlanIsBackend();
    MetalPlanIsBackend();
    SharedPlanIsCommon();
  }

  lemma CountedExample(swapped: bool)
    ensures Counted(Records(swapped))
  {
    hide Records, SlotsOf, Counted, Plan, RecordAllowed, QualityCompared, SlotOf, ReleaseSlots;
    var records := Records(swapped);
    EachFits(swapped);
    AllFit(swapped);
    forall k | 0 <= k < 14 ensures SlotOf(records[k]) == Plan()[k] {
      assert Fits(records[k], Plan()[k]);
    }
    PlanFilled(records, Plan());
    PlanIsRelease();
    CountedIsPopulation(records);
  }

  // ---------- The links ----------

  /** At distinct paths, each record is found at its own. */
  lemma {:induction false} FoundByPath(records: seq<Record>, j: nat)
    requires DistinctPaths(records) && j < |records|
    ensures records[j].declared.path in ByPath(records) && ByPath(records)[records[j].declared.path] == records[j]
  {
    var last := |records| - 1;
    if j < last {
      FoundByPath(records[..last], j);
    }
  }

  lemma {:induction false} NoBinaries(records: seq<Record>)
    requires forall k :: 0 <= k < |records| ==> records[k].declared.binary == None
    ensures forall backend :: backend in ClientBinaries(records) ==> ClientBinaries(records)[backend] == None
  {
    if records != [] {
      NoBinaries(records[..|records| - 1]);
    }
  }

  lemma RecordsAt(swapped: bool)
    ensures var records := Records(swapped);
            && |records| == 14
            && records[4]
               == Record(false, CUDA, Quality(if swapped then METAL_QUALITY else CUDA_QUALITY, "qwen3", "cuda"))
            && records[5] == Record(false, CUDA, Branching(if swapped then METAL_BRANCHING else CUDA_BRANCHING))
            && records[9]
               == Record(false, METAL, Quality(if swapped then CUDA_QUALITY else METAL_QUALITY, "qwen3", "metal"))
            && records[10] == Record(false, METAL, Branching(if swapped then CUDA_BRANCHING else METAL_BRANCHING))
  {
    hide Entry, Quality, Branching, Client;
  }

  lemma PairLinked(identity: Identity, path: string, quality: string)
    requires identity in {CUDA, METAL}
    requires (path, quality) in {(CUDA_BRANCHING, CUDA_QUALITY), (METAL_BRANCHING, METAL_QUALITY)}
    ensures var (b, q) := (Branching(path), Quality(quality, "qwen3", identity.backend.value));
            && b.quality == Some(q.path) && b.path == path && q.path == quality
            && b.family == q.family && b.model == q.model && IsComparison(Record(false, identity, q))
  {
    FixedLengths();
  }

  lemma Chosen(swapped: bool)
    ensures var records := Records(swapped);
            && |records| == 14
            && records[5].declared.quality == Some(records[4].declared.path)
            && records[10].declared.quality == Some(records[9].declared.path)
            && records[4].Backend() == records[5].Backend() == Some("cuda")
            && records[9].Backend() == records[10].Backend() == Some("metal")
            && IsComparison(records[4]) && IsComparison(records[9])
            && records[4].declared.family == records[5].declared.family
            && records[4].declared.model == records[5].declared.model
            && records[9].declared.family == records[10].declared.family
            && records[9].declared.model == records[10].declared.model
            && records[5].declared.path == if swapped then METAL_BRANCHING else CUDA_BRANCHING
  {
    hide Records, Quality, Branching, IsComparison;
    RecordsAt(swapped);
    if swapped {
      PairLinked(CUDA, METAL_BRANCHING, METAL_QUALITY);
      PairLinked(METAL, CUDA_BRANCHING, CUDA_QUALITY);
    } else {
      PairLinked(CUDA, CUDA_BRANCHING, CUDA_QUALITY);
      PairLinked(METAL, METAL_BRANCHING, METAL_QUALITY);
    }
  }

  lemma OnlyTwoBranching(swapped: bool, k: nat)
    requires k < 14 && k != 5 && k != 10
    ensures |Records(swapped)| == 14 && Records(swapped)[k].Role() != Some("branching")
  {
    hide Records, RecordAllowed, QualityCompared, Plan;
    EachFits(swapped);
    assert Fits(Records(swapped)[k], Plan()[k]);
    PlanAt(k);
  }

  lemma PlanAt(k: nat)
    requires k < 14
    ensures k != 5 && k != 10 ==> Plan()[k].role != Some("branching")
  {
  }

  lemma Links(swapped: bool)
    ensures EachLinked(Records(swapped))
  {
    hide Records, ByPath, ClientBinaries, QualityCompared, Requirements, BinaryMatches, EachAllowed, Lengths,
      NativeIdentities;
    var records := Records(swapped);
    Files(swapped);
    PathLengths(swapped);
    AllFit(swapped);
    NoBinaries(records);
    Chosen(swapped);
    FoundByPath(records, 4);
    FoundByPath(records, 9);
    forall k | 0 <= k < |records|
      ensures QualityCompared(records[k])
      ensures BinaryMatches(records[k], ClientBinaries(records)) && QualityLinked(records[k], ByPath(records))
    {
      if k != 5 && k != 10 {
        OnlyTwoBranching(swapped, k);
        NotBranching(records[k], ClientBinaries(records), ByPath(records));
      } else {
        NoneMatches(records[k], ClientBinaries(records));
      }
    }
  }

  lemma NotBranching(record: Record, clients: map<Option<string>, Option<string>>, byPath: map<string, Record>)
    requires record.Role() != Some("branching")
    ensures BinaryMatches(record, clients) && QualityLinked(record, byPath)
  {
  }

  lemma NoneMatches(record: Record, clients: map<Option<string>, Option<string>>)
    requires record.declared.binary == None && forall backend :: backend in clients ==> clients[backend] == None
    ensures BinaryMatches(record, clients)
  {
  }

  lemma Binaries(swapped: bool)
    ensures CudaBinaries(Records(swapped), "batching") == CudaBinaries(Records(swapped), "client")
  {
    hide Records, QualityCompared, EachAllowed, NativeIdentities;
    var records := Records(swapped);
    PathLengths(swapped);
    AllFit(swapped);
    CudaPair(swapped);
    assert records[3].declared.binary in CudaBinaries(records, "batching");
    assert records[11].declared.binary in CudaBinaries(records, "client");
    assert CudaBinaries(records, "batching") == {None};
    assert CudaBinaries(records, "client") == {None};
  }

  lemma CudaPair(swapped: bool)
    ensures var records := Records(swapped);
            && |records| == 14
            && records[3].Role() == Some("batching") && records[3].identity == CUDA
            && records[11].Role() == Some("client") && records[11].identity == CUDA
  {
    hide Quality, Branching;
  }

  /**
   Both versions are accepted: the census does not force the branching record of a backend to the path named after that
   backend.
   */
  lemma ExampleAccepted(swapped: bool)
    ensures Accepted(Example(swapped))
    ensures AllRecords(Example(swapped))[5].Backend() == Some("cuda")
    ensures AllRecords(Example(swapped))[5].declared.path == if swapped then METAL_BRANCHING else CUDA_BRANCHING
  {
    hide EntriesAllowed, FilesListed, FilesCover, EachAllowed, Counted, EachLinked, AllRecords, CudaBinaries;
    ExampleRecords(swapped);
    Entries(swapped);
    Listed(swapped);
    Files(swapped);
    AllFit(swapped);
    CountedExample(swapped);
    Links(swapped);
    Binaries(swapped);
    Chosen(swapped);
  }
}
