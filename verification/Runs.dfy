// The rows of the queue and the decoders that turn a claimed row into a worker's token.
module Runs {
  import opened Prelude
  import opened Retry

  // UUIDs, with the total order the database sorts them by.
  type RunId = nat
  type MemoryId = nat
  type WorkerId = string

  datatype Json =
    | JNull
    | JBool(b: bool)
    | JInt(n: int)
    | JFloat(f: real)
    | JStr(s: string)
    | JArr(items: seq<Json>)
    | JObj(fields: Fields)

  // Object keys: the names the code looks up, and any other.
  datatype Name =
    | MaxIters | MaxLlmCalls | MaxOutputChars | TimeoutS
    | RootModel | SubModel | EmbeddingModel | EmbeddingDim
    | RunIdName | SourceMemoryIds
    | OtherName(text: string)

  type Fields = map<Name, Json>

  // The error codes written to rows.
  datatype ErrorCode =
    | InvalidPersistedConfiguration
    | WorkerHeartbeatExpired
    | RunTimeout
    | ExecutionFailed
    | EmbeddingConfigurationMismatch
    | SummaryDeliveryFailed
    | OtherError(text: string)

  // The columns of rlm_runs that enqueue writes.
  datatype RunSpec = RunSpec(
    tenant: string, subject: string, namespace: string, task: string, context: string,
    limits: Json, modelConfig: Json, includeTrajectory: bool, maxAttempts: int)

  // What a successful execution hands to the store: result, usage, memory_snapshot and trajectory.
  datatype Outcome = Outcome(
    answer: string, evidence: seq<string>, usage: Json, recalled: seq<MemoryId>, trajectory: Option<Json>)

  datatype Row = Row(
    spec: RunSpec, status: RunStatus, attempts: int,
    createdAt: int, availableAt: int, updatedAt: int,
    startedAt: Option<int>, completedAt: Option<int>,
    workerId: Option<WorkerId>, heartbeatAt: Option<int>,
    error: Option<ErrorCode>, outcome: Option<Outcome>)

  // A row of rlm_summary_outbox; its run_id is the key of the table.
  datatype Item = Item(
    tenant: string, subject: string, namespace: string,
    embeddingModel: string, embeddingDim: int, content: string, metadata: Json,
    attempts: int, createdAt: int, availableAt: int, updatedAt: int,
    claimedBy: Option<WorkerId>, claimedAt: Option<int>,
    completedAt: Option<int>, lastError: Option<ErrorCode>)

  datatype ClaimedRun = ClaimedRun(
    id: RunId, tenant: string, subject: string, namespace: string, task: string, context: string,
    limits: map<Name, int>, modelConfig: Fields, includeTrajectory: bool,
    attempts: int, maxAttempts: int, workerId: WorkerId)

  datatype SummaryItem = SummaryItem(
    runId: RunId, tenant: string, subject: string, namespace: string,
    embeddingModel: string, embeddingDim: int, content: string, metadata: Json,
    attempts: int, workerId: WorkerId)

  const REQUIRED_LIMIT_KEYS := {MaxIters, MaxLlmCalls, MaxOutputChars, TimeoutS}

  // The characters str.strip removes.
  predicate IsSpace(c: char) {
    var n := c as int;
    9 <= n <= 13 || 28 <= n <= 32 || n == 0x85 || n == 0xA0 || n == 0x1680 || 0x2000 <= n <= 0x200A
    || n == 0x2028 || n == 0x2029 || n == 0x202F || n == 0x205F || n == 0x3000
  }

  lemma WhiteSpace(c: char)
    ensures IsSpace(c) <==>
            c as int in {9, 10, 11, 12, 13, 28, 29, 30, 31, 32, 0x85, 0xA0, 0x1680, 0x2000, 0x2001, 0x2002, 0x2003,
                         0x2004, 0x2005, 0x2006, 0x2007, 0x2008, 0x2009, 0x200A, 0x2028, 0x2029, 0x202F, 0x205F, 0x3000}
  {
  }

  predicate IsBlank(s: string) {
    forall i :: 0 <= i < |s| ==> IsSpace(s[i])
  }

  function RequiredText(value: Json): Result<string, Problem> {
    if value.JStr? && !IsBlank(value.s) then Ok(value.s) else Err(EmptyText)
  }

  function IntFields(value: Json): Result<map<Name, int>, Problem> {
    if !value.JObj? then Err(NotAnObject)
    else if exists k :: k in value.fields && !value.fields[k].JInt? then Err(NotIntegers)
    else Ok(map k | k in value.fields :: value.fields[k].n)
  }

  function ModelFields(value: Json): Result<Fields, Problem> {
    if !value.JObj? then Err(NotAnObject)
    else if exists k :: k in value.fields && !value.fields[k].JInt? && !value.fields[k].JStr?
      then Err(InvalidModelValues)
    else Ok(value.fields)
  }

  predicate LimitsOk(limits: map<Name, int>) {
    && REQUIRED_LIMIT_KEYS <= limits.Keys
    && limits[MaxIters] > 0
    && limits[MaxLlmCalls] >= 0
    && limits[MaxOutputChars] > 0
    && limits[TimeoutS] > 0
  }

  function Lookup(fields: Fields, key: Name): Json {
    if key in fields then fields[key] else JNull
  }

  predicate ModelOk(config: Fields) {
    && RequiredText(Lookup(config, RootModel)).Ok?
    && RequiredText(Lookup(config, SubModel)).Ok?
    && RequiredText(Lookup(config, EmbeddingModel)).Ok?
    && Lookup(config, EmbeddingDim).JInt?
    && Lookup(config, EmbeddingDim).n > 0
  }

  function DecodeClaimedRun(id: RunId, row: Row, workerId: WorkerId): Result<ClaimedRun, Problem> {
    var spec := row.spec;
    match IntFields(spec.limits)
    case Err(e) => Err(e)
    case Ok(limits) =>
      if !LimitsOk(limits) then Err(InvalidLimits) else
      match ModelFields(spec.modelConfig)
      case Err(e) => Err(e)
      case Ok(config) =>
        if !ModelOk(config) then Err(InvalidModel)
        else if row.attempts < 1 || spec.maxAttempts < 1 || row.attempts > spec.maxAttempts then
          Err(InvalidCounters)
        else if IsBlank(spec.tenant) || IsBlank(spec.subject) || IsBlank(spec.namespace) || IsBlank(spec.task)
                || IsBlank(spec.context) || IsBlank(workerId) then
          Err(EmptyText)
        else
          Ok(ClaimedRun(id, spec.tenant, spec.subject, spec.namespace, spec.task, spec.context,
                        limits, config, spec.includeTrajectory, row.attempts, spec.maxAttempts, workerId))
  }

  function DecodeSummaryItem(runId: RunId, item: Item, workerId: WorkerId): Result<SummaryItem, Problem> {
    if IsBlank(item.tenant) || IsBlank(item.subject) || IsBlank(item.namespace)
       || IsBlank(item.embeddingModel) || IsBlank(item.content) then
      Err(EmptyText)
    else if !item.metadata.JObj? then Err(NotAnObject)
    else Ok(SummaryItem(runId, item.tenant, item.subject, item.namespace, item.embeddingModel,
                        item.embeddingDim, item.content, item.metadata, item.attempts, workerId))
  }

  // A vector space: the model that embeds a text and the dimension of its vectors.
  datatype Space = Space(model: string, dim: int)

  // What the columns of the outbox accept as a vector space.
  predicate SpaceOk(config: Fields) {
    Lookup(config, EmbeddingModel).JStr? && Lookup(config, EmbeddingDim).JInt? && Lookup(config, EmbeddingDim).n > 0
  }

  function SpaceOf(config: Fields): Space
    requires SpaceOk(config)
  {
    Space(config[EmbeddingModel].s, config[EmbeddingDim].n)
  }

  // The checks of _execute_claim and _deliver_summary before they touch the memory store.
  predicate Compatible(config: Fields, space: Space) {
    Lookup(config, EmbeddingModel) == JStr(space.model) && Lookup(config, EmbeddingDim) == JInt(space.dim)
  }

  lemma CompatibleIsSameSpace(config: Fields, space: Space)
    requires ModelOk(config)
    ensures Compatible(config, space) <==> SpaceOf(config) == space
  {
    assert Lookup(config, EmbeddingModel).JStr?;
  }

  predicate PositiveAt(fields: Fields, key: Name) {
    key in fields && fields[key].JInt? && fields[key].n > 0
  }

  predicate Visible(text: string) {
    exists i :: 0 <= i < |text| && !IsSpace(text[i])
  }

  predicate VisibleAt(fields: Fields, key: Name) {
    key in fields && fields[key].JStr? && Visible(fields[key].s)
  }

  lemma LimitsDecodeIff(limits: Json)
    ensures (IntFields(limits).Ok? && LimitsOk(IntFields(limits).value)) <==>
            && limits.JObj? && (forall k :: k in limits.fields ==> limits.fields[k].JInt?)
            && PositiveAt(limits.fields, MaxIters) && PositiveAt(limits.fields, MaxOutputChars)
            && PositiveAt(limits.fields, TimeoutS) && MaxLlmCalls in limits.fields && limits.fields[MaxLlmCalls].n >= 0
  {
  }

  lemma ModelDecodesIff(config: Json)
    ensures (ModelFields(config).Ok? && ModelOk(ModelFields(config).value)) <==>
            && config.JObj? && (forall k :: k in config.fields ==> config.fields[k].JInt? || config.fields[k].JStr?)
            && VisibleAt(config.fields, RootModel) && VisibleAt(config.fields, SubModel)
            && VisibleAt(config.fields, EmbeddingModel) && PositiveAt(config.fields, EmbeddingDim)
  {
  }

  // A claimed row decodes exactly if its limits are whole numbers in range, its models are named, its
  // dimension is positive, its counters make sense and each of its texts shows something; the token then
  // repeats its columns.
  lemma RunDecodesIff(id: RunId, row: Row, workerId: WorkerId)
    ensures var limits, config, spec := row.spec.limits, row.spec.modelConfig, row.spec;
            DecodeClaimedRun(id, row, workerId).Ok? <==>
            && limits.JObj? && (forall k :: k in limits.fields ==> limits.fields[k].JInt?)
            && PositiveAt(limits.fields, MaxIters) && PositiveAt(limits.fields, MaxOutputChars)
            && PositiveAt(limits.fields, TimeoutS) && MaxLlmCalls in limits.fields && limits.fields[MaxLlmCalls].n >= 0
            && config.JObj? && (forall k :: k in config.fields ==> config.fields[k].JInt? || config.fields[k].JStr?)
            && VisibleAt(config.fields, RootModel) && VisibleAt(config.fields, SubModel)
            && VisibleAt(config.fields, EmbeddingModel) && PositiveAt(config.fields, EmbeddingDim)
            && 1 <= row.attempts <= spec.maxAttempts
            && Visible(spec.tenant) && Visible(spec.subject) && Visible(spec.namespace) && Visible(spec.task)
            && Visible(spec.context) && Visible(workerId)
    ensures DecodeClaimedRun(id, row, workerId).Ok? ==>
              var run := DecodeClaimedRun(id, row, workerId).value;
              && run.id == id && run.workerId == workerId && JObj(run.modelConfig) == row.spec.modelConfig
              && (run.tenant, run.subject, run.namespace) == (row.spec.tenant, row.spec.subject, row.spec.namespace)
              && (run.task, run.context) == (row.spec.task, row.spec.context)
              && (run.attempts, run.maxAttempts) == (row.attempts, row.spec.maxAttempts)
              && run.includeTrajectory == row.spec.includeTrajectory && run.limits.Keys == row.spec.limits.fields.Keys
              && forall k :: k in run.limits ==> JInt(run.limits[k]) == row.spec.limits.fields[k]
  {
    LimitsDecodeIff(row.spec.limits);
    ModelDecodesIff(row.spec.modelConfig);
  }

  // The same for a claimed summary.
  lemma SummaryDecodesIff(runId: RunId, item: Item, workerId: WorkerId)
    ensures DecodeSummaryItem(runId, item, workerId).Ok? <==>
            && item.metadata.JObj?
            && Visible(item.tenant) && Visible(item.subject) && Visible(item.namespace) && Visible(item.embeddingModel)
            && Visible(item.content)
    ensures DecodeSummaryItem(runId, item, workerId).Ok? ==>
              var summary := DecodeSummaryItem(runId, item, workerId).value;
              && summary.runId == runId && summary.workerId == workerId && summary.attempts == item.attempts
              && (summary.tenant, summary.subject, summary.namespace) == (item.tenant, item.subject, item.namespace)
              && (summary.embeddingModel, summary.embeddingDim) == (item.embeddingModel, item.embeddingDim)
              && (summary.content, summary.metadata) == (item.content, item.metadata)
  {
  }

  // The limits the API accepts, as Limits and CreateRun bound them.
  datatype Limits = Limits(maxIters: int, maxLlmCalls: int, maxOutputChars: int, timeoutS: int) {
    predicate Valid() {
      1 <= maxIters <= 30 && 0 <= maxLlmCalls <= 80 && 500 <= maxOutputChars <= 20000 && 10 <= timeoutS <= 900
    }

    function ToJson(): Json {
      JObj(map[MaxIters := JInt(maxIters), MaxLlmCalls := JInt(maxLlmCalls),
               MaxOutputChars := JInt(maxOutputChars), TimeoutS := JInt(timeoutS)])
    }

    function ToMap(): map<Name, int> {
      map[MaxIters := maxIters, MaxLlmCalls := maxLlmCalls,
          MaxOutputChars := maxOutputChars, TimeoutS := timeoutS]
    }
  }

  function PublicModelConfig(root: string, sub: string, space: Space): Json {
    JObj(map[RootModel := JStr(root), SubModel := JStr(sub),
             EmbeddingModel := JStr(space.model), EmbeddingDim := JInt(space.dim)])
  }

  lemma AcceptedLimits(limits: Limits)
    requires limits.Valid()
    ensures IntFields(limits.ToJson()) == Ok(limits.ToMap()) && LimitsOk(limits.ToMap())
  {
    var fields := limits.ToJson().fields;
    assert (map k | k in fields :: fields[k].n) == limits.ToMap();
  }

  lemma AcceptedModels(root: string, sub: string, space: Space)
    requires !IsBlank(root) && !IsBlank(sub) && !IsBlank(space.model) && space.dim > 0
    ensures var config := PublicModelConfig(root, sub, space);
            && ModelFields(config) == Ok(config.fields) && ModelOk(config.fields) && SpaceOf(config.fields) == space
            && config.fields[RootModel] == JStr(root) && config.fields[SubModel] == JStr(sub)
  {
  }

  // A run the API accepted survives the decoder exactly when none of its texts is only white space
  // (the API asks for a first character, not for a visible one), and then nothing of it is lost.
  lemma AcceptedRunDecodesIff(id: RunId, row: Row, worker: WorkerId, limits: Limits,
                              root: string, sub: string, space: Space)
    requires limits.Valid() && row.spec.limits == limits.ToJson()
    requires row.spec.modelConfig == PublicModelConfig(root, sub, space)
    requires !IsBlank(root) && !IsBlank(sub) && !IsBlank(space.model) && space.dim > 0 && !IsBlank(worker)
    requires 1 <= row.attempts <= row.spec.maxAttempts
    ensures DecodeClaimedRun(id, row, worker).Ok? <==>
            !IsBlank(row.spec.tenant) && !IsBlank(row.spec.subject) && !IsBlank(row.spec.namespace)
            && !IsBlank(row.spec.task) && !IsBlank(row.spec.context)
    ensures DecodeClaimedRun(id, row, worker).Ok? ==>
              var run := DecodeClaimedRun(id, row, worker).value;
              && run.limits == limits.ToMap()
              && ModelOk(run.modelConfig) && SpaceOf(run.modelConfig) == space
              && run.modelConfig[RootModel] == JStr(root) && run.modelConfig[SubModel] == JStr(sub)
              && (run.task, run.context) == (row.spec.task, row.spec.context)
              && (run.attempts, run.maxAttempts) == (row.attempts, row.spec.maxAttempts)
  {
    AcceptedLimits(limits);
    AcceptedModels(root, sub, space);
  }
}
