/**
 * Conversions between the server's job descriptions and their management
 * API messages (generated_types/src/job.rs), and the reading of a
 * long-running operation into the server's view of it.
 *
 * Protobuf decoding, the comparison of type URLs and the parsing of the
 * operation name are not part of this model: they are the parameters of
 * `OperationCodec`.
 */
module JobConversion {
  import opened Wrappers

  /** `data_types::job::Job`. */
  datatype Job =
    | Dummy(nanos: seq<nat>)
    | CloseChunk(dbName: string, partitionKey: string, tableName: string, chunkId: nat)
    | WriteChunk(dbName: string, partitionKey: string, tableName: string, chunkId: nat)
    | WipePreservedCatalog(dbName: string)

  /** The management messages, one per job kind. */
  datatype DummyMsg = DummyMsg(nanos: seq<nat>)
  datatype CloseChunkMsg = CloseChunkMsg(dbName: string, partitionKey: string, tableName: string, chunkId: nat)
  datatype WriteChunkMsg = WriteChunkMsg(dbName: string, partitionKey: string, tableName: string, chunkId: nat)
  datatype WipePreservedCatalogMsg = WipePreservedCatalogMsg(dbName: string)

  /** `management::operation_metadata::Job`. */
  datatype ManagementJob =
    | MDummy(dummy: DummyMsg)
    | MCloseChunk(closeChunk: CloseChunkMsg)
    | MWriteChunk(writeChunk: WriteChunkMsg)
    | MWipePreservedCatalog(wipe: WipePreservedCatalogMsg)

  /** `From<Job> for management Job`: each job becomes the message of its kind, every field copied. */
  function ToManagement(job: Job): (m: ManagementJob)
    ensures job.Dummy? <==> m.MDummy?
    ensures job.CloseChunk? <==> m.MCloseChunk?
    ensures job.WriteChunk? <==> m.MWriteChunk?
    ensures job.WipePreservedCatalog? <==> m.MWipePreservedCatalog?
  {
    match job
    case Dummy(nanos) => MDummy(DummyMsg(nanos))
    case CloseChunk(db, partition, table, id) => MCloseChunk(CloseChunkMsg(db, partition, table, id))
    case WriteChunk(db, partition, table, id) => MWriteChunk(WriteChunkMsg(db, partition, table, id))
    case WipePreservedCatalog(db) => MWipePreservedCatalog(WipePreservedCatalogMsg(db))
  }

  /** `From<management Job> for Job`: each message becomes the job of its kind, every field copied. */
  function FromManagement(m: ManagementJob): (job: Job)
    ensures job.Dummy? <==> m.MDummy?
    ensures job.CloseChunk? <==> m.MCloseChunk?
    ensures job.WriteChunk? <==> m.MWriteChunk?
    ensures job.WipePreservedCatalog? <==> m.MWipePreservedCatalog?
  {
    match m
    case MDummy(DummyMsg(nanos)) => Dummy(nanos)
    case MCloseChunk(CloseChunkMsg(db, partition, table, id)) => CloseChunk(db, partition, table, id)
    case MWriteChunk(WriteChunkMsg(db, partition, table, id)) => WriteChunk(db, partition, table, id)
    case MWipePreservedCatalog(WipePreservedCatalogMsg(db)) => WipePreservedCatalog(db)
  }

  /** A job survives the trip through its management message. */
  lemma JobRoundTrip(job: Job)
    ensures FromManagement(ToManagement(job)) == job
  {
  }

  /** A management message survives the trip through the job it describes. */
  lemma ManagementRoundTrip(m: ManagementJob)
    ensures ToManagement(FromManagement(m)) == m
  {
  }

  /** The two conversions are one-to-one. */
  lemma ToManagementInjective(a: Job, b: Job)
    requires ToManagement(a) == ToManagement(b)
    ensures a == b
  {
    JobRoundTrip(a);
    JobRoundTrip(b);
  }

  /** `google.protobuf.Any`. */
  datatype Any = Any(typeUrl: string, value: seq<bv8>)

  /** `google.rpc.Status`, reduced to its code. */
  datatype Status = Status(code: int, message: string)

  datatype OperationResult = Response(response: Any) | Error(status: Status)

  /** `google.longrunning.Operation`. */
  datatype Operation = Operation(name: string, metadata: Option<Any>, result: Option<OperationResult>)

  /** `management::OperationMetadata`. */
  datatype OperationMetadata = OperationMetadata(
    taskCount: nat, pendingCount: nat, wallNanos: nat, cpuNanos: nat, job: Option<ManagementJob>)

  datatype OperationStatus = Running | Complete | Cancelled | Errored

  /** `data_types::job::Operation`, with its durations in nanoseconds. */
  datatype JobOperation = JobOperation(
    id: nat, taskCount: nat, pendingCount: nat, wallNanos: nat, cpuNanos: nat, job: Option<Job>, status: OperationStatus)

  /** Why a field of the operation could not be read. */
  datatype Violation = Required | UnexpectedType | Invalid(reason: string)

  datatype FieldViolation = FieldViolation(field: string, violation: Violation)

  /** The gRPC status code `CANCELLED`. */
  const CancelledCode := 1

  /** The foreign operations a conversion needs. */
  datatype OperationCodec = OperationCodec(
    isMetadataTypeUrl: string -> bool,
    decodeMetadata: seq<bv8> -> Result<OperationMetadata, string>,
    parseId: string -> Result<nat, string>)

  /**
   * The status of an operation: running while it has no result, complete
   * with a response, cancelled or errored by the code of its error.
   */
  function StatusOf(result: Option<OperationResult>): (s: OperationStatus)
    ensures s == Running <==> result.None?
    ensures s == Complete <==> result.Some? && result.value.Response?
    ensures s == Cancelled <==> result.Some? && result.value.Error? && result.value.status.code == CancelledCode
    ensures s == Errored <==> result.Some? && result.value.Error? && result.value.status.code != CancelledCode
  {
    match result
    case None => Running
    case Some(Response(_)) => Complete
    case Some(Error(status)) => if status.code == CancelledCode then Cancelled else Errored
  }

  /**
   * `TryFrom<longrunning::Operation>`: the metadata must be present and of
   * the operation-metadata type and must decode, and the name must parse
   * as an id; the counts, times and job are then copied from the metadata.
   */
  function TryFromOperation(codec: OperationCodec, op: Operation): (r: Result<JobOperation, FieldViolation>)
    ensures op.metadata.None? ==> r == Err(FieldViolation("metadata", Required))
    ensures op.metadata.Some? && !codec.isMetadataTypeUrl(op.metadata.value.typeUrl) ==>
              r == Err(FieldViolation("metadata.type_url", UnexpectedType))
    ensures r.Ok? <==> && op.metadata.Some? && codec.isMetadataTypeUrl(op.metadata.value.typeUrl)
                       && codec.decodeMetadata(op.metadata.value.value).Ok?
                       && codec.parseId(op.name).Ok?
    ensures r.Ok? ==> var meta := codec.decodeMetadata(op.metadata.value.value).value;
                      && r.value.id == codec.parseId(op.name).value
                      && r.value.taskCount == meta.taskCount && r.value.pendingCount == meta.pendingCount
                      && r.value.wallNanos == meta.wallNanos && r.value.cpuNanos == meta.cpuNanos
                      && (r.value.job.Some? <==> meta.job.Some?)
                      && (meta.job.Some? ==> ToManagement(r.value.job.value) == meta.job.value)
                      && r.value.status == StatusOf(op.result)
    ensures op.metadata.Some? && codec.isMetadataTypeUrl(op.metadata.value.typeUrl) &&
            codec.decodeMetadata(op.metadata.value.value).Err? ==>
              r == Err(FieldViolation("metadata.value", Invalid(codec.decodeMetadata(op.metadata.value.value).error)))
    ensures op.metadata.Some? && codec.isMetadataTypeUrl(op.metadata.value.typeUrl) &&
            codec.decodeMetadata(op.metadata.value.value).Ok? && codec.parseId(op.name).Err? ==>
              r == Err(FieldViolation("name", Invalid(codec.parseId(op.name).error)))
    ensures r.Err? ==> r.error.field in {"metadata", "metadata.type_url", "metadata.value", "name"}
  {
    if op.metadata.None? then Err(FieldViolation("metadata", Required))
    else if !codec.isMetadataTypeUrl(op.metadata.value.typeUrl) then Err(FieldViolation("metadata.type_url", UnexpectedType))
    else match codec.decodeMetadata(op.metadata.value.value)
      case Err(e) => Err(FieldViolation("metadata.value", Invalid(e)))
      case Ok(meta) =>
        var status := StatusOf(op.result);
        match codec.parseId(op.name)
        case Err(e) => Err(FieldViolation("name", Invalid(e)))
        case Ok(id) =>
          var job := if meta.job.Some? then Some(FromManagement(meta.job.value)) else None;
          Ok(JobOperation(id, meta.taskCount, meta.pendingCount, meta.wallNanos, meta.cpuNanos, job, status))
  }
}
