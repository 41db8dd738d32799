/**
 * The `aws_sesv2_dedicated_ip_assignment` resource: an SES v2 dedicated IP address placed
 * in a named dedicated-IP pool. The SES v2 API is replaced by the responses it returns,
 * given as inputs; the Terraform `ResourceData` by an immutable record.
 */
module DedicatedIpAssignment {
  import opened Wrappers
  import GoStrings

  /** The AWS-managed pool that receives an IP whose assignment is destroyed. */
  const DefaultDedicatedPoolName: string := "ses-default-dedicated-pool"

  /** Separator between the two parts of the resource ID. */
  const IdSeparator: char := ','

  // ---------------------------------------------------------------------------
  // Composite resource ID "ip,pool"
  // ---------------------------------------------------------------------------

  /**
   * The resource ID for `ip` assigned to `destinationPoolName`: it holds one more
   * separator than the two parts together, so exactly one when they hold none.
   */
  function ToId(ip: string, destinationPoolName: string): (id: string)
    ensures GoStrings.Count(id, IdSeparator) ==
              GoStrings.Count(ip, IdSeparator) + 1 + GoStrings.Count(destinationPoolName, IdSeparator)
  {
    GoStrings.CountConcat(ip + [IdSeparator], destinationPoolName, IdSeparator);
    GoStrings.CountConcat(ip, [IdSeparator], IdSeparator);
    ip + [IdSeparator] + destinationPoolName
  }

  /**
   * Splits an ID into `(ip, pool)`. An ID that does not split into exactly two
   * parts, i.e. that holds no separator or several, gives `("", "")`.
   */
  function SplitId(id: string): (parts: (string, string))
    ensures GoStrings.Count(id, IdSeparator) == 1 ==>
              && IdSeparator !in parts.0 && IdSeparator !in parts.1
              && ToId(parts.0, parts.1) == id
    ensures GoStrings.Count(id, IdSeparator) != 1 ==> parts == ("", "")
  {
    var items := GoStrings.Split(id, IdSeparator);
    GoStrings.JoinSplit(id, IdSeparator);
    if |items| == 2 then
      assert GoStrings.Join(items, IdSeparator) == items[0] + [IdSeparator] + items[1];
      (items[0], items[1])
    else ("", "")
  }

  /** Joining then splitting gives back both parts, provided neither holds the separator. */
  lemma SplitIdToId(ip: string, destinationPoolName: string)
    requires IdSeparator !in ip && IdSeparator !in destinationPoolName
    ensures SplitId(ToId(ip, destinationPoolName)) == (ip, destinationPoolName)
  {
    GoStrings.SplitAtFirstSeparator(ip, IdSeparator, destinationPoolName);
    GoStrings.SplitWithoutSeparator(destinationPoolName, IdSeparator);
  }

  /**
   * `SplitId` gives the empty pair exactly when the ID has no separator or several,
   * or is the separator alone (which splits into two empty parts).
   */
  lemma SplitIdEmptyExactly(id: string)
    ensures SplitId(id) == ("", "") <==> GoStrings.Count(id, IdSeparator) != 1 || id == [IdSeparator]
  {
  }

  // ---------------------------------------------------------------------------
  // The SES v2 API as data
  // ---------------------------------------------------------------------------

  /** An error the SES v2 API returns; only `NotFoundException` is told apart by the resource. */
  datatype ApiError = NotFoundException(message: string) | OtherApiError(code: string, message: string)

  /** `types.DedicatedIp`, reduced to the fields the resource reads; each is a pointer that may be nil. */
  datatype DedicatedIp = DedicatedIp(ip: Option<string>, poolName: Option<string>)

  /** `GetDedicatedIpInput`. */
  datatype GetDedicatedIpInput = GetDedicatedIpInput(ip: string)

  /** `GetDedicatedIpOutput`. */
  datatype GetDedicatedIpOutput = GetDedicatedIpOutput(dedicatedIp: Option<DedicatedIp>)

  /** What one `GetDedicatedIp` call returned: an error, or an output pointer that may be nil. */
  datatype GetDedicatedIpResponse = GetFailed(err: ApiError) | GetReturned(output: Option<GetDedicatedIpOutput>)

  /** `PutDedicatedIpInPoolInput`. */
  datatype PutDedicatedIpInPoolInput = PutDedicatedIpInPoolInput(ip: string, destinationPoolName: string)

  /** What one `PutDedicatedIpInPool` call returned. */
  datatype PutResponse = PutOk | PutFailed(err: ApiError)

  // ---------------------------------------------------------------------------
  // Lookup
  // ---------------------------------------------------------------------------

  /**
   * Why a lookup found nothing. `EmptyResult` stands for the error built by
   * `tfresource.NewEmptyResultError`, which this model takes to be a not-found error.
   */
  datatype NotFoundCause = ApiNotFound(apiError: ApiError) | EmptyResult | IncorrectPoolAssignment

  /** The error of a lookup: a `resource.NotFoundError`, or an API error passed through. */
  datatype LookupError =
    | NotFoundError(lastError: NotFoundCause, lastRequest: GetDedicatedIpInput)
    | ApiFailure(err: ApiError)

  /** `tfresource.NotFound`: the error is a not-found error. */
  predicate IsNotFound(e: LookupError)
  {
    e.NotFoundError?
  }

  /** The request a lookup of `id` sends: the IP part of the ID. */
  function LookupRequest(id: string): GetDedicatedIpInput
  {
    GetDedicatedIpInput(SplitId(id).0)
  }

  /**
   * `FindDedicatedIPAssignmentByID`: classifies the API's answer to `LookupRequest(id)`.
   * A record is found only when it sits in the pool named by the ID; any other pool,
   * or none, reads as not found, which is how drift is detected.
   */
  function FindDedicatedIpAssignmentById(id: string, response: GetDedicatedIpResponse): (r: Result<DedicatedIp, LookupError>)
    // A NotFoundException becomes a not-found error carrying it.
    ensures response.GetFailed? && response.err.NotFoundException? ==>
              r == Failure(NotFoundError(ApiNotFound(response.err), LookupRequest(id)))
    // Every other API error is returned unchanged.
    ensures response.GetFailed? && !response.err.NotFoundException? ==>
              r == Failure(ApiFailure(response.err))
    // A nil output or a nil record is an empty result.
    ensures response.GetReturned? && (response.output.None? || response.output.value.dedicatedIp.None?) ==>
              r == Failure(NotFoundError(EmptyResult, LookupRequest(id)))
    // A found record always sits in the ID's pool.
    ensures r.Success? ==> r.value.poolName == Some(SplitId(id).1)
    ensures r.Failure? && IsNotFound(r.error) ==> r.error.lastRequest == LookupRequest(id)
  {
    var (ip, destinationPoolName) := SplitId(id);
    var request := GetDedicatedIpInput(ip);
    match response
    case GetFailed(err) =>
      if err.NotFoundException? then Failure(NotFoundError(ApiNotFound(err), request))
      else Failure(ApiFailure(err))
    case GetReturned(output) =>
      if output.None? || output.value.dedicatedIp.None? then Failure(NotFoundError(EmptyResult, request))
      else
        var record := output.value.dedicatedIp.value;
        if record.poolName.None? || record.poolName.value != destinationPoolName then
          Failure(NotFoundError(IncorrectPoolAssignment, request))
        else Success(record)
  }

  /** The record returned by a response, if there is one. */
  predicate HoldsRecord(response: GetDedicatedIpResponse)
  {
    response.GetReturned? && response.output.Some? && response.output.value.dedicatedIp.Some?
  }

  /**
   * A lookup succeeds exactly when the API returned a record in the ID's pool, and
   * then it returns that record untouched; a record in another pool or in none is
   * reported as not found for an incorrect pool assignment.
   */
  lemma LookupSucceedsExactlyInIdPool(id: string, response: GetDedicatedIpResponse)
    ensures FindDedicatedIpAssignmentById(id, response).Success? <==>
              HoldsRecord(response) && response.output.value.dedicatedIp.value.poolName == Some(SplitId(id).1)
    ensures FindDedicatedIpAssignmentById(id, response).Success? ==>
              FindDedicatedIpAssignmentById(id, response).value == response.output.value.dedicatedIp.value
    ensures HoldsRecord(response) && response.output.value.dedicatedIp.value.poolName != Some(SplitId(id).1) ==>
              FindDedicatedIpAssignmentById(id, response) == Failure(NotFoundError(IncorrectPoolAssignment, LookupRequest(id)))
  {
  }

  /**
   * For an ID built by `ToId`, the lookup asks the API about the assigned IP and
   * accepts a record exactly when its pool is the assigned pool.
   */
  lemma LookupOfComposedId(ip: string, pool: string, response: GetDedicatedIpResponse)
    requires IdSeparator !in ip && IdSeparator !in pool
    requires HoldsRecord(response)
    ensures LookupRequest(ToId(ip, pool)) == GetDedicatedIpInput(ip)
    ensures FindDedicatedIpAssignmentById(ToId(ip, pool), response).Success? <==>
              response.output.value.dedicatedIp.value.poolName == Some(pool)
  {
    SplitIdToId(ip, pool);
  }

  // ---------------------------------------------------------------------------
  // Create, Read and Delete handlers
  // ---------------------------------------------------------------------------

  /** The part of Terraform's `ResourceData` the handlers touch; an empty `id` means "not in state". */
  datatype ResourceData = ResourceData(id: string, ip: string, destinationPoolName: string, isNewResource: bool)

  /** The verb a diagnostic reports. */
  datatype Action = Creating | Reading | Deleting

  /** The error a diagnostic wraps. */
  datatype Cause = Api(apiError: ApiError) | Lookup(lookupError: LookupError)

  /** The handlers' `diag.Diagnostics`: none, or one error about `subject`. */
  datatype Diagnostics = NoDiagnostics | DiagError(action: Action, subject: string, cause: Cause)

  /** The resource data after a handler, with the diagnostics it returned. */
  datatype HandlerResult = HandlerResult(data: ResourceData, diags: Diagnostics)

  /** The data Terraform hands to Create: the configuration, no ID yet, a new resource. */
  function NewResourceData(ip: string, destinationPoolName: string): ResourceData
  {
    ResourceData("", ip, destinationPoolName, true)
  }

  /**
   * `resourceDedicatedIPAssignmentRead`: `response` answers `LookupRequest(data.id)`.
   */
  function Read(data: ResourceData, response: GetDedicatedIpResponse): (r: HandlerResult)
    // Not found on a resource already in state: drop it from state, quietly.
    ensures var lookup := FindDedicatedIpAssignmentById(data.id, response);
            lookup.Failure? && IsNotFound(lookup.error) && !data.isNewResource ==>
              r == HandlerResult(data.(id := ""), NoDiagnostics)
    // Any other failure is reported and leaves the data alone.
    ensures var lookup := FindDedicatedIpAssignmentById(data.id, response);
            lookup.Failure? && (data.isNewResource || !IsNotFound(lookup.error)) ==>
              r == HandlerResult(data, DiagError(Reading, data.id, Lookup(lookup.error)))
    // On success the ID is kept and the pool is the ID's pool.
    ensures var lookup := FindDedicatedIpAssignmentById(data.id, response);
            lookup.Success? ==>
              && r.diags == NoDiagnostics
              && r.data.id == data.id && r.data.isNewResource == data.isNewResource
              && r.data.destinationPoolName == SplitId(data.id).1
              && r.data.ip == lookup.value.ip.GetOr("")
  {
    var lookup := FindDedicatedIpAssignmentById(data.id, response);
    if !data.isNewResource && lookup.Failure? && IsNotFound(lookup.error) then
      HandlerResult(data.(id := ""), NoDiagnostics)
    else if lookup.Failure? then
      HandlerResult(data, DiagError(Reading, data.id, Lookup(lookup.error)))
    else
      var record := lookup.value;
      HandlerResult(data.(ip := record.ip.GetOr(""), destinationPoolName := record.poolName.GetOr("")), NoDiagnostics)
  }

  /**
   * `resourceDedicatedIPAssignmentCreate`: `put` answers the request putting `ip` into `destinationPoolName`
   * and `response` answers the lookup of the Read that follows a successful put.
   */
  function Create(ip: string, destinationPoolName: string, put: PutResponse, response: GetDedicatedIpResponse): (r: HandlerResult)
    // A failed put sets no ID and reports the API error against the IP.
    ensures put.PutFailed? ==> r == HandlerResult(NewResourceData(ip, destinationPoolName), DiagError(Creating, ip, Api(put.err)))
    // A successful put records the composed ID and hands over to Read.
    ensures put.PutOk? ==> r == Read(NewResourceData(ip, destinationPoolName).(id := ToId(ip, destinationPoolName)), response)
    // Create never ends quietly without the composed ID in state.
    ensures r.diags.NoDiagnostics? ==> r.data.id == ToId(ip, destinationPoolName)
  {
    var data := NewResourceData(ip, destinationPoolName);
    match put
    case PutFailed(err) => HandlerResult(data, DiagError(Creating, ip, Api(err)))
    case PutOk => Read(data.(id := ToId(ip, destinationPoolName)), response)
  }

  /** The request Delete sends: the ID's IP back into the default pool. */
  function DeleteRequest(data: ResourceData): (request: PutDedicatedIpInPoolInput)
    ensures request.destinationPoolName == DefaultDedicatedPoolName
    ensures request.ip == SplitId(data.id).0
  {
    var (ip, _) := SplitId(data.id);
    PutDedicatedIpInPoolInput(ip, DefaultDedicatedPoolName)
  }

  /**
   * `resourceDedicatedIPAssignmentDelete`: `put` answers `DeleteRequest(data)`.
   * An IP the API no longer knows counts as deleted.
   */
  function Delete(data: ResourceData, put: PutResponse): (diags: Diagnostics)
    ensures diags.DiagError? <==> put.PutFailed? && !put.err.NotFoundException?
    ensures diags.DiagError? ==> diags == DiagError(Deleting, data.id, Api(put.err))
  {
    match put
    case PutOk => NoDiagnostics
    case PutFailed(err) =>
      if err.NotFoundException? then NoDiagnostics
      else DiagError(Deleting, data.id, Api(err))
  }

  // ---------------------------------------------------------------------------
  // Properties across handlers
  // ---------------------------------------------------------------------------

  /**
   * A successful Create of an assignment whose parts hold no separator leaves
   * exactly the configured IP's ID and pool in state.
   */
  lemma CreateRecordsConfiguredAssignment(ip: string, pool: string, put: PutResponse, response: GetDedicatedIpResponse)
    requires IdSeparator !in ip && IdSeparator !in pool
    requires Create(ip, pool, put, response).diags.NoDiagnostics?
    ensures Create(ip, pool, put, response).data.id == ToId(ip, pool)
    ensures Create(ip, pool, put, response).data.destinationPoolName == pool
    ensures put.PutOk? && HoldsRecord(response) && response.output.value.dedicatedIp.value.poolName == Some(pool)
  {
    SplitIdToId(ip, pool);
    LookupSucceedsExactlyInIdPool(ToId(ip, pool), response);
  }

  /**
   * Drift: when the IP has moved to another pool outside Terraform, Read on a
   * resource already in state removes it from state without an error.
   */
  lemma ReadDropsDriftedAssignment(data: ResourceData, response: GetDedicatedIpResponse)
    requires !data.isNewResource
    requires HoldsRecord(response)
    requires response.output.value.dedicatedIp.value.poolName != Some(SplitId(data.id).1)
    ensures Read(data, response) == HandlerResult(data.(id := ""), NoDiagnostics)
  {
  }

  /** Reading again after a successful Read, against the same answer, changes nothing. */
  lemma ReadIdempotent(data: ResourceData, response: GetDedicatedIpResponse)
    requires Read(data, response).diags.NoDiagnostics?
    requires Read(data, response).data.id != ""
    ensures Read(Read(data, response).data, response) == Read(data, response)
  {
  }

  /**
   * Delete re-homes the assigned IP to the default pool whatever pool the ID or
   * the state names.
   */
  lemma DeleteRehomesToDefaultPool(data: ResourceData, ip: string, pool: string)
    requires IdSeparator !in ip && IdSeparator !in pool
    requires data.id == ToId(ip, pool)
    ensures DeleteRequest(data) == PutDedicatedIpInPoolInput(ip, DefaultDedicatedPoolName)
  {
    SplitIdToId(ip, pool);
  }
}
