/** `ServiceResourceImpl.publish` and `retire`: a synchronous REST call that
    hands the registry an asynchronous handler, blocks on a one-count latch,
    and then turns the recorded result into a normal return or an exception.

    The latch is not modelled as a thread: what the registry does is a
    `Completion` — it never calls the handler, the wait is interrupted, or
    the handler is called and the wait returns after that first call. */
module ServiceResource {
  import opened Common

  /** The `Service` bean, as far as these operations use it. */
  datatype Service = Service(
    organizationId: string,
    serviceId: string,
    version: string,
    endpoint: Option<string>,
    endpointType: Option<string>)

  /** How the registry's asynchronous call ends, seen from the waiting thread. */
  datatype Completion =
    | NeverSignalled
    | Interrupted
    | Signalled(result: AsyncResult<()>)

  /** How the REST method ends. */
  datatype Outcome = Hangs | Returns | Throws(thrown: Throwable)

  /** What one call sent to the registry and how it ended. */
  datatype Call = Call(sent: Service, outcome: Outcome)

  /** The error holder and the latch the anonymous handler closes over. */
  datatype HandlerState = HandlerState(errors: seq<Throwable>, latch: nat)

  /** The state before the registry is called: no error, latch at one. */
  const Armed := HandlerState([], 1)

  /** The exception `latch.await()` raises on interruption. */
  const InterruptedError := OtherThrowable("java.lang.InterruptedException", "")

  /** The handler body: record the error of an error result, then count
      the latch down (a latch at zero stays at zero). */
  function Handle(h: HandlerState, result: AsyncResult<()>): (r: HandlerState)
    ensures |r.errors| == |h.errors| + (if result.IsError() then 1 else 0)
    ensures r.errors[..|h.errors|] == h.errors
    ensures result.IsError() ==> r.errors[|h.errors|] == result.error
    ensures h.latch > 0 ==> r.latch == h.latch - 1
    ensures h.latch == 0 ==> r.latch == 0
  {
    HandlerState(
      if result.IsError() then h.errors + [result.error] else h.errors,
      if h.latch > 0 then h.latch - 1 else 0)
  }

  /** The code after `await()`: no error returns; an engine exception is
      rethrown as is; anything else is wrapped in a `RuntimeException`. */
  function RaiseRecorded(errors: seq<Throwable>): (r: Outcome)
    ensures r.Returns? <==> |errors| == 0
    ensures r.Throws? ==> (r.thrown == errors[0] || r.thrown == RuntimeWrapper(errors[0]))
    ensures !r.Hangs?
  {
    if |errors| == 0 then Returns
    else if IsEngineException(errors[0]) then Throws(errors[0])
    else Throws(RuntimeWrapper(errors[0]))
  }

  /** The synchronous bridge shared by `publish` and `retire`: the call
      hangs exactly when the handler is never called, returns exactly when
      it is called with a success, and otherwise throws the handler's error,
      as is or wrapped, or the wrapped interruption. */
  function Bridge(c: Completion): (r: Outcome)
    ensures r.Hangs? <==> c.NeverSignalled?
    ensures r.Returns? <==> c.Signalled? && !c.result.IsError()
    ensures c.Interrupted? ==> r == Throws(RuntimeWrapper(InterruptedError))
    ensures c.Signalled? && c.result.IsError() ==>
              r == Throws(if IsEngineException(c.result.error) then c.result.error else RuntimeWrapper(c.result.error))
  {
    match c
    case NeverSignalled => Hangs
    case Interrupted => Throws(RuntimeWrapper(InterruptedError))
    case Signalled(result) => RaiseRecorded(Handle(Armed, result).errors)
  }

  /** `publish(service)`: the given service goes to the registry unchanged. */
  function Publish(service: Service, registry: Service -> Completion): (r: Call)
    ensures r.sent == service
  {
    Call(service, Bridge(registry(service)))
  }

  /** The `Service` that `retire` builds: the three ids and nothing else. */
  function RetireRequest(organizationId: string, serviceId: string, version: string): (s: Service)
    ensures s.organizationId == organizationId && s.serviceId == serviceId && s.version == version
    ensures s.endpoint.None? && s.endpointType.None?
  {
    Service(organizationId, serviceId, version, None, None)
  }

  /** `retire(organizationId, serviceId, version)`. */
  function Retire(organizationId: string, serviceId: string, version: string, registry: Service -> Completion)
    : (r: Call)
    ensures r.sent == RetireRequest(organizationId, serviceId, version)
  {
    var service := RetireRequest(organizationId, serviceId, version);
    Call(service, Bridge(registry(service)))
  }

  // ---------------------------------------------------------------------
  // Properties
  // ---------------------------------------------------------------------

  /** The handler records an error exactly for an error result, and one
      call releases the armed latch. */
  lemma HandlerRecordsOnlyErrors(result: AsyncResult<()>)
    ensures Handle(Armed, result).latch == 0
    ensures |Handle(Armed, result).errors| > 0 <==> result.IsError()
    ensures result.IsError() ==> Handle(Armed, result).errors == [result.error]
  {
  }

  /** The call returns normally exactly when the handler ran with a
      non-error result, and hangs exactly when it never ran. */
  lemma ReturnsIffSuccess(c: Completion)
    ensures Bridge(c) == Returns <==> c.Signalled? && !c.result.IsError()
    ensures Bridge(c) == Hangs <==> c.NeverSignalled?
  {
  }

  /** An engine error reaches the caller unchanged. */
  lemma EngineErrorRethrown(e: Throwable)
    requires IsEngineException(e)
    ensures Bridge(Signalled(Failure(e))) == Throws(e)
  {
  }

  /** Any other error reaches the caller as a `RuntimeException` caused by it. */
  lemma OtherErrorWrapped(e: Throwable)
    requires !IsEngineException(e)
    ensures Bridge(Signalled(Failure(e))) == Throws(RuntimeWrapper(e))
  {
  }

  /** An interrupted wait is wrapped as well, whatever the registry does later. */
  lemma InterruptIsWrapped()
    ensures Bridge(Interrupted) == Throws(RuntimeWrapper(InterruptedError))
  {
  }

  /** Whatever escapes is an engine exception or a `RuntimeException`
      wrapper around the error or the interruption; the registry's error
      is never lost. */
  lemma ThrownIsEngineOrWrapped(c: Completion)
    requires Bridge(c).Throws?
    ensures IsEngineException(Bridge(c).thrown) || Bridge(c).thrown.RuntimeWrapper?
    ensures c.Signalled? ==>
              c.result.IsError() &&
              (Bridge(c).thrown == c.result.error || Bridge(c).thrown == RuntimeWrapper(c.result.error))
    ensures c.Interrupted? ==> Bridge(c).thrown.cause == InterruptedError
  {
  }

  /** `retire` maps the registry's answer exactly as `publish` does, for the
      service it builds from its three arguments. */
  lemma RetireMatchesPublish(organizationId: string, serviceId: string, version: string,
                             registry: Service -> Completion)
    ensures Retire(organizationId, serviceId, version, registry) ==
            Publish(RetireRequest(organizationId, serviceId, version), registry)
  {
  }
}
