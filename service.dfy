/**
 * The document service: a cached service instance and the call that runs
 * the workflow for one code change without ever raising.
 */
module DocumentService {
  import opened Wrappers
  import opened DocumentWorkflow

  /** A service instance: its key (`openai_api_key or OPENAI_API_KEY`) and the mock switch. */
  datatype Service = Service(apiKey: Option<string>, useMock: bool)

  /** `DocumentService.__init__`, given the value of `OPENAI_API_KEY`. */
  function NewService(key: Option<string>, env: Option<string>, useMock: bool): (s: Service)
    ensures s.useMock == useMock
    ensures Truthy(s.apiKey) <==> Truthy(key) || Truthy(env)
  {
    Service(KeyOrEnv(key, env), useMock)
  }

  const ServicePrefix: string := "Document service failed: "

  /**
   * `process_code_change`.  `run` is what `workflow.process` produced for
   * a workflow that could be constructed: its result, or the message of an
   * exception it raised.  Every exception becomes a failed result.
   */
  function ProcessCodeChange(s: Service, env: Option<string>, run: Result<ProcessResult>): (r: ProcessResult)
    ensures NewWorkflow(s.apiKey, env, s.useMock).Raised? ==> r == Failed(ServicePrefix + ApiKeyRequired)
    ensures NewWorkflow(s.apiKey, env, s.useMock).Ok? && run.Raised? ==> r == Failed(ServicePrefix + run.message)
    ensures NewWorkflow(s.apiKey, env, s.useMock).Ok? && run.Ok? ==> r == run.value
  {
    match NewWorkflow(s.apiKey, env, s.useMock)
    case Raised(e) => Failed(ServicePrefix + e)
    case Ok(_) =>
      match run
      case Raised(e) => Failed(ServicePrefix + e)
      case Ok(result) => result
  }

  /** A service with the mock never fails for want of a key. */
  lemma MockNeedsNoKey(s: Service, env: Option<string>, run: Result<ProcessResult>)
    requires s.useMock && run.Ok?
    ensures ProcessCodeChange(s, env, run) == run.value
  {
  }

  /** The module-global `_service_instance`. */
  class ServiceCache {
    var instance: Option<Service>

    constructor ()
      ensures instance == None
    {
      instance := None;
    }

    /**
     * `get_document_service`: a new instance when none is cached, when a
     * key is passed or when the mock is asked for; the cached one otherwise.
     */
    method GetDocumentService(useMock: bool, key: Option<string>, env: Option<string>) returns (s: Service)
      modifies this
      ensures old(instance).None? || Truthy(key) || useMock ==> s == NewService(key, env, useMock)
      ensures old(instance).Some? && !Truthy(key) && !useMock ==> s == old(instance).value
      ensures instance == Some(s)
    {
      if instance.None? || Truthy(key) || useMock {
        instance := Some(NewService(key, env, useMock));
      }
      s := instance.value;
    }
  }
}
