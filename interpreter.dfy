/** The interpreter and session wrappers (src/interpreter.cpp).

    Every wrapper checks its pointer arguments, calls the engine inside a
    `try` block and translates what happened into a C result. A call into
    the engine is the parameter `engine`: what the call returned, or that it
    threw. The optional completion callback is the flag `callback` (the
    pointer is non-null); `fired` counts how often it was invoked and
    `calls` how often the engine was called. */
module InterpreterApi {
  import opened Common
  import opened OrderedMap

  /** `mnn_backend_config_t`; `context` is the `sharedContext`/`flags` union. */
  datatype CBackendConfig = CBackendConfig(memory: int, power: int, precision: int, context: nat)

  /** `mnn_schedule_config_t`; `threads` is the `num_thread`/`mode` union,
      and a missing `backend_config` pointer is `None`. */
  datatype CScheduleConfig =
    CScheduleConfig(forwardType: int, threads: int, backupType: int, backendConfig: Option<CBackendConfig>)

  /** How an `MNN::BackendConfig` reaches the engine: a copy the binding
      made, or the caller's struct reinterpreted in place. */
  datatype BackendLink = Copied(cfg: CBackendConfig) | Aliased(cfg: CBackendConfig)

  /** The `MNN::ScheduleConfig` handed to the engine; a field the binding
      leaves at its default is `None`. */
  datatype ScheduleConfig =
    ScheduleConfig(forwardType: int, numThread: int, mode: Option<int>, backend: Option<BackendLink>)

  /** Invocations of an optional callback that is called once. */
  function Once(callback: bool): nat
  {
    if callback then 1 else 0
  }

  /** `mnn_interpreter_create_from_file` and `_create_from_buffer`: the
      engine's interpreter, or null when it threw; the callback runs once
      on both paths. */
  method CreateInterpreter(callback: bool, engine: Outcome<Handle>) returns (r: Handle, fired: nat)
    ensures fired == Once(callback)
    ensures engine.Threw? ==> r == NULL
    ensures engine.Returned? ==> r == engine.value
  {
    fired := 0;
    match engine
    case Returned(v) =>
      r := v;
      if callback { fired := fired + 1; }
    case Threw =>
      if callback { fired := fired + 1; }
      r := NULL;
  }

  /** `mnn_interpreter_create_session`: null, without calling the engine,
      when `self` or `config` is null. Otherwise the engine receives the
      forward type, the thread/mode union in both fields, and a copy of
      the backend config exactly when the caller supplied one. The
      temporary copy is released only after a normal return from the
      engine: `leaked` reports the exception path that skips the delete.
      The callback runs once on every path. */
  method CreateSession(self: Handle, config: Option<CScheduleConfig>, callback: bool, engine: Outcome<Handle>)
    returns (s: Handle, fired: nat, passed: Option<ScheduleConfig>, leaked: bool)
    ensures fired == Once(callback)
    ensures passed.None? <==> self == NULL || config.None?
    ensures passed.None? ==> s == NULL && !leaked
    ensures passed.Some? ==>
      var c := config.value;
      && passed.value.forwardType == c.forwardType
      && passed.value.numThread == c.threads
      && passed.value.mode == Some(c.threads)
      && (passed.value.backend.Some? <==> c.backendConfig.Some?)
      && (c.backendConfig.Some? ==> passed.value.backend == Some(Copied(c.backendConfig.value)))
    ensures passed.Some? ==> (s == if engine.Threw? then NULL else engine.value)
    ensures leaked <==> passed.Some? && engine.Threw?
  {
    fired := 0;
    if self == NULL || config.None? {
      if callback { fired := fired + 1; }
      return NULL, fired, None, false;
    }
    var c := config.value;
    var backend: Option<BackendLink> := None;
    if c.backendConfig.Some? {
      backend := Some(Copied(c.backendConfig.value));
    }
    passed := Some(ScheduleConfig(c.forwardType, c.threads, Some(c.threads), backend));
    match engine
    case Returned(v) =>
      s := v;
      leaked := false;
      if callback { fired := fired + 1; }
    case Threw =>
      if callback { fired := fired + 1; }
      s := NULL;
      leaked := true;
  }

  /** `mnn_interpreter_create_session_with_runtime`: also guards `runtime`;
      the caller's backend config pointer is handed over as it is, and the
      mode is left at its default. The callback runs once on every path. */
  method CreateSessionWithRuntime(self: Handle, config: Option<CScheduleConfig>, runtime: Handle,
                                  callback: bool, engine: Outcome<Handle>)
    returns (s: Handle, fired: nat, passed: Option<ScheduleConfig>)
    ensures fired == Once(callback)
    ensures passed.None? <==> self == NULL || config.None? || runtime == NULL
    ensures passed.None? ==> s == NULL
    ensures passed.Some? ==>
      var c := config.value;
      && passed.value.forwardType == c.forwardType
      && passed.value.numThread == c.threads
      && passed.value.mode.None?
      && (passed.value.backend.Some? <==> c.backendConfig.Some?)
      && (c.backendConfig.Some? ==> passed.value.backend == Some(Aliased(c.backendConfig.value)))
    ensures passed.Some? ==> (s == if engine.Threw? then NULL else engine.value)
  {
    fired := 0;
    if self == NULL || config.None? || runtime == NULL {
      if callback { fired := fired + 1; }
      return NULL, fired, None;
    }
    var c := config.value;
    var backend: Option<BackendLink> := None;
    if c.backendConfig.Some? {
      backend := Some(Aliased(c.backendConfig.value));
    }
    passed := Some(ScheduleConfig(c.forwardType, c.threads, None, backend));
    if engine.Threw? {
      if callback { fired := fired + 1; }
      s := NULL;
    } else {
      s := engine.value;
      if callback { fired := fired + 1; }
    }
  }

  /** `mnn_interpreter_release_session`: INVALID_PTR when a handle is null
      (the engine is not called), the engine's boolean as BOOL_TRUE /
      BOOL_FALSE, UNKNOWN_ERROR when it threw; the callback runs once on
      every path. */
  method ReleaseSession(self: Handle, session: Handle, callback: bool, engine: Outcome<bool>)
    returns (code: ErrorCode, fired: nat, calls: nat)
    ensures fired == Once(callback)
    ensures calls == (if self == NULL || session == NULL then 0 else 1)
    ensures code == INVALID_PTR <==> calls == 0
    ensures calls == 1 ==>
      && (code == BOOL_TRUE <==> engine == Returned(true))
      && (code == BOOL_FALSE <==> engine == Returned(false))
      && (code == UNKNOWN_ERROR <==> engine.Threw?)
  {
    fired, calls := 0, 0;
    if self == NULL || session == NULL {
      if callback { fired := fired + 1; }
      return INVALID_PTR, fired, calls;
    }
    calls := calls + 1;
    match engine
    case Returned(ok) =>
      if callback { fired := fired + 1; }
      code := BoolCode(ok);
    case Threw =>
      if callback { fired := fired + 1; }
      code := UNKNOWN_ERROR;
  }

  /** `mnn_interpreter_resize_session`: INVALID_PTR when a handle is null,
      NO_ERROR after a normal return, UNKNOWN_ERROR when the engine threw;
      the callback runs once on every path. */
  method ResizeSession(self: Handle, session: Handle, callback: bool, engine: Outcome<()>)
    returns (code: ErrorCode, fired: nat, calls: nat)
    ensures fired == Once(callback)
    ensures calls == (if self == NULL || session == NULL then 0 else 1)
    ensures code == INVALID_PTR <==> calls == 0
    ensures calls == 1 ==> (code == NO_ERROR <==> engine.Returned?) && (code == UNKNOWN_ERROR <==> engine.Threw?)
  {
    fired, calls := 0, 0;
    if self == NULL || session == NULL {
      if callback { fired := fired + 1; }
      return INVALID_PTR, fired, calls;
    }
    calls := calls + 1;
    if engine.Threw? {
      if callback { fired := fired + 1; }
      code := UNKNOWN_ERROR;
    } else {
      if callback { fired := fired + 1; }
      code := NO_ERROR;
    }
  }

  /** `mnn_interpreter_run_session`: INVALID_PTR when a handle is null, the
      engine's own error code after a normal return, UNKNOWN_ERROR when it
      threw; the callback runs once on every path. */
  method RunSession(self: Handle, session: Handle, callback: bool, engine: Outcome<ErrorCode>)
    returns (code: ErrorCode, fired: nat, calls: nat)
    ensures fired == Once(callback)
    ensures calls == (if self == NULL || session == NULL then 0 else 1)
    ensures calls == 0 ==> code == INVALID_PTR
    ensures calls == 1 && engine.Returned? ==> code == engine.value
    ensures calls == 1 && engine.Threw? ==> code == UNKNOWN_ERROR
  {
    fired, calls := 0, 0;
    if self == NULL || session == NULL {
      if callback { fired := fired + 1; }
      return INVALID_PTR, fired, calls;
    }
    calls := calls + 1;
    match engine
    case Returned(c) =>
      if callback { fired := fired + 1; }
      code := c;
    case Threw =>
      if callback { fired := fired + 1; }
      code := UNKNOWN_ERROR;
  }

  /** `mnn_interpreter_get_session_input` and `_get_session_output`: null
      for a null handle or when the engine threw, otherwise the engine's
      tensor. */
  function SessionTensor(self: Handle, session: Handle, engine: Outcome<Handle>): (t: Handle)
    ensures self == NULL || session == NULL || engine.Threw? ==> t == NULL
    ensures self != NULL && session != NULL && engine.Returned? ==> t == engine.value
  {
    if self == NULL || session == NULL || engine.Threw? then NULL else engine.value
  }

  /** `mnn_interpreter_get_session_info`: INVALID_PTR when a pointer is
      missing; the engine's success as NO_ERROR and its failure or an
      exception as UNKNOWN_ERROR. */
  function SessionInfoCode(self: Handle, session: Handle, info: Handle, engine: Outcome<bool>): (code: ErrorCode)
    ensures code in {INVALID_PTR, NO_ERROR, UNKNOWN_ERROR}
    ensures code == INVALID_PTR <==> self == NULL || session == NULL || info == NULL
    ensures code == NO_ERROR <==> self != NULL && session != NULL && info != NULL && engine == Returned(true)
  {
    if self == NULL || session == NULL || info == NULL then INVALID_PTR
    else if engine == Returned(true) then NO_ERROR
    else UNKNOWN_ERROR
  }

  /** `mnn_interpreter_get_session_input_all` and `_output_all`:
      INVALID_PTR when any pointer argument is null and UNKNOWN_ERROR when
      the engine threw, writing nothing in both cases. Otherwise `*count`
      is the number of named tensors, and `*tensors` / `*names` are new
      arrays holding them in parallel, in the map's ascending name order. */
  method SessionTensorsAll(self: Handle, session: Handle,
                           tensors: Cell?<array<Handle>>, names: Cell?<array<string>>, count: Cell?<nat>,
                           engine: Outcome<Entries<Handle>>)
    returns (code: ErrorCode)
    requires engine.Returned? ==> Sorted(engine.value)
    modifies tensors, names, count
    ensures code == INVALID_PTR <==> self == NULL || session == NULL || tensors == null || names == null || count == null
    ensures code != INVALID_PTR ==> (code == UNKNOWN_ERROR <==> engine.Threw?)
    ensures code != INVALID_PTR && code != UNKNOWN_ERROR ==> code == NO_ERROR
    ensures code != NO_ERROR && tensors != null ==> tensors.value == old(tensors.value)
    ensures code != NO_ERROR && names != null ==> names.value == old(names.value)
    ensures code != NO_ERROR && count != null ==> count.value == old(count.value)
    ensures code == NO_ERROR ==>
      var m := engine.value;
      && fresh(tensors.value) && fresh(names.value)
      && count.value == |m|
      && tensors.value[..] == Values(m)
      && names.value[..] == Keys(m)
      && (forall i, j :: 0 <= i < j < |m| ==> StrLt(names.value[i], names.value[j]))
  {
    if self == NULL || session == NULL || tensors == null || names == null || count == null {
      return INVALID_PTR;
    }
    if engine.Threw? {
      return UNKNOWN_ERROR;
    }
    var m := engine.value;
    var n := |m|;
    var ts := new Handle[n];
    var ns := new string[n];
    var i := 0;
    while i < n
      invariant 0 <= i <= n
      invariant forall k :: 0 <= k < i ==> ts[k] == m[k].1 && ns[k] == m[k].0
    {
      ts[i] := m[i].1;
      ns[i] := m[i].0;
      i := i + 1;
    }
    count.value := n;
    tensors.value := ts;
    names.value := ns;
    code := NO_ERROR;
  }

  /** `mnn_interpreter_resize_tensor` as written: its guard checks the
      tensor and the dimensions but not `self`, so it lets a call through
      to the engine with a null interpreter. */
  function ResizeTensorGuardAsWritten(self: Handle, tensor: Handle, dimsPresent: bool, dimCount: int): (proceeds: bool)
    ensures proceeds <==> tensor != NULL && dimsPresent && dimCount > 0
  {
    !(tensor == NULL || !dimsPresent || dimCount <= 0)
  }

  /** The guard as written proceeds with a null interpreter. */
  lemma ResizeTensorNullSelfProceeds()
    ensures ResizeTensorGuardAsWritten(NULL, 1, true, 1)
  {
  }

  /** `mnn_interpreter_resize_tensor` with `self` guarded as in
      `_resize_tensor_1`: INVALID_PTR for a null interpreter, a null tensor,
      null dims or a non-positive count; otherwise the engine receives the
      first `dimCount` dimensions, and an exception gives UNKNOWN_ERROR. */
  method ResizeTensor(self: Handle, tensor: Handle, dims: array?<int>, dimCount: int, engine: Outcome<()>)
    returns (code: ErrorCode, passed: Option<seq<int>>)
    requires dims != null && dimCount > 0 ==> dimCount <= dims.Length
    ensures passed.Some? ==> self != NULL && ResizeTensorGuardAsWritten(self, tensor, dims != null, dimCount)
    ensures code == INVALID_PTR <==> passed.None?
    ensures passed.None? <==> self == NULL || tensor == NULL || dims == null || dimCount <= 0
    ensures passed.Some? ==> passed.value == dims[..dimCount]
    ensures passed.Some? ==> (code == NO_ERROR <==> engine.Returned?) && (code == UNKNOWN_ERROR <==> engine.Threw?)
  {
    if self == NULL || tensor == NULL || dims == null || dimCount <= 0 {
      return INVALID_PTR, None;
    }
    passed := Some(dims[..dimCount]);
    code := if engine.Threw? then UNKNOWN_ERROR else NO_ERROR;
  }

  /** `mnn_interpreter_resize_tensor_1`: INVALID_PTR for a null interpreter
      or tensor; otherwise the engine receives (batch, channel, height,
      width) in that order. */
  method ResizeTensorNCHW(self: Handle, tensor: Handle, batch: int, channel: int, height: int, width: int,
                          engine: Outcome<()>)
    returns (code: ErrorCode, passed: Option<seq<int>>)
    ensures code == INVALID_PTR <==> self == NULL || tensor == NULL
    ensures passed.None? <==> code == INVALID_PTR
    ensures passed.Some? ==> passed.value == [batch, channel, height, width]
    ensures passed.Some? ==> (code == NO_ERROR <==> engine.Returned?) && (code == UNKNOWN_ERROR <==> engine.Threw?)
  {
    if self == NULL || tensor == NULL {
      return INVALID_PTR, None;
    }
    passed := Some([batch, channel, height, width]);
    code := if engine.Threw? then UNKNOWN_ERROR else NO_ERROR;
  }

  /** One entry of the vector `mnn_interpreter_create_runtime` builds: the
      thread/mode union in both fields and the caller's backend config
      pointer reinterpreted in place. */
  function RuntimeEntry(c: CScheduleConfig): ScheduleConfig
  {
    ScheduleConfig(c.forwardType, c.threads, Some(c.threads),
                   if c.backendConfig.Some? then Some(Aliased(c.backendConfig.value)) else None)
  }

  /** `mnn_interpreter_create_runtime`: the engine receives one schedule
      config per input config, in order; the result is a new runtime-info
      box, or null when the engine threw. */
  method CreateRuntime(configs: array?<CScheduleConfig>, count: nat, engine: Outcome<Handle>)
    returns (r: Option<Handle>, passed: seq<ScheduleConfig>)
    requires count > 0 ==> configs != null && count <= configs.Length
    ensures |passed| == count
    ensures forall i :: 0 <= i < count ==> passed[i].forwardType == configs[i].forwardType
    ensures forall i :: 0 <= i < count ==> passed[i] == RuntimeEntry(configs[i])
    ensures r.None? <==> engine.Threw?
  {
    passed := [];
    var i := 0;
    while i < count
      invariant 0 <= i <= count
      invariant |passed| == i
      invariant forall k :: 0 <= k < i ==> passed[k] == RuntimeEntry(configs[k])
    {
      passed := passed + [RuntimeEntry(configs[i])];
      i := i + 1;
    }
    r := if engine.Threw? then None else Some(engine.value);
  }

  /** `mnn_interpreter_get_model_buffer`: 0, writing nothing, for a null
      interpreter or out-pointer; otherwise the engine's buffer is written
      through `buffer` and its size returned; an exception writes null and
      returns 0. */
  method GetModelBuffer(self: Handle, buffer: Cell?<Handle>, engine: Outcome<(Handle, nat)>)
    returns (size: nat)
    modifies buffer
    ensures self == NULL || buffer == null ==> size == 0
    ensures self == NULL && buffer != null ==> buffer.value == old(buffer.value)
    ensures self != NULL && buffer != null && engine.Threw? ==> size == 0 && buffer.value == NULL
    ensures self != NULL && buffer != null && engine.Returned? ==>
      buffer.value == engine.value.0 && size == engine.value.1
  {
    if self == NULL || buffer == null {
      return 0;
    }
    match engine
    case Returned(pair) =>
      buffer.value := pair.0;
      size := pair.1;
    case Threw =>
      buffer.value := NULL;
      size := 0;
  }
}
