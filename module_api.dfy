/** The Module wrappers (src/module.cpp): C string lists turned into name
    lists, the export of a module's info as caller-owned arrays, the
    forward protocol, the null-guarded getters and setters, null-safe
    destroys, and the request a module load hands to the engine. */
module ModuleApi {
  import opened Common
  import opened OrderedMap
  import Expr

  // ---- parse_c_strings -----------------------------------------------

  /** The present strings of a C string array, in order; null entries
      (`None`) are dropped. */
  function NonNull(xs: seq<Option<string>>): seq<string>
  {
    if xs == [] then []
    else (if xs[0].Some? then [xs[0].value] else []) + NonNull(xs[1..])
  }

  /** Appending one entry appends its string, if present. */
  lemma {:induction false} NonNullSnoc(xs: seq<Option<string>>, x: Option<string>)
    ensures NonNull(xs + [x]) == NonNull(xs) + (if x.Some? then [x.value] else [])
  {
    if xs != [] {
      assert (xs + [x])[1..] == xs[1..] + [x];
      NonNullSnoc(xs[1..], x);
    }
  }

  /** Filtering keeps exactly the present strings: a string survives iff
      some entry holds it, and no more strings come out than went in. */
  lemma {:induction false} NonNullMembers(xs: seq<Option<string>>, y: string)
    ensures y in NonNull(xs) <==> Some(y) in xs
    ensures |NonNull(xs)| <= |xs|
  {
    if xs != [] {
      NonNullMembers(xs[1..], y);
      assert xs == [xs[0]] + xs[1..];
    }
  }

  /** Filtering keeps order: the result is what the entries in front of
      each present entry contribute, followed by that entry's string. */
  lemma {:induction false} NonNullOrder(xs: seq<Option<string>>, k: nat)
    requires k < |xs| && xs[k].Some?
    ensures NonNull(xs[..k + 1]) == NonNull(xs[..k]) + [xs[k].value]
  {
    assert xs[..k + 1] == xs[..k] + [xs[k]];
    NonNullSnoc(xs[..k], xs[k]);
  }

  /** `parse_c_strings(s, count)`: empty for a null array, otherwise the
      non-null entries among the first `count`, in their original order. */
  method ParseCStrings(s: array?<Option<string>>, count: int) returns (strings: seq<string>)
    requires s != null && count > 0 ==> count <= s.Length
    ensures s == null || count <= 0 ==> strings == []
    ensures s != null && count > 0 ==> strings == NonNull(s[..count])
  {
    strings := [];
    if s != null && count > 0 {
      var i := 0;
      while i < count
        invariant 0 <= i <= count
        invariant strings == NonNull(s[..i])
      {
        NonNullSnoc(s[..i], s[i]);
        assert s[..i + 1] == s[..i] + [s[i]];
        if s[i].Some? {
          strings := strings + [s[i].value];
        }
        i := i + 1;
      }
    }
  }

  // ---- Module::Info ----------------------------------------------------

  /** `MNN::Express::Module::Info`. */
  datatype ModuleInfo = ModuleInfo(
    inputs: seq<Expr.ShapeInfo>,
    defaultFormat: int,
    inputNames: seq<string>,
    outputNames: seq<string>,
    metaData: Entries<string>,
    version: string,
    bizCode: string,
    uuid: string)

  /** `mnn_module_info_get_inputs_at`: the owned struct for input `index`
      (the index is not checked: the caller must pass one in range). */
  function InputAt(info: ModuleInfo, index: int): (c: Expr.CInfo)
    requires 0 <= index < |info.inputs|
    ensures c.ndim == |c.dim| == |info.inputs[index].dim|
    ensures forall i :: 0 <= i < c.ndim ==> c.dim[i] == info.inputs[index].dim[i]
  {
    Expr.ExportInfo(info.inputs[index])
  }

  /** Fills a new array with the first `len` names when the out-pointer is
      present, and returns `len` in any case. */
  method ExportNames(names: seq<string>, len: nat, out: Cell?<array<string>>) returns (n: nat)
    requires len <= |names|
    modifies out
    ensures n == len
    ensures out != null ==> fresh(out.value) && out.value[..] == names[..len]
  {
    if out != null {
      var a := new string[len];
      var i := 0;
      while i < len
        invariant 0 <= i <= len
        invariant forall k :: 0 <= k < i ==> a[k] == names[k]
      {
        a[i] := names[i];
        i := i + 1;
      }
      out.value := a;
    }
    n := len;
  }

  /** `mnn_module_info_get_input_names`: the count is the number of
      inputs, and that many names are exported. */
  method InputNames(info: ModuleInfo, out: Cell?<array<string>>) returns (n: nat)
    requires |info.inputs| <= |info.inputNames|
    modifies out
    ensures n == |info.inputs|
    ensures out != null ==> fresh(out.value) && out.value[..] == info.inputNames[..n]
  {
    n := ExportNames(info.inputNames, |info.inputs|, out);
  }

  /** `mnn_module_info_get_output_names`: every output name is exported. */
  method OutputNames(info: ModuleInfo, out: Cell?<array<string>>) returns (n: nat)
    modifies out
    ensures n == |info.outputNames|
    ensures out != null ==> fresh(out.value) && out.value[..] == info.outputNames
  {
    n := ExportNames(info.outputNames, |info.outputNames|, out);
  }

  /** `mnn_module_info_get_metadata`: returns the number of entries; only
      when both out-pointers are present are two new arrays filled with the
      keys and the values in parallel, in the map's ascending key order.
      Each store goes through the out-pointer, so when `keys` and `values`
      are the same cell, the values array is stored last, every key written
      into it is then overwritten by its value, and the keys array is
      unreachable. */
  method Metadata(info: ModuleInfo, keys: Cell?<array<string>>, values: Cell?<array<string>>) returns (n: nat)
    requires Sorted(info.metaData)
    modifies keys, values
    ensures n == |info.metaData|
    ensures keys == null || values == null ==>
      (keys != null ==> keys.value == old(keys.value)) && (values != null ==> values.value == old(values.value))
    ensures keys != null && values != null ==>
      fresh(values.value) && values.value[..] == Values(info.metaData)
    ensures keys != null && values != null && keys != values ==>
      && fresh(keys.value)
      && keys.value[..] == Keys(info.metaData)
      && (forall i, j :: 0 <= i < j < n ==> StrLt(keys.value[i], keys.value[j]))
      && (forall i :: 0 <= i < n ==> Lookup(info.metaData, keys.value[i]) == Some(values.value[i]))
  {
    var m := info.metaData;
    n := |m|;
    if keys != null && values != null {
      var ks := new string[n];
      keys.value := ks;
      var vs := new string[n];
      values.value := vs;
      var i := 0;
      while i < n
        invariant 0 <= i <= n
        invariant values.value == vs
        invariant keys.value == if keys == values then vs else ks
        invariant keys != values ==> forall k :: 0 <= k < i ==> ks[k] == m[k].0
        invariant forall k :: 0 <= k < i ==> vs[k] == m[k].1
      {
        keys.value[i] := m[i].0;
        values.value[i] := m[i].1;
        i := i + 1;
      }
      if keys != values {
        forall i | 0 <= i < n ensures Lookup(m, ks[i]) == Some(vs[i]) {
          LookupAt(m, i);
        }
      }
    }
  }

  // ---- Module ------------------------------------------------------------

  /** A `MNN::Express::Module` as the binding observes it. */
  class Module {
    var name: string
    var kind: string
    var isTraining: bool
    var info: Option<ModuleInfo>

    constructor (name: string, kind: string, info: Option<ModuleInfo>)
      ensures this.name == name && this.kind == kind && this.info == info && !isTraining
    {
      this.name, this.kind, this.info := name, kind, info;
      isTraining := false;
    }
  }

  /** `mnn_module_get_name`: a copy of the name, or null for a null module. */
  function GetName(self: Module?): (r: Option<string>)
    reads self
    ensures r.None? <==> self == null
    ensures r.Some? ==> r.value == self.name
  {
    if self == null then None else Some(self.name)
  }

  /** `mnn_module_get_type`: a copy of the type, or null for a null module. */
  function GetType(self: Module?): (r: Option<string>)
    reads self
    ensures r.None? <==> self == null
    ensures r.Some? ==> r.value == self.kind
  {
    if self == null then None else Some(self.kind)
  }

  /** `mnn_module_set_name`: a no-op on a null module. */
  method SetName(self: Module?, name: string)
    modifies self
    ensures self != null ==> self.name == name && self.kind == old(self.kind)
    ensures self != null ==> self.info == old(self.info) && self.isTraining == old(self.isTraining)
  {
    if self != null {
      self.name := name;
    }
  }

  /** `mnn_module_set_type`: a no-op on a null module. */
  method SetType(self: Module?, kind: string)
    modifies self
    ensures self != null ==> self.kind == kind && self.name == old(self.name)
    ensures self != null ==> self.info == old(self.info) && self.isTraining == old(self.isTraining)
  {
    if self != null {
      self.kind := kind;
    }
  }

  /** `mnn_module_get_info`: null for a null module or a module without
      info, otherwise a new box holding a copy of the info. */
  function GetInfo(self: Module?): (r: Option<ModuleInfo>)
    reads self
    ensures r.None? <==> self == null || self.info.None?
    ensures r.Some? ==> r == self.info
  {
    if self == null then None else self.info
  }

  /** `mnn_module_get_is_training`: false for a null module. */
  function GetIsTraining(self: Module?): (r: bool)
    reads self
    ensures r <==> self != null && self.isTraining
  {
    if self != null then self.isTraining else false
  }

  /** `mnn_module_set_is_training`: a no-op on a null module. */
  method SetIsTraining(self: Module?, isTraining: bool)
    modifies self
    ensures self != null ==> self.isTraining == isTraining && self.name == old(self.name)
    ensures self != null ==> self.kind == old(self.kind) && self.info == old(self.info)
  {
    if self != null {
      self.isTraining := isTraining;
    }
  }

  /** `mnn_runtime_manager_is_backend_support`: false for a null manager,
      otherwise the engine's answer for the one backend asked about. */
  function IsBackendSupport(mgr: Handle, answer: bool): (r: bool)
    ensures r <==> mgr != NULL && answer
  {
    if mgr != NULL then answer else false
  }

  /** `mnn_module_add_parameter`: -1 for a null module or parameter (the
      engine is not called), otherwise the index the engine assigns. */
  method AddParameter(self: Module?, parameter: Handle, engineIndex: int) returns (r: int, calls: nat)
    ensures calls == (if self == null || parameter == NULL then 0 else 1)
    ensures calls == 0 ==> r == -1
    ensures calls == 1 ==> r == engineIndex
  {
    if self == null || parameter == NULL {
      return -1, 0;
    }
    return engineIndex, 1;
  }

  /** `mnn_module_set_parameter`: nothing reaches the engine for a null
      module or parameter; otherwise the parameter and index are passed on. */
  method SetParameter(self: Module?, parameter: Handle, index: int) returns (passed: Option<(Handle, int)>)
    ensures passed.None? <==> self == null || parameter == NULL
    ensures passed.Some? ==> passed.value == (parameter, index)
  {
    if self == null || parameter == NULL {
      return None;
    }
    passed := Some((parameter, index));
  }

  /** `mnn_module_forward` and `mnn_module_on_forward`: INVALID_PTR, without
      calling the module, when any argument is null; after a normal return
      the output box is written through `output` and the result is
      NO_ERROR; an exception gives UNKNOWN_ERROR and writes nothing. The
      callback runs once on every path. */
  method Forward<T>(self: Module?, input: Handle, output: Cell?<T>, callback: bool, engine: Outcome<T>)
    returns (code: ErrorCode, fired: nat, calls: nat)
    modifies output
    ensures fired == (if callback then 1 else 0)
    ensures calls == (if self == null || input == NULL || output == null then 0 else 1)
    ensures code == INVALID_PTR <==> calls == 0
    ensures calls == 1 ==> (code == NO_ERROR <==> engine.Returned?) && (code == UNKNOWN_ERROR <==> engine.Threw?)
    ensures code == NO_ERROR ==> output.value == engine.value
    ensures code != NO_ERROR && output != null ==> output.value == old(output.value)
  {
    fired, calls := 0, 0;
    if self == null || input == NULL || output == null {
      if callback { fired := fired + 1; }
      return INVALID_PTR, fired, calls;
    }
    calls := calls + 1;
    match engine
    case Returned(v) =>
      output.value := v;
      if callback { fired := fired + 1; }
      code := NO_ERROR;
    case Threw =>
      if callback { fired := fired + 1; }
      code := UNKNOWN_ERROR;
  }

  // ---- Boxes and their null-safe destroys ----------------------------

  /** The kinds of box module.cpp hands out and takes back. */
  datatype BoxKind = InfoBox | ExecutorBox | ScopeBox | ModuleBox

  /** The boxes of each kind the caller currently owns. */
  class Boxes {
    var live: map<BoxKind, set<Handle>>

    ghost predicate Valid()
      reads this
    {
      forall k: BoxKind :: k in live && NULL !in live[k]
    }

    constructor ()
      ensures Valid() && forall k: BoxKind :: live[k] == {}
    {
      live := map[InfoBox := {}, ExecutorBox := {}, ScopeBox := {}, ModuleBox := {}];
      new;
      forall k: BoxKind ensures k in live && live[k] == {} {
        match k
        case InfoBox =>
        case ExecutorBox =>
        case ScopeBox =>
        case ModuleBox =>
      }
    }

    /** `mnn_module_info_destroy`, `mnn_executor_destroy`,
        `mnn_executor_scope_destroy` and `mnn_module_destroy`: a no-op on
        null; otherwise the box is released, and no other box of any kind. */
    method Destroy(kind: BoxKind, h: Handle)
      requires Valid() && (h == NULL || h in live[kind])
      modifies this
      ensures Valid()
      ensures live == old(live)[kind := DeleteBox(old(live[kind]), h)]
      ensures h == NULL ==> live == old(live)
    {
      live := live[kind := DeleteBox(live[kind], h)];
    }
  }

  // ---- Loading ---------------------------------------------------------

  /** `mnn_module_config_t`. */
  datatype CModuleConfig = CModuleConfig(
    dynamic: bool, shapeMutable: bool, rearrange: bool,
    backendInfoType: int, backendInfoConfig: Handle)

  /** `Module::Config` with its `BackendInfo`, as passed to the engine. */
  datatype LoadConfig = LoadConfig(
    dynamic: bool, shapeMutable: bool, rearrange: bool,
    backendType: int, backendConfig: Handle)

  /** A `shared_ptr` to the caller's runtime manager; `owning` says whether
      releasing it destroys the manager. */
  datatype SharedManager = SharedManager(mgr: Handle, owning: bool)

  /** Where the model comes from. */
  datatype ModelSource = File(fileName: string) | Bytes(buffer: Handle, length: nat)

  /** Everything `Module::load` receives. */
  datatype LoadRequest = LoadRequest(
    inputNames: seq<string>,
    outputNames: seq<string>,
    source: ModelSource,
    runtime: Option<SharedManager>,
    config: Option<LoadConfig>)

  /** `mnn_module_load_from_file` and `_load_from_bytes`: the input and
      output names are the non-null entries of the two arrays; a config is
      passed only when the caller supplied one, field by field; a supplied
      runtime manager is shared with a no-op deleter, so the module never
      destroys the caller's manager. */
  method Load(source: ModelSource,
              inputs: array?<Option<string>>, inputCount: int,
              outputs: array?<Option<string>>, outputCount: int,
              mgr: Handle, config: Option<CModuleConfig>)
    returns (req: LoadRequest)
    requires inputs != null && inputCount > 0 ==> inputCount <= inputs.Length
    requires outputs != null && outputCount > 0 ==> outputCount <= outputs.Length
    ensures req.source == source
    ensures req.inputNames == if inputs == null || inputCount <= 0 then [] else NonNull(inputs[..inputCount])
    ensures req.outputNames == if outputs == null || outputCount <= 0 then [] else NonNull(outputs[..outputCount])
    ensures req.runtime.Some? <==> mgr != NULL
    ensures req.runtime.Some? ==> req.runtime.value.mgr == mgr && !req.runtime.value.owning
    ensures req.config.Some? <==> config.Some?
    ensures config.Some? ==>
      var c := config.value;
      req.config.value == LoadConfig(c.dynamic, c.shapeMutable, c.rearrange, c.backendInfoType, c.backendInfoConfig)
  {
    var inputNames := ParseCStrings(inputs, inputCount);
    var outputNames := ParseCStrings(outputs, outputCount);
    var cfg: Option<LoadConfig> := None;
    if config.Some? {
      var c := config.value;
      cfg := Some(LoadConfig(c.dynamic, c.shapeMutable, c.rearrange, c.backendInfoType, c.backendInfoConfig));
    }
    var shared: Option<SharedManager> := None;
    if mgr != NULL {
      shared := Some(SharedManager(mgr, false));
    }
    req := LoadRequest(inputNames, outputNames, source, shared, cfg);
  }
}
