# MNN C binding layer, modelled in Dafny

This project models the C binding layer that mnn.dart puts over the MNN
tensor engine. Almost every exported function forwards to MNN. The binding's
own behaviour is what is modelled:

- how it boxes C++ objects behind opaque handles, and when a handle is
  owned or borrowed;
- its null guards, and how it maps exceptions and booleans onto
  `mnn_error_code_t`;
- the optional completion callback;
- how it exports names and tensors as parallel arrays;
- its small parsers and index arithmetic.

Every call into MNN is a parameter of type `Outcome<T>`. The engine either
returns a value or throws. The contracts then state what the binding does
with each outcome.

The modules follow the source files:

| module | file | form |
|---|---|---|
| `Common` | error codes, `Option`, `Outcome`, handles, `Cell<T>` for a `T *out` parameter, the null-safe `delete` | values |
| `OrderedMap` | `std::map<std::string, V>` as a strictly ascending association list | values and lemmas |
| `StdVec` | `src/stdvec.h`: the boxed `std::vector` bridge | class `Vec` |
| `Expr` | `src/expr.cpp`: VARP / EXPRP boxes, VecVARP, VecWeakEXPRP, VARMAP, Variable info | class `Bridge`, a handle table plus the observable part of the engine's graph |
| `TensorApi` | `src/tensor.cpp` | pure data-type maps; class `Tensor` for the mutating calls |
| `InterpreterApi` | `src/interpreter.cpp` | methods returning the code, the callback count and what reached the engine |
| `ModuleApi` | `src/module.cpp` | `parse_c_strings` loop, export loops, class `Module`, class `Boxes` |
| `ImageProcessApi` | `src/image_process.cpp` | config-building loops, point copy loops, class `Processes` |
| `Cv` | `src/cv.cpp` | `getExt` and writer checks as functions; quality scan, encoder dispatch and NV21 loops as methods |
| `StbImage` | `src/mnn_stb_image.cpp` | in-place array methods |

Some conventions hold throughout:

- A nullable pointer is an `Option`, a nullable reference (`array?`,
  `Cell?`, `Module?`, `Tensor?`) or a `Handle` whose null is 0.
- Floats are carried as `bv32` bit patterns, because the binding only
  copies them.
- The float arithmetic that MNN or stb does is a function-typed parameter.
  This covers the YUV formulas, the matrix mapping and the per-channel
  add/sub/mul/div.
- Where a `std::vector::at` would throw, the model returns `None` or `false`.

`src/tensor.cpp` returns unprefixed codes: `INVALID_VALUE`, `BOOL_TRUE`,
`BOOL_FALSE`, `UNKNOWN_ERROR`, `NO_ERROR` and `MNN_INVALID_PTR`. These names
are not declared in `src/error_code.h`. The model gives them the values of
the `MNNC_` codes with the same suffix: 5, 100, 101, 102, 0 and 103.

## Model

| member | source | states |
|---|---|---|
| Common.BoolCode | src/interpreter.cpp:224 | The engine's boolean becomes BOOL_TRUE exactly when it is true, and BOOL_FALSE otherwise. |
| Common.DeleteBox | src/image_process.cpp:9-11 | Deleting the null handle changes nothing. Deleting a live box removes that box and no other. |
| OrderedMap.Keys | src/expr.cpp:69-72 | One key per entry, in the map's iteration order. |
| OrderedMap.Values | src/interpreter.cpp:349-353 | One value per entry, in the same order as the keys. |
| OrderedMap.Lookup | src/expr.cpp:76-77 | `find` succeeds exactly when some entry has the key, and it yields that entry's value. |
| OrderedMap.AssignEntries | src/expr.cpp:86 | After `m[key] = value` the map holds `(key, value)`, and every other entry was already there. |
| OrderedMap.AssignSorted | src/expr.cpp:86 | Assignment keeps the keys strictly ascending. |
| OrderedMap.LookupAssignSame | src/expr.cpp:86 | Reading back the assigned key yields the assigned value. |
| OrderedMap.LookupAssignOther | src/expr.cpp:86 | Assigning one key leaves the value of every other key unchanged. |
| OrderedMap.AssignSize | src/expr.cpp:86 | The size grows by one exactly when the key was absent. |
| OrderedMap.LookupAt | src/module.cpp:76-80 | In a map with ascending keys, the key of entry i finds the value of entry i, so keys and values are exported in parallel. |
| StdVec.Resized | src/stdvec.h:33 | `resize(n)` has length n, keeps the first min(old, n) elements and zero-fills any growth. |
| StdVec.Vec.New | src/stdvec.h:19 | `length` value-initialised (zero) elements. |
| StdVec.Vec.NewFilled | src/stdvec.h:20 | `length` copies of `val`. |
| StdVec.Vec.NewFromBuffer | src/stdvec.h:21-23 | Exactly `val_ptr[0 .. length)`. |
| StdVec.Vec.Length | src/stdvec.h:32 | The number of elements. |
| StdVec.Vec.Get | src/stdvec.h:25 | Defined exactly for an index below the length, and then the element at that index. |
| StdVec.Vec.Set | src/stdvec.h:26 | Succeeds exactly for an index below the length. It changes only that element and otherwise changes nothing. |
| StdVec.Vec.PushBack | src/stdvec.h:24 | The old elements, followed by `val`. |
| StdVec.Vec.Resize | src/stdvec.h:33 | The elements become `Resized(old, n)`. |
| StdVec.Vec.Reserve | src/stdvec.h:34 | The contents are unchanged, and the capacity is at least `new_len`. |
| StdVec.Vec.ShrinkToFit | src/stdvec.h:36 | The contents are unchanged, and the capacity equals the length. |
| StdVec.Vec.Clear | src/stdvec.h:35 | No elements remain, and the capacity is kept. |
| StdVec.Vec.Extend | src/stdvec.h:37-39 | `self` becomes old `self` followed by `other`, in order, and `other` is unchanged. |
| StdVec.Vec.Clone | src/stdvec.h:28 | A fresh box with equal contents. |
| StdVec.CloneIndependence | src/stdvec.h:28 | For any calls made on the clone and any made on the original (push_back, set, resize, reserve, shrink_to_fit, clear), each box ends with the contents its own calls give from the cloned contents: neither sees the other's changes. |
| Expr.ExportInfo | src/expr.cpp:131-138 | `ndim` is the number of dimensions, and `dim` is an element-wise copy of them. Order, type and size are copied. |
| Expr.Release | src/expr.cpp:19-21 | A free of null changes nothing. Any other handle is removed, and only it. |
| Expr.Bridge.VecVarCreate | src/expr.cpp:14-17 | A new owned vector of `length` copies of `*value`, or of empty VARPs when `value` is null. No other container changes. |
| Expr.Bridge.VecVarFree | src/expr.cpp:19-23 | A no-op on null. Otherwise exactly that vector is released. |
| Expr.Bridge.VecVarAt | src/expr.cpp:24 | Defined exactly for an index in range. The result is a new owned box that shares element i. |
| Expr.Bridge.VecVarAtRef | src/expr.cpp:25 | A borrowed pointer into the vector, not a box, that dereferences to element i. It stays valid until the vector next grows. |
| Expr.Bridge.VecVarSet | src/expr.cpp:26 | Replaces only element i, and only for an index in range. |
| Expr.Bridge.VecVarPushBack | src/expr.cpp:27 | Appends `*value`. Every slot pointer borrowed from that vector before the call no longer dereferences, since growing may move the elements. Nothing else changes. |
| Expr.Bridge.VecVarSize | src/expr.cpp:28 | The number of elements. |
| Expr.Bridge.WeakVecAdopt | src/expr.cpp:215-218 | A new owned box around the engine's list of weak references. |
| Expr.Bridge.WeakVecFree | src/expr.cpp:30-34 | A no-op on null. Otherwise exactly that vector is released. |
| Expr.Bridge.WeakVecAt | src/expr.cpp:35-39 | Null exactly when the weak reference has expired. Otherwise a new strong box to the live Expression. |
| Expr.Bridge.WeakVecSet | src/expr.cpp:40-42 | Stores a weak reference to `*value` at index i only. |
| Expr.Bridge.WeakVecPushBack | src/expr.cpp:43-45 | Appends a weak reference to `*value`. |
| Expr.Bridge.WeakVecSize | src/expr.cpp:46 | The number of elements. |
| Expr.Bridge.InfoFree | src/expr.cpp:48-55 | A no-op on null. Otherwise exactly that info struct is released. |
| Expr.Bridge.VarMapCreate | src/expr.cpp:57-59 | A new, empty map box. |
| Expr.Bridge.VarMapFree | src/expr.cpp:60-64 | A no-op on null. Otherwise exactly that map is released. |
| Expr.Bridge.VarMapSize | src/expr.cpp:65 | The number of entries. |
| Expr.Bridge.VarMapKeys | src/expr.cpp:66-74 | Exactly `size()` keys, each present in the map, strictly ascending. |
| Expr.Bridge.VarMapGet | src/expr.cpp:75-79 | Null exactly for a missing key. Otherwise a new owned box sharing the stored VARP. |
| Expr.Bridge.VarMapGetRef | src/expr.cpp:80-84 | Null exactly for a missing key. Otherwise a borrowed pointer that dereferences to the stored VARP. |
| Expr.Bridge.VarMapSet | src/expr.cpp:85-87 | Afterwards `get(key)` yields `*value`, and every other key reads as before. |
| Expr.Bridge.VarCreateEmpty | src/expr.cpp:89 | A new owned box holding an empty VARP. |
| Expr.Bridge.VarCreateCopy | src/expr.cpp:90 | A new owned box sharing `*other`. |
| Expr.Bridge.VarFree | src/expr.cpp:91-96 | A no-op on null. Otherwise exactly that box is released. |
| Expr.Bridge.VarGetInfo | src/expr.cpp:126-140 | Null exactly for a null handle or unavailable info. Otherwise a new owned struct equal to `ExportInfo` of the engine's info. |
| Expr.Bridge.VarGetExpr | src/expr.cpp:156-162 | `index` is the Variable's output slot, and `expr` is a new owned box around its Expression. |
| Expr.Bridge.VarCreateFromExpr | src/expr.cpp:172-174 | A new owned box around a new Variable that denotes output `index` of `*expr`. |
| Expr.Bridge.ExprCreateEmpty | src/expr.cpp:224 | A new owned box holding an empty EXPRP. |
| Expr.Bridge.ExprFree | src/expr.cpp:250-254 | A no-op on null. Otherwise exactly that box is released. |
| Expr.Bridge.EngineDrops | src/expr.cpp:35-39 | The engine can drop an Expression only when no box holds it. Afterwards every weak reference to it reads as expired. |
| TensorApi.DataTypeFromHalide | src/tensor.cpp:72-101 | DT_INVALID exactly for (code, bits) pairs outside uint 8/16, int 8/16/32/64, float 32/64 and bfloat 16. |
| TensorApi.HalideFromDataType | src/tensor.cpp:47-70 | The result always has one lane and a known reverse image. FLOAT, INT32, UINT8, INT8, UINT16, INT16 and BFLOAT16 round-trip. DOUBLE comes back as FLOAT. INT64, BOOL and QINT32 come back as INT32. The quantized types come back as their storage type. Everything else is float32. |
| TensorApi.HalideRoundTrip | src/tensor.cpp:47-101 | A known single-lane halide type survives the reverse round trip, except that 64-bit types come back as 32-bit. |
| TensorApi.Ask | src/tensor.cpp:186-244 | The sentinel for a null handle (-1, or 2^64-1 for the unsigned accessors). -1 for a negative stride or length index. Otherwise the tensor's own answer for every query: its rank, the stride or length at the index, its size, element size and device id. Width, height, channel and batch are the lengths at the dimensions the tensor's dimension order assigns them (NHWC for TENSORFLOW, NCHW for CAFFE and CAFFE_C4). |
| TensorApi.SetStride | src/tensor.cpp:246-248 | A no-op on null or a negative index. Otherwise only that stride changes: the lengths, dimension order, host buffer, size, element size and device id are unchanged. |
| TensorApi.SetLength | src/tensor.cpp:250-252 | A no-op on null or a negative index. Otherwise only that length changes among the lengths; the strides, dimension order, host buffer and device id are unchanged. The size and element size are left free, and any of width, height, channel or batch read from that dimension now reports the new length. |
| TensorApi.Shape | src/tensor.cpp:191-198 | INVALID_VALUE, writing nothing, exactly for a null argument or `shape_size` below the rank. Otherwise `shape[i] == length(i)` for every dimension, and later entries are untouched. |
| TensorApi.SetImageF32 | src/tensor.cpp:347-356 | INVALID_PTR exactly on a null argument. INVALID_VALUE, writing nothing, exactly when the width, height or channel the tensor reports differs from the arguments. Otherwise exactly `w*h*c` floats are copied at offset `index*w*h*c`, and the rest of the buffer is untouched. |
| TensorApi.HostCopyCode | src/tensor.cpp:165-183 | INVALID_VALUE exactly when a tensor is null. Otherwise BOOL_TRUE or BOOL_FALSE by the engine's result, and UNKNOWN_ERROR when it threw. |
| TensorApi.DeviceCallCode | src/tensor.cpp:320-335 | INVALID_PTR exactly for a missing pointer. Otherwise NO_ERROR, or UNKNOWN_ERROR when the engine threw. |
| TensorApi.CreateGuarded | src/tensor.cpp:121-149 | The engine is called exactly when the shape is present and non-empty and, for `create_with_data`, the data pointer is present. It then receives `shape[0 .. shape_size)` and the dimension order. The result is null when the engine is not called or throws, and otherwise the engine's tensor. |
| TensorApi.CopyAt | src/tensor.cpp:353-354 | `data[0 .. n)` lands at `host[off .. off + n)`, and the rest of the host buffer is untouched. |
| TensorApi.Derive | src/tensor.cpp:157-163 | Null exactly for a null source or an exception. Otherwise the engine's tensor. `create_from_tensor` (lines 112-119) has the same guard. |
| InterpreterApi.CreateInterpreter | src/interpreter.cpp:21-30 | The engine's interpreter, or null when it threw. The callback runs once on both paths. |
| InterpreterApi.CreateSession | src/interpreter.cpp:152-187 | Null without an engine call when self or config is null. The engine receives a copy of the backend config exactly when one was supplied. The temporary leaks exactly when the engine throws. The callback runs once on every path. |
| InterpreterApi.CreateSessionWithRuntime | src/interpreter.cpp:189-212 | Also guards `runtime`. The caller's backend config is passed as it is, and mode is left unset. The callback runs once on every path. |
| InterpreterApi.ReleaseSession | src/interpreter.cpp:214-229 | INVALID_PTR exactly when no call is made (a null handle). Otherwise BOOL_TRUE or BOOL_FALSE, or UNKNOWN_ERROR on an exception. The callback runs once on every path. |
| InterpreterApi.ResizeSession | src/interpreter.cpp:231-246 | INVALID_PTR exactly on a null handle. Otherwise NO_ERROR, or UNKNOWN_ERROR on an exception. The callback runs once on every path. |
| InterpreterApi.RunSession | src/interpreter.cpp:248-263 | INVALID_PTR on a null handle. Otherwise the engine's own code, or UNKNOWN_ERROR on an exception. The callback runs once on every path. |
| InterpreterApi.SessionTensor | src/interpreter.cpp:266-282 | Null for a null handle or an exception. Otherwise the engine's tensor. |
| InterpreterApi.SessionInfoCode | src/interpreter.cpp:298-310 | INVALID_PTR exactly for a missing pointer. NO_ERROR exactly when the engine returned true. UNKNOWN_ERROR otherwise. |
| InterpreterApi.SessionTensorsAll | src/interpreter.cpp:312-356 | INVALID_PTR exactly when a pointer argument is null. UNKNOWN_ERROR on an exception. In both cases nothing is written. Otherwise `*count` is the map size, and the new `tensors` and `names` arrays are parallel, in ascending name order. |
| InterpreterApi.ResizeTensorGuardAsWritten | src/interpreter.cpp:361 | The guard as written lets a call through exactly when the tensor and dims are present and the count is positive, whatever `self` is. |
| InterpreterApi.ResizeTensorNullSelfProceeds | src/interpreter.cpp:361 | The guard as written lets a null interpreter through. |
| InterpreterApi.ResizeTensor | src/interpreter.cpp:358-367 | INVALID_PTR exactly for a null interpreter, tensor or dims, or a non-positive count. Otherwise the engine receives `dims[0 .. dim_count)`, and the result is NO_ERROR or UNKNOWN_ERROR. |
| InterpreterApi.ResizeTensorNCHW | src/interpreter.cpp:369-377 | INVALID_PTR exactly for a null interpreter or tensor. Otherwise the engine receives (batch, channel, height, width). |
| InterpreterApi.CreateRuntime | src/interpreter.cpp:130-145 | The engine receives one schedule config per input config, in order, field by field. The result is null exactly when the engine threw. |
| InterpreterApi.GetModelBuffer | src/interpreter.cpp:101-111 | 0 without writing for a null self or buffer. Null and 0 on an exception. Otherwise the engine's pointer and size. |
| ModuleApi.NonNullSnoc | src/module.cpp:239-241 | One more entry adds its string at the end if it is present, and nothing otherwise. |
| ModuleApi.NonNullMembers | src/module.cpp:240 | A string survives the filter exactly when some entry holds it. No more strings come out than went in. |
| ModuleApi.NonNullOrder | src/module.cpp:239-241 | Each present entry's string follows everything the entries before it contributed. |
| ModuleApi.ParseCStrings | src/module.cpp:236-244 | Empty for a null array or a non-positive count. Otherwise the non-null entries among the first `count`, in order. |
| ModuleApi.InputAt | src/module.cpp:24-36 | `ndim` is the input's dimension count, and `dim` is an element-wise copy. |
| ModuleApi.ExportNames | src/module.cpp:44-51 | Returns `len` always. A new array of the first `len` names is written only when the out-pointer is present. |
| ModuleApi.InputNames | src/module.cpp:44-51 | The count is the number of inputs, and that many input names are exported. |
| ModuleApi.OutputNames | src/module.cpp:53-60 | Every output name is exported, and the count is their number. |
| ModuleApi.Metadata | src/module.cpp:68-83 | Returns the entry count always. Only when both out-pointers are present are new key and value arrays written, in parallel and in ascending key order. When both out-pointers are the same cell, that cell ends up holding a new array of the values. |
| ModuleApi.GetName | src/module.cpp:349-352 | Null exactly for a null module. Otherwise its name. |
| ModuleApi.SetName | src/module.cpp:354-356 | A no-op on null. Otherwise only the name changes. |
| ModuleApi.GetType | src/module.cpp:358-361 | Null exactly for a null module. Otherwise its type. |
| ModuleApi.SetType | src/module.cpp:363-365 | A no-op on null. Otherwise only the type changes. |
| ModuleApi.AddParameter | src/module.cpp:367-370 | -1 without an engine call for a null module or parameter. Otherwise the engine's index. |
| ModuleApi.SetParameter | src/module.cpp:372-375 | Nothing reaches the engine for a null module or parameter. Otherwise the parameter and index are passed on. |
| ModuleApi.GetInfo | src/module.cpp:377-382 | Null exactly for a null module or a module without info. Otherwise a copy of the info. |
| ModuleApi.Forward | src/module.cpp:384-417 | INVALID_PTR exactly when the module is not called (a null argument). NO_ERROR with the output written, or UNKNOWN_ERROR with nothing written. The callback runs once on every path. |
| ModuleApi.GetIsTraining | src/module.cpp:420-423 | True exactly for a non-null module in training mode. |
| ModuleApi.SetIsTraining | src/module.cpp:425-427 | A no-op on null. Otherwise only the training flag changes. |
| ModuleApi.IsBackendSupport | src/module.cpp:197-205 | False for a null manager. Otherwise the engine's answer. |
| ModuleApi.Boxes.Destroy | src/module.cpp:17-22 | A no-op on null. Otherwise exactly that box is released. The same holds for the executor (104-108), scope (154-158) and module (339-341) destroys. |
| ModuleApi.Load | src/module.cpp:247-286 | The names are the non-null entries of the two arrays. A config reaches the engine exactly when one was supplied, field by field. A supplied runtime manager is shared without ownership, so loading never destroys it. |
| ImageProcessApi.CopyCapped | src/image_process.cpp:244-246 | Copies only when the pointer is present and the count positive, and then only slots below min(count, 4). Other slots keep their values. |
| ImageProcessApi.BuildConfig | src/image_process.cpp:238-250 | The enumerations are passed as given. Each mean and normal slot is the caller's value below min(count, 4), and the default otherwise. |
| ImageProcessApi.ConfigFromC | src/image_process.cpp:259-268 | All four means and normals, and every field, are copied. |
| ImageProcessApi.MapPoints | src/image_process.cpp:110-122 | Exactly `count` points are mapped and written out, even when `dst` is `src`. Later points are untouched. The result is true whenever the call returns. A negative `count` throws (`std::length_error`) and writes nothing. |
| ImageProcessApi.MapPointsInPlace | src/image_process.cpp:124-132 | Exactly the first `count` points are replaced by their images. A negative `count` throws (`std::length_error`) and leaves the points unchanged. |
| ImageProcessApi.CopyIn | src/image_process.cpp:112-114 | The copy-in loop: a new vector holding exactly the first `count` points. |
| ImageProcessApi.CopyOut | src/image_process.cpp:116-119 | The copy-out loop: the first `count` destination points become the mapped points. Later points are untouched. |
| ImageProcessApi.Processes.Adopt | src/image_process.cpp:251-253 | A new box owning the new process. No other box changes. |
| ImageProcessApi.Processes.DestroyProcess | src/image_process.cpp:274-280 | A no-op on null. Otherwise the box's process is destroyed (reset) and the box is released. |
| ImageProcessApi.Processes.DestroyMatrix | src/image_process.cpp:9-11 | A no-op on null. Otherwise exactly that matrix box is released. |
| ImageProcessApi.Processes.SetMatrix | src/image_process.cpp:287-292 | INVALID_PTR, changing nothing, exactly when self or matrix is null. Otherwise NO_ERROR, and the process takes the matrix. |
| Cv.LastDot | src/cv.cpp:29 | The position of the last '.', or none when the name has no '.'. |
| Cv.ExtStart | src/cv.cpp:29 | `rfind('.') + 1` in `size_t`, which wraps to 0 without a '.'. It never passes the end. |
| Cv.LowerChar | src/cv.cpp:30 | `tolower`: letters A-Z become a-z, and everything else is kept. |
| Cv.Lower | src/cv.cpp:30 | Same length, and lower-cased character by character. |
| Cv.GetExt | src/cv.cpp:28-32 | The lower-cased suffix with no '.' in it, preceded by '.' when shorter than the name. It is the whole name when the name has no '.'. |
| Cv.GetExtOfJoined | src/cv.cpp:28-32 | The extension of `base + "." + e` is `e` lower-cased, whatever `base` holds. |
| Cv.WriterForJoined | src/cv.cpp:136-144 | A writer exists exactly when the lower-cased text after the last '.' is jpg, jpeg, png or bmp. |
| Cv.QualityFirstPairWins | src/cv.cpp:163-169 | The value of the first (key, value) pair whose key is IMWRITE_JPEG_QUALITY wins. |
| Cv.QualityDefault | src/cv.cpp:163-169 | Without that key the quality is 95. |
| Cv.JpegQuality | src/cv.cpp:212-218 | The loop computes exactly the pairwise scan `QualityFrom`. |
| Cv.Imwrite | src/cv.cpp:210-227 | An encoder is used exactly when a writer exists: JPEG with the scanned quality, PNG or BMP. The result is that encoder's result, and false for any other extension. |
| Cv.ByteSink.Write | src/cv.cpp:23-26 | Appends `data[0 .. size)` to the sink. |
| Cv.ImencodeAsWritten | src/cv.cpp:159-186 | As written, the JPEG encoder always runs. For png or bmp the output is the JPEG bytes followed by that encoder's bytes, and the result is the later encoder's. |
| Cv.EncodersAsWritten | src/cv.cpp:160-184 | Once the extension is known, as written: the JPEG bytes always come first, a png or bmp request appends that encoder's bytes, and the last encoder's flag is the result. |
| Cv.ImencodePngGetsJpegPrefix | src/cv.cpp:162 | Runs the version as written on "x.png" with a two-byte JPEG stream and a one-byte PNG stream: the output is all three bytes, JPEG first, which differs from the intended output. |
| Cv.Imencode | src/cv.cpp:159-186 | Corrected: exactly the encoder that `Imwrite` would use runs (JPEG for jpg and jpeg, PNG for png, BMP for bmp), and the output holds only its bytes. Otherwise the result is false with no bytes. |
| Cv.ImencodeAsWrittenAgrees | src/cv.cpp:159-186 | The version as written yields the intended bytes exactly when the extension is jpg or jpeg, or the JPEG encoder writes nothing. |
| Cv.ImageOrNull | src/cv.cpp:188-196 | Null when the decoder returned null. Otherwise the Variable built from the pixels. `imdecode` (lines 145-153) is the same. |
| Cv.Clamp | src/cv.cpp:84-86 | Always in [0, 255]. Values in range are kept, negatives become 0, and values above 255 become 255. |
| Cv.PixelIndex | src/cv.cpp:89 | Pixel (i, j) has the in-range index `i*w + j`, whose row and column are i and j. |
| Cv.RowLayout | src/cv.cpp:90-92 | Within a row, pixel j holds bytes 3j, 3j+1 and 3j+2. |
| Cv.Layout | src/cv.cpp:89-92 | In the whole image, pixel (i, j) channel c sits at `3*(i*w+j)+c`, in B, G, R order. |
| Cv.Decompose | src/cv.cpp:89-92 | Every output position is channel c of exactly one pixel (i, j), so every byte is written once. |
| Cv.RowsAreOutBytes | src/cv.cpp:69-95 | The row-by-row image equals the position-wise definition `OutByte`. |
| Cv.OutByteAt | src/cv.cpp:89-92 | `OutByte` at `3*(i*w+j)+c` is channel c of pixel (i, j). |
| Cv.RecomputedIndex | src/cv.cpp:89 | `rgbaIndex % width + i * width` gives back the running index at pixel (i, j). This is stated in `Cv.PixelStep`. |
| Cv.PixelStep | src/cv.cpp:71-92 | At pixel (i, j) every read is in bounds, and the three stored bytes are the image's bytes for that pixel. |
| Cv.StorePixel | src/cv.cpp:90-92 | The three stores change exactly bytes `3p`, `3p+1` and `3p+2`, to B, G and R. |
| Cv.Nv21ToBgr | src/cv.cpp:61-100 | A fresh buffer of `w*h*3` bytes, every one of them `OutByte`: the clamped B, G, R of its pixel, with U read first. |
| Cv.ChromaBound | src/cv.cpp:71-75 | For even width and height, every chroma read `w*h + nvIndex (+1)` is below `3*w*h/2`. |
| Cv.FrameSizeSuffices | src/cv.cpp:63-75 | So a frame of `3*w*h/2` bytes with even dimensions keeps every read of the loop in bounds. |
| StbImage.PlanarCoordinates | src/mnn_stb_image.cpp:10 | After flattening, `new[c*P + i] == old[i*C + c]`. |
| StbImage.InterleavedPlanar | src/mnn_stb_image.cpp:9-14 | Interleaving the flattened bytes gives back the original first `P*C` bytes, so flattening loses nothing. |
| StbImage.PlanarInterleaved | src/mnn_stb_image.cpp:9-14 | Flattening is also a right inverse. Together with the row above, it is a bijection (a permutation) of the first `P*C` bytes. |
| StbImage.PlanarSingleChannel | src/mnn_stb_image.cpp:9-14 | With one channel, flattening is the identity. |
| StbImage.Flatten | src/mnn_stb_image.cpp:3-17 | 0 on null. Otherwise 1, the first `P*C` bytes become `Planar` of the old ones, and later bytes are untouched. |
| StbImage.FlattenPixels | src/mnn_stb_image.cpp:5-15 | With `pixel_count` known, the first `P*C` bytes become `Planar` of the old ones through the temporary, and later bytes are untouched. |
| StbImage.FillPlanar | src/mnn_stb_image.cpp:8-11 | The nested copy loops fill the temporary with exactly the planar rearrangement of the buffer. |
| StbImage.ApplyPerChannel | src/mnn_stb_image.cpp:24-26 | Element `k < P*C` becomes `op(old, value[k % C])`, which is channel c of pixel i at `i*C + c`. Later elements are untouched. |
| StbImage.ChannelArith | src/mnn_stb_image.cpp:19-28 | Add, sub and mul: 0, changing nothing, on a null pointer. Otherwise 1 with the per-channel update. |
| StbImage.HasZeroDivisor | src/mnn_stb_image.cpp:44-48 | True exactly when one of the first `channels` divisors is +0 or -0. |
| StbImage.Div | src/mnn_stb_image.cpp:41-55 | 0, changing nothing, on a null pointer or a zero divisor. Otherwise 1 with the per-channel division. |

## Left out

- `src/expr_op.cpp`: about 150 forwards to MNN operator builders, whose numerics belong to MNN.
- `src/expr.cpp`: the VARP arithmetic, comparison, load, save, compute, map and name calls are foreign. Only the boxes and containers are modelled.
- `std_XX_free` and `std_XX_data` (src/stdvec.h:27, 31) are left out. `delete` of a raw pointer, and a raw pointer into the vector, have no contract beyond the allocator.
- Matrix numerics and the point mapping itself are left out. `MapPoints` takes the mapping as a function.
- The engine's default `ImageProcess::Config` values are a parameter of `BuildConfig`, because they are not visible here.
- `mnn_tensor_host`, `_buffer`, `_map`, `_unmap`, `_print`, `_get_type`, `_get_dimension_type`, `_get_handle_data_type`, `_set_type`, `_destroy` and `_create` are left out. Each is a null guard around a foreign call, of the shapes `Ask` and `Derive` already state.
- The interpreter's `destroy`, `biz_code`, `uuid`, `set_cache_file`, `set_external_file`, `update_cache_file`, `set_session_hint`, `release_model`, `get_model_version`, `update_session_to_model`, `set_session_mode` and `get_backend` are left out. They are null guards around foreign calls, of the same shape as `RunSession` or `SessionTensor`.
- Executor lazy mode, garbage collection, the executor-scope stack and RuntimeManager internals are left out. This state lives inside MNN. Only the null-safe destroys are modelled, in `Boxes.Destroy`.
- `mnn_module_extract`, `_clone`, `_load_parameters` and `_clear_cache` are unguarded forwards and are left out.
- The YUV coefficients are floating point, so `Nv21ToBgr` takes the conversion as a parameter and proves the layout and the clamp. The `flags` colour conversion afterwards is foreign.
- Nv21ToBgr: the allocation size `sizeof(uint8_t) * width * height * 3` is computed in `size_t`, but `nvStart = width * height`, `i / 2 * width + j - j % 2`, `rgbaIndex % width + i * width` and `index * 3 + k` are computed in 32-bit `int` in the source. The model uses unbounded integers and assumes none of these overflows.
- Nv21ToBgr: the source reads out of bounds for some dimensions. Its precondition `ReadsInBounds` excludes those inputs rather than modelling the out-of-bounds reads.
- Imwrite: the uint8 cast and the BGR-to-RGB conversion before encoding are foreign and are not modelled. The encoders are parameters.
- Imencode: an encoder's output is modelled as a single `writeFunc` chunk rather than several.
- The `cv.cpp` filter, draw, geometric, colour, codec and contour wrappers are foreign. `drawContours` and `fillPoly` index a vector that was only reserved, which is undefined behaviour.
- ApplyPerChannel: the float add, sub, mul and div are parameters.
- The stb buffers are `stbi_uc*` reinterpreted as `float*`. The model takes a float array directly.
- TensorApi.SetLength: says nothing about the size and element size afterwards. MNN computes them from the lengths, and that computation is not part of this model.
- Flatten, FlattenPixels, FillPlanar, ApplyPerChannel, ChannelArith, Div, TensorApi.SetImageF32, TensorApi.CopyAt: `width * height`, `pixel_count * channels`, `i * channels + c` and `index * width * height * channel` are computed in 32-bit `int` in the source. The model uses unbounded integers and assumes no overflow.
- TensorApi.Ask, TensorApi.SetImageF32: the rule that picks the dimension for width, height, channel and batch is MNN's `Tensor` accessor, which is not part of this model. It is written out in `Axis`. A query for an image axis on a tensor whose rank does not reach that dimension reads past the tensor's dimensions in MNN. The model requires that dimension to exist, and `SetImageF32` requires rank four.
- ApplyPerChannel, ChannelArith, Div: a `value` array that overlaps `data` is not modelled. Dafny arrays cannot point into the middle of one another, and `requires` excludes `value` being `data` itself. In the source, later pixels would then read operands already updated by the loop, and in `mnn_stbi_divide_f32` a divisor checked non-zero by the scan could become zero before it is used.
- Flatten, ApplyPerChannel, ChannelArith, Div: every 0 result goes through `stbi__err`, which, with `STBI_FAILURE_USERMSG` defined, also records a failure reason that `stbi_failure_reason` returns. The model keeps only the 0 result, not the reason.
- Flatten, ApplyPerChannel, ChannelArith, Div: a negative `width*height` or negative channels are excluded by `requires`. In the source these make the loops empty or the allocation undefined. Width and height both negative give a positive pixel count and are modelled.
- ModuleApi.InputNames: requires at least as many input names as inputs. The source indexes `inputNames` by the input count without checking.
- InterpreterApi.CreateSession: the backend-config leak on an exception is reported in `leaked`, not corrected.
- Timers (`src/autotime.cpp`), the platform allocator (`src/base.cpp`) and the test program are left out.

## Findings

| source | as written | input that shows it | evidently intended | confidence | as-written member | corrected member |
|---|---|---|---|---|---|---|
| src/cv.cpp:162 | `_ext == "jpg" \|\| "jpeg"` is always true, so the JPEG encoder always runs. For png or bmp the buffer gets the JPEG bytes followed by the requested encoder's bytes. | `ext = "png"`, any image: the output starts with the JPEG stream | `_ext == "jpg" \|\| _ext == "jpeg"`, as in `mnn_cv_imwrite` (line 211): only the requested encoder runs | high, not executed | Cv.ImencodeAsWritten, Cv.ImencodePngGetsJpegPrefix | Cv.Imencode |
| src/interpreter.cpp:361 | The guard of `mnn_interpreter_resize_tensor` checks `tensor`, `dims` and `dim_count`, but not `self`. | `self = NULL`, a valid tensor, `dims = {1}`, `dim_count = 1`: the guard passes and `self` is dereferenced | also return MNNC_INVALID_PTR for a null `self`, as `resize_tensor_1` (line 372) does | medium, not executed | InterpreterApi.ResizeTensorGuardAsWritten, InterpreterApi.ResizeTensorNullSelfProceeds | InterpreterApi.ResizeTensor |

The NV21 conversion reads the first chroma byte as U (src/cv.cpp:74-75), which is NV12 order despite the function's name. It is modelled as written.
