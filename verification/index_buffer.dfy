/**
  openrndr's `IndexBufferGL3`: a GPU index buffer with a one-way `isDestroyed`
  flag, as a state record whose operations are pure transitions over the driver
  state of `GLDriver`. An operation returns the driver state it leaves behind and
  either its value or the exception it throws; a thrown exception undoes no
  driver call made before it.
 */
module IndexBuffers {
  import opened GLDriver

  /** The element type: the two entries the size lookup knows, and any other entry. */
  datatype IndexType = INT16 | INT32 | OtherIndexType

  /** The exceptions: "buffer is destroyed" and "unsupported size". */
  datatype Error = BufferIsDestroyed | UnsupportedSize

  datatype Result<T> = Ok(value: T) | Err(error: Error)

  /** The driver state an operation leaves behind, and what it returned or threw. */
  datatype Step<T> = Step(gl: GL, result: Result<T>)

  /** The Kotlin object: its buffer handle, its element type and the destroyed flag. */
  datatype IndexBufferGL3 = IndexBufferGL3(buffer: int, indexType: IndexType, isDestroyed: bool)

  /** The `IndexType.sizeInBytes` extension: bytes per index. */
  function SizeInBytes(t: IndexType): (r: Result<Int32>)
    ensures r.Ok? <==> t == INT16 || t == INT32
    ensures t == INT16 ==> r == Ok(2)
    ensures t == INT32 ==> r == Ok(4)
    ensures r.Err? ==> r.error == UnsupportedSize
  {
    match t
    case INT16 => Ok(2)
    case INT32 => Ok(4)
    case _ => Err(UnsupportedSize)
  }

  /**
    `type.sizeInBytes * elementCount` as written: a Kotlin `Int` product, so it
    wraps around before it is widened to the `Long` the driver receives.
   */
  function RequestedBytes(size: Int32, elementCount: Int32): (r: Int32)
    ensures (size * elementCount - r) % TwoTo32 == 0
    ensures -0x8000_0000 <= size * elementCount < 0x8000_0000 ==> r == size * elementCount
  {
    WrapInt32(size * elementCount)
  }

  /**
    `IndexBufferGL3.create(elementCount, type)` as written: remember the bound
    buffer, generate a name, bind it, allocate `sizeInBytes * elementCount` bytes,
    rebind the remembered buffer, and return an object whose handle is
    `elementCount`, not the generated name. For an unsupported type the size
    lookup throws after the new name has been bound, and nothing restores the
    old binding.
   */
  function Create(gl: GL, elementCount: Int32, indexType: IndexType): (s: Step<IndexBufferGL3>)
    ensures s.result.Ok? <==> indexType == INT16 || indexType == INT32
    ensures s.result.Ok? ==> s.result.value == IndexBufferGL3(elementCount, indexType, false)
    ensures s.result.Ok? ==> s.gl.elementArrayBinding == gl.elementArrayBinding
    ensures Valid(gl) && s.result.Ok? && RequestedBytes(SizeInBytes(indexType).value, elementCount) >= 0 ==>
              s.gl.storage == gl.storage[gl.nextName := RequestedBytes(SizeInBytes(indexType).value, elementCount)]
    ensures s.result.Ok? && RequestedBytes(SizeInBytes(indexType).value, elementCount) < 0 ==> s.gl.storage == gl.storage
    ensures s.result.Err? ==> s.result.error == UnsupportedSize && s.gl.elementArrayBinding == gl.nextName
    ensures s.gl.nextName == gl.nextName + 1 && s.gl.uploads == gl.uploads
    ensures Valid(gl) ==> Valid(s.gl)
  {
    var cb := gl.elementArrayBinding;
    var (gl1, name) := GenBuffers(gl);
    var gl2 := BindBuffer(gl1, name);
    match SizeInBytes(indexType)
    case Err(e) => Step(gl2, Err(e))
    case Ok(size) =>
      var gl3 := BufferData(gl2, RequestedBytes(size, elementCount));
      Step(BindBuffer(gl3, cb), Ok(IndexBufferGL3(elementCount, indexType, false)))
  }

  /** `bind()`: refuses a destroyed buffer before touching the driver. */
  function Bind(gl: GL, b: IndexBufferGL3): (s: Step<()>)
    ensures s.result.Ok? <==> !b.isDestroyed
    ensures s.result.Ok? ==> s.gl == gl.(elementArrayBinding := b.buffer)
    ensures s.result.Err? ==> s.result.error == BufferIsDestroyed && s.gl == gl
  {
    if b.isDestroyed then Step(gl, Err(BufferIsDestroyed))
    else Step(BindBuffer(gl, b.buffer), Ok(()))
  }

  /** `unbind()`: clears the binding; it never checks the destroyed flag. */
  function Unbind(gl: GL, b: IndexBufferGL3): (r: GL)
    ensures r.elementArrayBinding == 0
    ensures r.storage == gl.storage && r.nextName == gl.nextName && r.uploads == gl.uploads
  {
    BindBuffer(gl, 0)
  }

  /** The private `bound { }` helper: `bind()`, the body, `unbind()`. */
  function Bound(gl: GL, b: IndexBufferGL3, body: GL -> GL): (s: Step<()>)
    ensures s.result.Ok? <==> !b.isDestroyed
    ensures s.result.Ok? ==> s.gl == Unbind(body(gl.(elementArrayBinding := b.buffer)), b)
    ensures s.result.Err? ==> s.result.error == BufferIsDestroyed && s.gl == gl
  {
    var bound := Bind(gl, b);
    if bound.result.Err? then Step(gl, bound.result)
    else Step(Unbind(body(bound.gl), b), Ok(()))
  }

  /**
    `write(data, offset)`: inside `bound { }`, one sub-upload that reaches this
    buffer's handle. Afterwards nothing is bound: the binding from before the
    call is not restored. A destroyed buffer throws before any upload.
   */
  function Write(gl: GL, b: IndexBufferGL3, data: seq<bv8>, offset: Int32): (s: Step<()>)
    ensures s.result.Ok? <==> !b.isDestroyed
    ensures s.result.Ok? ==> s.gl.elementArrayBinding == 0
    ensures s.result.Ok? && b.buffer != 0 ==> s.gl.uploads == gl.uploads + [Upload(b.buffer, offset, data)]
    ensures s.result.Ok? && b.buffer == 0 ==> s.gl.uploads == gl.uploads
    ensures s.result.Err? ==> s.result.error == BufferIsDestroyed && s.gl == gl
    ensures s.gl.storage == gl.storage && s.gl.nextName == gl.nextName
  {
    Bound(gl, b, g => BufferSubData(g, offset, data))
  }

  /** `destroy()`: deletes the buffer's name and sets the flag, with no guard. */
  function Destroy(gl: GL, b: IndexBufferGL3): (r: (GL, IndexBufferGL3))
    ensures r.1.isDestroyed && r.1.buffer == b.buffer && r.1.indexType == b.indexType
    ensures r.0.storage == gl.storage - {b.buffer}
    ensures r.0.elementArrayBinding == (if gl.elementArrayBinding == b.buffer then 0 else gl.elementArrayBinding)
    ensures r.0.uploads == gl.uploads && r.0.nextName == gl.nextName
  {
    (DeleteBuffers(gl, b.buffer), b.(isDestroyed := true))
  }

  /**
    `create` followed at once by `destroy()`, as written: the binding from before
    is back unless it was the name equal to `elementCount`, which `destroy()`
    deletes and so unbinds.
   */
  lemma CreateThenDestroyBinding(gl: GL, elementCount: Int32, indexType: IndexType)
    requires indexType == INT16 || indexType == INT32
    ensures var s := Create(gl, elementCount, indexType);
            Destroy(s.gl, s.result.value).0.elementArrayBinding
              == (if gl.elementArrayBinding == elementCount then 0 else gl.elementArrayBinding)
  {
  }

  /** A second `destroy()` is accepted, changes nothing more, and the flag stays set. */
  lemma DestroyTwice(gl: GL, b: IndexBufferGL3)
    ensures Destroy(Destroy(gl, b).0, Destroy(gl, b).1) == Destroy(gl, b)
  {
    var (gl1, b1) := Destroy(gl, b);
    assert gl1.storage - {b.buffer} == gl1.storage;
  }

  // ---------------------------------------------------------------------------
  // The lifecycle: any sequence of calls on one buffer object
  // ---------------------------------------------------------------------------

  /** A call a client makes on a buffer object. */
  datatype Call = CallBind | CallUnbind | CallWrite(data: seq<bv8>, offset: Int32) | CallDestroy

  /** One call; `destroy()` and `unbind()` cannot throw. */
  function Perform(gl: GL, b: IndexBufferGL3, call: Call): (r: (GL, IndexBufferGL3, Result<()>))
    ensures r.1.buffer == b.buffer && r.1.indexType == b.indexType
    ensures r.1.isDestroyed <==> b.isDestroyed || call == CallDestroy
    ensures b.isDestroyed && (call.CallBind? || call.CallWrite?) ==> r.2 == Err(BufferIsDestroyed) && r.0 == gl
    ensures r.2.Err? ==> b.isDestroyed && r.0 == gl
    ensures call.CallUnbind? || call.CallDestroy? ==> r.2 == Ok(())
  {
    match call
    case CallBind => var s := Bind(gl, b); (s.gl, b, s.result)
    case CallUnbind => (Unbind(gl, b), b, Ok(()))
    case CallWrite(data, offset) => var s := Write(gl, b, data, offset); (s.gl, b, s.result)
    case CallDestroy => var (gl1, b1) := Destroy(gl, b); (gl1, b1, Ok(()))
  }

  /** A sequence of calls; the caller catches each exception and goes on. */
  function Run(gl: GL, b: IndexBufferGL3, calls: seq<Call>): (GL, IndexBufferGL3)
    decreases |calls|
  {
    if |calls| == 0 then (gl, b)
    else
      var (gl1, b1, _) := Perform(gl, b, calls[0]);
      Run(gl1, b1, calls[1..])
  }

  /**
    The destroyed flag is one-way: after any calls the object is destroyed
    exactly when it was destroyed before or one of the calls was `destroy()`.
   */
  lemma {:induction false} DestroyedFlagIsOneWay(gl: GL, b: IndexBufferGL3, calls: seq<Call>)
    ensures Run(gl, b, calls).1.isDestroyed <==> b.isDestroyed || CallDestroy in calls
    ensures Run(gl, b, calls).1.buffer == b.buffer && Run(gl, b, calls).1.indexType == b.indexType
    decreases |calls|
  {
    if |calls| > 0 {
      var (gl1, b1, _) := Perform(gl, b, calls[0]);
      DestroyedFlagIsOneWay(gl1, b1, calls[1..]);
      assert calls == [calls[0]] + calls[1..];
    }
  }

  /**
    Once destroyed, no call uploads anything, allocates a name or gives back a
    data store: every `bind()` and `write()` throws, and `unbind()` and further
    `destroy()` calls touch only the binding and the already-freed name.
   */
  lemma {:induction false} DestroyedIsTerminal(gl: GL, b: IndexBufferGL3, calls: seq<Call>)
    requires b.isDestroyed
    ensures Run(gl, b, calls).1 == b
    ensures Run(gl, b, calls).0.uploads == gl.uploads
    ensures Run(gl, b, calls).0.nextName == gl.nextName
    ensures Run(gl, b, calls).0.storage.Keys <= gl.storage.Keys
    decreases |calls|
  {
    if |calls| > 0 {
      var (gl1, b1, _) := Perform(gl, b, calls[0]);
      assert b1 == b;
      DestroyedIsTerminal(gl1, b1, calls[1..]);
    }
  }

  /** Every upload a sequence of calls makes reaches the object's own handle. */
  lemma {:induction false} UploadsReachOwnHandle(gl: GL, b: IndexBufferGL3, calls: seq<Call>)
    ensures var uploads := Run(gl, b, calls).0.uploads;
            && |gl.uploads| <= |uploads|
            && uploads[..|gl.uploads|] == gl.uploads
            && forall i :: |gl.uploads| <= i < |uploads| ==> uploads[i].buffer == b.buffer
    decreases |calls|
  {
    if |calls| > 0 {
      var (gl1, b1, _) := Perform(gl, b, calls[0]);
      UploadsReachOwnHandle(gl1, b1, calls[1..]);
      var uploads := Run(gl, b, calls).0.uploads;
      assert |gl.uploads| <= |gl1.uploads|;
      assert gl1.uploads[..|gl.uploads|] == gl.uploads;
      assert uploads[..|gl1.uploads|] == gl1.uploads;
      assert forall i :: |gl.uploads| <= i < |gl1.uploads| ==> gl1.uploads[i].buffer == b.buffer;
    }
  }

  // ---------------------------------------------------------------------------
  // `create` as it was evidently meant, and the two discrepancies
  // ---------------------------------------------------------------------------

  /** `type.sizeInBytes.toLong() * elementCount`: the byte count computed without wrap-around. */
  function ExactBytes(size: Int32, elementCount: Int32): (r: int)
    requires size == 2 || size == 4
    ensures -0x8000_0000_0000_0000 <= r < 0x8000_0000_0000_0000
    ensures elementCount >= 0 ==> r >= 0
  {
    size * elementCount
  }

  /**
    `create` with both discrepancies removed: the object carries the generated
    name, and the byte count is computed as a `Long`.
   */
  function CreateCorrected(gl: GL, elementCount: Int32, indexType: IndexType): (s: Step<IndexBufferGL3>)
    ensures s.result.Ok? <==> indexType == INT16 || indexType == INT32
    ensures s.result.Ok? ==> s.result.value == IndexBufferGL3(gl.nextName, indexType, false)
    ensures s.result.Ok? ==> s.gl.elementArrayBinding == gl.elementArrayBinding
    ensures Valid(gl) && s.result.Ok? && elementCount >= 0 ==>
              s.gl.storage == gl.storage[gl.nextName := SizeInBytes(indexType).value * elementCount]
    ensures s.result.Err? ==> s.result.error == UnsupportedSize && s.gl.elementArrayBinding == gl.nextName
    ensures s.gl.nextName == gl.nextName + 1 && s.gl.uploads == gl.uploads
    ensures Valid(gl) ==> Valid(s.gl)
  {
    var cb := gl.elementArrayBinding;
    var (gl1, name) := GenBuffers(gl);
    var gl2 := BindBuffer(gl1, name);
    match SizeInBytes(indexType)
    case Err(e) => Step(gl2, Err(e))
    case Ok(size) =>
      var gl3 := BufferData(gl2, ExactBytes(size, elementCount));
      Step(BindBuffer(gl3, cb), Ok(IndexBufferGL3(name, indexType, false)))
  }

  /**
    With the corrected `create`, creating and immediately destroying a buffer
    leaves the binding and the allocated data stores exactly as they were.
   */
  lemma CorrectedCreateThenDestroyLeavesNoTrace(gl: GL, elementCount: Int32, indexType: IndexType)
    requires Valid(gl) && gl.elementArrayBinding != gl.nextName
    requires indexType == INT16 || indexType == INT32
    ensures var s := CreateCorrected(gl, elementCount, indexType);
            var (gl1, _) := Destroy(s.gl, s.result.value);
            gl1.elementArrayBinding == gl.elementArrayBinding && gl1.storage == gl.storage
  {
    var s := CreateCorrected(gl, elementCount, indexType);
    assert gl.nextName !in gl.storage;
    var (gl1, _) := Destroy(s.gl, s.result.value);
    assert gl1.storage == gl.storage;
  }

  /**
    With the corrected `create`, every upload through the new object reaches the
    data store that `create` allocated for it.
   */
  lemma CorrectedCreateUploadsReachOwnStore(gl: GL, elementCount: Int32, indexType: IndexType, calls: seq<Call>)
    requires Valid(gl) && elementCount >= 0
    requires indexType == INT16 || indexType == INT32
    ensures var s := CreateCorrected(gl, elementCount, indexType);
            var uploads := Run(s.gl, s.result.value, calls).0.uploads;
            && gl.nextName in s.gl.storage
            && forall i :: |gl.uploads| <= i < |uploads| ==> uploads[i].buffer == gl.nextName
  {
    var s := CreateCorrected(gl, elementCount, indexType);
    UploadsReachOwnHandle(s.gl, s.result.value, calls);
  }

  /**
    As written, `create` hands back `elementCount` as the handle. From a fresh
    context, `create(100, INT16)` allocates 200 bytes under the generated name 1,
    yet the object's writes go to name 100, which has no data store, and its
    `destroy()` frees name 100 and leaks name 1.
   */
  lemma CreateAsWrittenLosesItsBuffer()
    ensures var gl := GL(0, 1, map[], []);
            var s := Create(gl, 100, INT16);
            && s.result == Ok(IndexBufferGL3(100, INT16, false))
            && s.gl.storage == map[1 := 200]
            && Write(s.gl, s.result.value, [0, 0], 0).gl.uploads == [Upload(100, 0, [0, 0])]
            && Destroy(s.gl, s.result.value).0.storage == map[1 := 200]
  {
    var gl := GL(0, 1, map[], []);
    var s := Create(gl, 100, INT16);
    assert RequestedBytes(2, 100) == 200;
    assert s.gl.storage == map[1 := 200];
    assert s.gl.storage - {100} == map[1 := 200];
  }

  /**
    As written, the `Int` product wraps: `create(0x4000_0001, INT32)` asks the
    driver for 4 bytes instead of 0x1_0000_0004, and the driver accepts it.
   */
  lemma RequestedBytesWrapsAround()
    ensures RequestedBytes(4, 0x4000_0001) == 4
    ensures ExactBytes(4, 0x4000_0001) == 0x1_0000_0004
    ensures Create(GL(0, 1, map[], []), 0x4000_0001, INT32).gl.storage == map[1 := 4]
  {
    assert RequestedBytes(4, 0x4000_0001) == 4;
  }
}
