/**
  The slice of OpenGL driver state the index buffer touches, and the five driver
  calls it makes, as pure transitions. The state is the ELEMENT_ARRAY_BUFFER
  binding, the next name `glGenBuffers` hands out, the byte size of the data
  store allocated for each live buffer name, and a log of sub-uploads. Driver
  errors (`glGetError`) are not modelled: a data-store call the driver would
  reject leaves the state unchanged, and the binding accepts any name.
 */
module GLDriver {

  /** Kotlin's `Int`: 32-bit two's complement. */
  type Int32 = x: int | -0x8000_0000 <= x < 0x8000_0000

  const TwoTo32: int := 0x1_0000_0000

  /** JVM `Int` arithmetic: the exact result reduced to 32-bit two's complement. */
  function WrapInt32(x: int): (r: Int32)
    ensures (x - r) % TwoTo32 == 0
    ensures -0x8000_0000 <= x < 0x8000_0000 ==> r == x
  {
    (x + 0x8000_0000) % TwoTo32 - 0x8000_0000
  }

  /** One `glBufferSubData` call: the buffer it reached, the byte offset and the bytes. */
  datatype Upload = Upload(buffer: int, offset: int, data: seq<bv8>)

  datatype GL = GL(elementArrayBinding: int, nextName: int, storage: map<int, int>, uploads: seq<Upload>)

  /** Names handed out so far are positive and below `nextName`; 0 is never a buffer. */
  predicate Valid(gl: GL) {
    gl.nextName > 0 && forall n :: n in gl.storage ==> 0 < n < gl.nextName
  }

  /** `glGenBuffers()`: a fresh, non-zero name; nothing else changes. */
  function GenBuffers(gl: GL): (res: (GL, int))
    ensures Valid(gl) ==> Valid(res.0) && res.1 > 0 && res.1 !in gl.storage
    ensures Valid(gl) ==> res.1 != gl.elementArrayBinding || gl.elementArrayBinding >= gl.nextName
    ensures res.0.elementArrayBinding == gl.elementArrayBinding && res.0.storage == gl.storage
    ensures res.0.uploads == gl.uploads
  {
    (gl.(nextName := gl.nextName + 1), gl.nextName)
  }

  /** `glBindBuffer(GL_ELEMENT_ARRAY_BUFFER, name)`; name 0 clears the binding. */
  function BindBuffer(gl: GL, name: int): (r: GL)
    ensures r.elementArrayBinding == name
    ensures r.storage == gl.storage && r.nextName == gl.nextName && r.uploads == gl.uploads
  {
    gl.(elementArrayBinding := name)
  }

  /**
    `nglBufferData(GL_ELEMENT_ARRAY_BUFFER, size, NULL, GL_DYNAMIC_DRAW)`: a new data
    store of `size` bytes for the bound buffer. The driver refuses a negative
    size, and a call while no buffer is bound.
   */
  function BufferData(gl: GL, size: int): (r: GL)
    ensures gl.elementArrayBinding != 0 && size >= 0 ==> r.storage == gl.storage[gl.elementArrayBinding := size]
    ensures gl.elementArrayBinding == 0 || size < 0 ==> r == gl
    ensures r.elementArrayBinding == gl.elementArrayBinding && r.nextName == gl.nextName && r.uploads == gl.uploads
  {
    if gl.elementArrayBinding == 0 || size < 0 then gl
    else gl.(storage := gl.storage[gl.elementArrayBinding := size])
  }

  /** `glBufferSubData(GL_ELEMENT_ARRAY_BUFFER, offset, data)`: reaches whichever buffer is bound. */
  function BufferSubData(gl: GL, offset: int, data: seq<bv8>): (r: GL)
    ensures gl.elementArrayBinding != 0 ==> r.uploads == gl.uploads + [Upload(gl.elementArrayBinding, offset, data)]
    ensures gl.elementArrayBinding == 0 ==> r == gl
    ensures r.elementArrayBinding == gl.elementArrayBinding && r.storage == gl.storage && r.nextName == gl.nextName
  {
    if gl.elementArrayBinding == 0 then gl
    else gl.(uploads := gl.uploads + [Upload(gl.elementArrayBinding, offset, data)])
  }

  /**
    `glDeleteBuffers(name)`: frees the data store of `name`; a bound buffer that
    is deleted stops being bound. Name 0 and unknown names are ignored.
   */
  function DeleteBuffers(gl: GL, name: int): (r: GL)
    ensures r.storage == gl.storage - {name}
    ensures r.elementArrayBinding == (if gl.elementArrayBinding == name then 0 else gl.elementArrayBinding)
    ensures r.nextName == gl.nextName && r.uploads == gl.uploads
  {
    gl.(storage := gl.storage - {name},
        elementArrayBinding := if gl.elementArrayBinding == name then 0 else gl.elementArrayBinding)
  }
}
