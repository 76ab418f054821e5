/** The Python values an application hands to the adapter, as far as the C code tells them apart. */
module Python {
  import opened ByteStrings

  datatype PyObj =
    | PyNone
    | PyStr(bytes: Bytes)
    | PyTuple(elems: seq<PyObj>)
    | PyList(items: seq<PyObj>)
    | PyOther(id: nat)

  datatype PyError =
    | RuntimeError
    | TypeError
    | ValueError
    | IOError
    | SystemError
    | Restored(kind: PyObj, value: PyObj, trace: PyObj)

  datatype Reply = Done | Raised(error: PyError)
}
