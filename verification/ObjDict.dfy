/** Objects of the generated dictionaries. */
module ObjDict {
  import opened Can
  import opened SdoCodec

  datatype Obj = Obj(index: u16, subindex: u8, name: string, dtype: DataType)

  /** canmat_obj_bitsize; REAL32 and the unsized types have none. */
  function BitSize(o: Obj): int
  {
    match o.dtype
    case Integer8 | Unsigned8 => 8
    case Integer16 | Unsigned16 => 16
    case Integer32 | Unsigned32 => 32
    case _ => -1
  }
}
