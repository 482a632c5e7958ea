/** What a Python call can end in: a returned value or a raised exception. */
module Python {

  /** The exceptions the modelled code can raise. */
  datatype Exception =
    | StructError  // struct.pack given a value outside its format's range
    | IndexError   // a list or array subscript past the end
    | NameError    // a name that is defined nowhere in the module

  datatype Result<T> = Return(value: T) | Raise(exc: Exception)
}
