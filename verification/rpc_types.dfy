/** The message structures the Show request refers to but whose classes are
    not part of this model. Only their identity matters here, so each is an
    opaque handle; the conversions that build them from nested parameter
    tables are passed to the getters as function parameters. */
module RpcTypes {

  /** An enumeration value of TextAlignment. */
  datatype TextAlignment = TextAlignment(ordinal: nat)

  /** An Image structure. */
  datatype Image = Image(handle: nat)

  /** A SoftButton structure. */
  datatype SoftButton = SoftButton(handle: nat)

  /** The runtime exceptions the Show accessors can raise. */
  datatype Fault =
    | NullPointer   // iterating over a null list
    | ClassCast     // an unchecked (String) cast of a value of another class
}
