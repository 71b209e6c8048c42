/** The browser's `File`, as both the component and the relay see it. */
module Files {

  type Byte = bv8

  /** A `File`, reduced to its name, its reported type (`""` when unknown) and its bytes. */
  datatype ImageFile = ImageFile(name: string, mimeType: string, bytes: seq<Byte>)
}
