/** Go's `bytes.Buffer`, as the renderers use it: a growing text that is only
    ever appended to. */
module Buffers {

  class Buffer {
    var data: string

    constructor()
      ensures data == ""
    {
      data := "";
    }

    /** `WriteString` (and `fmt.Fprintf` into the buffer): appends `s`. */
    method WriteString(s: string)
      modifies this
      ensures data == old(data) + s
    {
      data := data + s;
    }
  }
}
