/** The network library's byte buffer: what is readable, taken from the front and added at the back. */
module Buffers {
  class MsgBuffer<T> {
    var data: seq<T>

    constructor (elements: seq<T>)
      ensures data == elements
    {
      data := elements;
    }

    method Append(more: seq<T>)
      modifies this
      ensures data == old(data) + more
    {
      data := data + more;
    }

    method Retrieve(n: nat)
      requires n <= |data|
      modifies this
      ensures data == old(data)[n..]
    {
      data := data[n..];
    }

    method RetrieveAll()
      modifies this
      ensures data == []
    {
      data := [];
    }

    /** memcpy into the readable part. */
    method Overwrite(pos: nat, patch: seq<T>)
      requires pos + |patch| <= |data|
      modifies this
      ensures data == old(data)[..pos] + patch + old(data)[pos + |patch|..]
    {
      var i := 0;
      ghost var before := data;
      while i < |patch|
        invariant 0 <= i <= |patch| && |data| == |before|
        invariant forall j :: 0 <= j < |data| ==> data[j] == if pos <= j < pos + i then patch[j - pos] else before[j]
      {
        data := data[pos + i := patch[i]];
        i := i + 1;
      }
    }
  }
}
