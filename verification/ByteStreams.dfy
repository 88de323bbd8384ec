/** A file with one shared cursor, as `BufferedStream<File>` presents it. */
module ByteStreams {
  import opened Integers

  /** The largest file the operating system lets a stream grow to. */
  const MAX_FILE_SIZE: nat := 0x7fff_ffff_ffff_ffff

  class ByteStream {
    var data: Bytes
    var position: nat

    constructor (data: Bytes)
      ensures this.data == data && position == 0
    {
      this.data := data;
      position := 0;
    }

    method Seek(target: nat)
      modifies this`position
      ensures position == target
    {
      position := target;
    }

    method SeekEnd()
      modifies this`position
      ensures position == |data|
    {
      position := |data|;
    }

    /** `read_exact`: either all of the bytes or none of them. */
    method ReadExact(count: nat) returns (ok: bool, bytes: Bytes)
      requires position <= |data|
      modifies this`position
      ensures ok <==> old(position) + count <= |data|
      ensures ok ==> position == old(position) + count && bytes == data[old(position)..position]
      ensures !ok ==> position == old(position)
    {
      ok := position + count <= |data|;
      bytes := [];
      if ok {
        bytes := data[position..position + count];
        position := position + count;
      }
    }

    /** `write_all`: overwrites from the cursor on and extends the file if need be. */
    method WriteAll(bytes: Bytes) returns (ok: bool)
      requires position <= |data|
      modifies this
      ensures ok <==> old(position) + |bytes| <= MAX_FILE_SIZE
      ensures ok ==> data == Overwrite(old(data), old(position), bytes) && position == old(position) + |bytes|
      ensures !ok ==> data == old(data) && position == old(position)
    {
      ok := position + |bytes| <= MAX_FILE_SIZE;
      if ok {
        data := Overwrite(data, position, bytes);
        position := position + |bytes|;
      }
    }
  }

  function Overwrite(data: Bytes, at: nat, bytes: Bytes): (r: Bytes)
    requires at <= |data|
    ensures |r| == if at + |bytes| <= |data| then |data| else at + |bytes|
  {
    data[..at] + bytes + if at + |bytes| <= |data| then data[at + |bytes|..] else []
  }
}
