/** safe_read and safe_write: loops over reads and writes that may move fewer bytes than asked for. */
module Transfers {
  import opened Wire

  class Pipe {
    var bytes: seq<Byte>

    constructor ()
      ensures bytes == []
    {
      bytes := [];
    }

    /** read(): some of the bytes present, at most `n`; none at the end of the file. */
    method Read(n: nat) returns (got: seq<Byte>)
      requires n > 0
      modifies this
      ensures old(bytes) == got + bytes && |got| <= n
      ensures old(bytes) != [] ==> got != []
    {
      if bytes == [] {
        return [];
      }
      var m: nat :| 1 <= m <= n && m <= |bytes|;
      got := bytes[..m];
      bytes := bytes[m..];
    }

    /** write(): some of the bytes offered. */
    method Write(data: seq<Byte>) returns (written: nat)
      requires data != []
      modifies this
      ensures 1 <= written <= |data| && bytes == old(bytes) + data[..written]
    {
      var m: nat :| 1 <= m <= |data|;
      written := m;
      bytes := bytes + data[..m];
    }

    /** All `n` bytes if there are that many, in order and not one more; else all there are. */
    method SafeRead(n: nat) returns (data: seq<Byte>)
      modifies this
      ensures old(bytes) == data + bytes
      ensures |data| == if n <= |old(bytes)| then n else |old(bytes)|
    {
      data := [];
      var left := n;
      while left > 0
        invariant left >= 0 && |data| + left == n && old(bytes) == data + bytes
        decreases left
      {
        var got := Read(left);
        if |got| == 0 {
          break;
        }
        left := left - |got|;
        data := data + got;
      }
    }

    method SafeWrite(data: seq<Byte>)
      modifies this
      ensures bytes == old(bytes) + data
    {
      var done := 0;
      while done < |data|
        invariant 0 <= done <= |data| && bytes == old(bytes) + data[..done]
      {
        var written := Write(data[done..]);
        assert data[..done] + data[done..][..written] == data[..done + written];
        done := done + written;
      }
      assert data[..done] == data;
    }
  }
}
