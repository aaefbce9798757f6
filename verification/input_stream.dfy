/** The part of `std::istream` the ephemeris loader relies on: a byte sequence, a read
    position and the `good()` state. Once a read or skip runs past the end the stream is
    no longer good, and every later read or skip extracts nothing. */
module InputStreams {
  import opened Bytes

  class InputStream {
    const data: seq<Byte>
    var pos: nat
    var good: bool

    ghost predicate Valid()
      reads this
    {
      pos <= |data|
    }

    constructor (data: seq<Byte>)
      ensures Valid() && this.data == data && pos == 0 && good
    {
      this.data := data;
      pos := 0;
      good := true;
    }

    /** What later reads can still deliver: nothing once the stream has failed. */
    function Remaining(): seq<Byte>
      reads this
      requires Valid()
    {
      if good then data[pos..] else []
    }

    /** `read(buf, n)`: a short read leaves the stream failed; the bytes of a failed read
        are unspecified, here zero-filled. */
    method Read(n: nat) returns (chunk: seq<Byte>)
      requires Valid()
      modifies this
      ensures Valid() && |chunk| == n
      ensures good == (old(good) && n <= |old(Remaining())|)
      ensures good ==> chunk == old(Remaining())[..n] && Remaining() == old(Remaining())[n..]
    {
      if good && pos + n <= |data| {
        chunk := data[pos..pos + n];
        pos := pos + n;
      } else {
        chunk := seq(n, _ => 0);
        if good {
          pos := |data|;
        }
        good := false;
      }
    }

    /** `ignore(n)`: discards up to `n` bytes; a count of zero or less does nothing, and
        reaching the end before `n` bytes leaves the stream at end of file. */
    method Ignore(n: int)
      requires Valid()
      modifies this
      ensures Valid()
      ensures good == (old(good) && (n <= 0 || n <= |old(Remaining())|))
      ensures good ==> Remaining() == old(Remaining())[if n <= 0 then 0 else n..]
    {
      if good && n > 0 {
        if pos + n <= |data| {
          pos := pos + n;
        } else {
          pos := |data|;
          good := false;
        }
      }
    }
  }
}
