/** Byte sources with short reads, and `io.ReadFull` over them. */
module Io {
  import opened Bytes

  datatype ReadError = NoError | EOF | UnexpectedEOF

  /** An `io.Reader` over fixed data.  Each `Read` hands out an arbitrary nonempty piece, so what
      is proved about its callers holds for every sequence of short reads. */
  class Source {
    const data: bytes
    var pos: nat

    constructor (data: bytes)
      ensures this.data == data && pos == 0
    {
      this.data := data;
      pos := 0;
    }

    ghost predicate Valid()
      reads this
    {
      pos <= |data|
    }

    ghost function Rest(): bytes
      requires Valid()
      reads this
    {
      data[pos..]
    }

    /** Between one and `n` bytes, or none at the end. */
    method Read(n: nat) returns (got: bytes)
      requires Valid() && n > 0
      modifies this
      ensures Valid() && |got| <= n
      ensures got + Rest() == old(Rest())
      ensures got == [] <==> old(Rest()) == []
    {
      if pos == |data| {
        return [];
      }
      var k: nat :| 1 <= k <= n && pos + k <= |data|;
      got := data[pos..pos + k];
      pos := pos + k;
    }
  }

  /** `io.ReadFull`: exactly `n` bytes, however the source cuts them up; EOF only if not a single
      byte could be read. */
  method ReadFull(src: Source, n: nat) returns (buf: bytes, err: ReadError)
    requires src.Valid()
    modifies src
    ensures src.Valid() && buf + src.Rest() == old(src.Rest())
    ensures |old(src.Rest())| >= n ==> err == NoError && |buf| == n
    ensures |old(src.Rest())| < n ==> src.Rest() == [] && err == if old(src.Rest()) == [] then EOF else UnexpectedEOF
  {
    buf := [];
    while |buf| < n
      invariant src.Valid() && |buf| <= n
      invariant buf + src.Rest() == old(src.Rest())
      decreases n - |buf|
    {
      ghost var rest := src.Rest();
      var got := src.Read(n - |buf|);
      if got == [] {
        assert buf + [] == buf;
        return buf, if buf == [] then EOF else UnexpectedEOF;
      }
      Assoc(buf, got, src.Rest());
      buf := buf + got;
    }
    err := NoError;
  }

  /** `io.CopyN`: up to `n` bytes; a source that ends early is EOF. */
  method CopyN(src: Source, n: nat) returns (got: bytes, err: ReadError)
    requires src.Valid()
    modifies src
    ensures src.Valid() && got + src.Rest() == old(src.Rest())
    ensures |old(src.Rest())| >= n ==> err == NoError && |got| == n
    ensures |old(src.Rest())| < n ==> err == EOF && src.Rest() == []
  {
    got, err := ReadFull(src, n);
    if err != NoError {
      err := EOF;
    }
  }
}
