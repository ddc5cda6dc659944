/** Bytes and the vectors that reads fill. */
module ByteBuffers {
  type Byte = b: nat | b < 0x100

  type Bytes = seq<Byte>

  function Zeros(n: nat): (r: Bytes)
    ensures |r| == n
  {
    seq(n, _ => 0)
  }

  /** vector::resize. */
  function Resize(data: Bytes, size: nat): (r: Bytes)
    ensures |r| == size
  {
    if size <= |data| then data[..size] else data + Zeros(size - |data|)
  }

  /** recv() writing behind a position. */
  function Overwrite(buffer: Bytes, at: nat, bytes: Bytes): (r: Bytes)
    requires at + |bytes| <= |buffer|
    ensures |r| == |buffer|
  {
    buffer[..at] + bytes + buffer[at + |bytes|..]
  }

  /** The size of a read for which `cut` bytes have arrived: at least 1, at most what is wanted and available. */
  function ReadSize(cut: nat, wanted: nat, available: nat): (n: nat)
    requires 0 < wanted && 0 < available
    ensures 1 <= n <= wanted && n <= available
    ensures 1 <= cut <= wanted && cut <= available ==> n == cut
  {
    if cut == 0 then 1
    else if cut <= wanted && cut <= available then cut
    else if wanted <= available then wanted
    else available
  }

  lemma OverwriteKeeps(buffer: Bytes, field: Bytes, r: nat, n: nat)
    requires r + n <= |field| && r + n <= |buffer| && buffer[..r] == field[..r]
    ensures Overwrite(buffer, r, field[r..r + n])[..r + n] == field[..r + n]
  {
    assert field[..r + n] == field[..r] + field[r..r + n];
  }
}
