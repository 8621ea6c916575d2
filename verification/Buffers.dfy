/** Byte buffers with sticky errors (typed/buffer.go).

    The classes hold the source's fields; the datatypes `RBuf` and `WBuf` are
    their values, so that parsers and encoders can be specified as functions. */
module Buffers {

  type Byte = b: int | 0 <= b < 0x100

  type Bytes = seq<Byte>

  // Big-endian integers of a given width.
  function PutUint(n: nat, width: nat): (r: Bytes)
    ensures |r| == width
    decreases width
  {
    if width == 0 then [] else PutUint(n / 0x100, width - 1) + [n % 0x100]
  }

  function GetUint(b: Bytes): (n: nat)
    decreases |b|
  {
    if b == [] then 0 else 0x100 * GetUint(b[..|b| - 1]) + b[|b| - 1]
  }

  function Limit(width: nat): (r: nat)
    ensures r >= 1
  {
    if width == 0 then 1 else 0x100 * Limit(width - 1)
  }

  lemma {:induction false} LimitIsWidth()
    ensures Limit(1) == 0x100 && Limit(2) == 0x1_0000 && Limit(4) == 0x1_0000_0000
    ensures Limit(8) == 0x1_0000_0000_0000_0000
  {
    assert Limit(3) == 0x100_0000;
    assert Limit(5) == 0x100_0000_0000;
    assert Limit(6) == 0x1_0000_0000_0000;
    assert Limit(7) == 0x100_0000_0000_0000;
  }

  /** Reading back an encoded integer yields it modulo the width: the round trip
      is exact in range, and wraps exactly as the source's integer conversions do. */
  lemma {:induction false} UintRoundTrip(n: nat, width: nat)
    ensures GetUint(PutUint(n, width)) == n % Limit(width)
    decreases width
  {
    if width == 0 {
    } else {
      var p := PutUint(n / 0x100, width - 1);
      assert PutUint(n, width)[..width - 1] == p;
      UintRoundTrip(n / 0x100, width - 1);
      ModSplit(n, Limit(width - 1));
    }
  }

  lemma ModSplit(n: nat, m: nat)
    requires m >= 1
    ensures n % (0x100 * m) == 0x100 * ((n / 0x100) % m) + n % 0x100
  {
    var q, r := n / 0x100, n % 0x100;
    var d, e := q / m, q % m;
    assert n == 0x100 * (m * d + e) + r;
    assert n == (0x100 * m) * d + (0x100 * e + r) by {
      assert 0x100 * (m * d) == (0x100 * m) * d;
    }
    assert 0x100 * e + r < 0x100 * m;
    DivUnique(n, 0x100 * m, d, 0x100 * e + r);
  }

  lemma DivUnique(n: int, m: int, d: int, r: int)
    requires 0 <= r < m && n == m * d + r
    ensures n % m == r
  {
    var k := n / m - d;
    assert m * k == r - n % m;
    MulAtLeast(m, k);
  }

  lemma MulAtLeast(m: int, k: int)
    requires m >= 0
    ensures k >= 1 ==> m * k >= m
    ensures k <= -1 ==> m * k <= -m
  {
  }

  lemma {:induction false} GetUintBounds(b: Bytes)
    ensures GetUint(b) < Limit(|b|)
    decreases |b|
  {
    if b == [] {
    } else {
      GetUintBounds(b[..|b| - 1]);
    }
  }

  /** The other half of the round trip: bytes of the right width re-encode to themselves. */
  lemma {:induction false} BytesRoundTrip(b: Bytes)
    ensures PutUint(GetUint(b), |b|) == b
    decreases |b|
  {
    if b == [] {
    } else {
      BytesRoundTrip(b[..|b| - 1]);
      var hi, lo := GetUint(b[..|b| - 1]), b[|b| - 1];
      assert (0x100 * hi + lo) / 0x100 == hi && (0x100 * hi + lo) % 0x100 == lo;
      assert b == b[..|b| - 1] + [lo];
    }
  }

  /** The most significant byte comes first. */
  lemma BigEndian(b: Bytes, n: nat)
    ensures |b| == 2 ==> GetUint(b) == b[0] as int * 0x100 + b[1] as int
    ensures n < 0x1_0000 ==> PutUint(n, 2) == [n / 0x100, n % 0x100]
  {
    if |b| == 2 {
      var high := b[..1];
      assert high[..0] == [] && GetUint(high[..0]) == 0;
      assert GetUint(high) == b[0];
    }
    if n < 0x1_0000 {
      assert PutUint(n / 0x100 / 0x100, 0) == [];
      assert PutUint(n / 0x100, 1) == [] + [n / 0x100 % 0x100] == [n / 0x100];
    }
  }

  function U16(n: nat): (r: Bytes)
    ensures |r| == 2
  {
    PutUint(n, 2)
  }

  lemma U16RoundTrip(n: nat)
    ensures GetUint(U16(n)) == n % 0x1_0000
    ensures n < 0x1_0000 ==> GetUint(U16(n)) == n
  {
    UintRoundTrip(n, 2);
    LimitIsWidth();
  }

  // ---------- reading ----------

  /** The value of a ReadBuffer: the unread bytes and the sticky error. */
  datatype RBuf = RBuf(remaining: Bytes, failed: bool) {

    // A failed buffer stays failed and yields nothing; a read takes all its bytes or none.
    function ReadBytes(n: nat): (r: (Bytes, RBuf))
      ensures if r.1.failed then r.0 == [] && r.1.remaining == remaining
              else !failed && |r.0| == n && r.0 + r.1.remaining == remaining
    {
      if failed then ([], this)
      else if |remaining| < n then ([], this.(failed := true))
      else (remaining[..n], this.(remaining := remaining[n..]))
    }

    // An unread integer is reported as 0 once the buffer has failed.
    function ReadUint(width: nat): (r: (nat, RBuf))
      ensures if r.1.failed then r.1.remaining == remaining
              else !failed && |r.1.remaining| == |remaining| - width
    {
      var (b, rest) := ReadBytes(width);
      (GetUint(b), rest)
    }

    function ReadByte(): (r: (Byte, RBuf)) {
      var (b, rest) := ReadBytes(1);
      (if b == [] then 0 else b[0], rest)
    }

    // A length prefix of `width` bytes followed by that many bytes.
    function ReadLenBytes(width: nat): (r: (Bytes, RBuf)) {
      var (n, rest) := ReadUint(width);
      rest.ReadBytes(n)
    }
  }

  class ReadBuffer {
    var initialLength: nat
    var remaining: Bytes
    var err: bool

    ghost function View(): (v: RBuf)
      reads this
    {
      RBuf(remaining, err)
    }

    ghost predicate Valid()
      reads this
    {
      |remaining| <= initialLength
    }

    constructor (buffer: Bytes)
      ensures Valid() && View() == RBuf(buffer, false) && initialLength == |buffer|
    {
      initialLength, remaining, err := |buffer|, buffer, false;
    }

    method ReadBytes(n: nat) returns (b: Bytes)
      requires Valid()
      modifies this
      ensures Valid() && initialLength == old(initialLength)
      ensures (b, View()) == old(View()).ReadBytes(n)
    {
      if err { return []; }
      if |remaining| < n {
        err := true;
        return [];
      }
      b := remaining[..n];
      remaining := remaining[n..];
    }

    method SkipBytes(n: nat)
      requires Valid()
      modifies this
      ensures Valid() && initialLength == old(initialLength)
      ensures View() == old(View()).ReadBytes(n).1
    {
      if err { return; }
      if |remaining| < n {
        err := true;
        return;
      }
      remaining := remaining[n..];
    }

    method ReadSingleByte() returns (b: Byte)
      requires Valid()
      modifies this
      ensures Valid() && initialLength == old(initialLength)
      ensures (b, View()) == old(View()).ReadByte()
    {
      if err { return 0; }
      if |remaining| < 1 {
        err := true;
        return 0;
      }
      b := remaining[0];
      remaining := remaining[1..];
    }

    method ReadUint(width: nat) returns (n: nat)
      requires Valid()
      modifies this
      ensures Valid() && initialLength == old(initialLength)
      ensures (n, View()) == old(View()).ReadUint(width)
    {
      var b := ReadBytes(width);
      n := GetUint(b);
    }

    method ReadLenBytes(width: nat) returns (b: Bytes)
      requires Valid()
      modifies this
      ensures Valid() && initialLength == old(initialLength)
      ensures (b, View()) == old(View()).ReadLenBytes(width)
    {
      var n := ReadUint(width);
      b := ReadBytes(n);
    }

    method BytesRead() returns (n: nat)
      requires Valid()
      ensures n == initialLength - |remaining|
    {
      n := initialLength - |remaining|;
    }
  }

  // ---------- writing ----------

  /** The value of a WriteBuffer over a fixed array: what was written, its
      capacity and the sticky error. */
  datatype WBuf = WBuf(written: Bytes, capacity: nat, failed: bool) {

    function Put(b: Bytes): (r: WBuf) {
      if failed then this
      else if capacity < |written| + |b| then this.(failed := true)
      else this.(written := written + b)
    }

    // A string whose length does not fit its prefix poisons the buffer.
    function PutLenBytes(width: nat, b: Bytes): (r: WBuf) {
      if |b| >= Limit(width) then this.(failed := true)
      else Put(PutUint(|b|, width)).Put(b)
    }
  }

  class WriteBuffer {
    const buffer: array<Byte>
    var pos: nat
    var err: bool

    ghost predicate Valid()
      reads this
    {
      pos <= buffer.Length
    }

    ghost function View(): (v: WBuf)
      requires Valid()
      reads this, buffer
    {
      WBuf(buffer[..pos], buffer.Length, err)
    }

    constructor (size: nat)
      ensures Valid() && fresh(buffer) && buffer.Length == size
      ensures View() == WBuf([], size, false)
    {
      buffer := new Byte[size];
      pos, err := 0, false;
    }

    function BytesRemaining(): (n: nat)
      requires Valid()
      reads this
    {
      buffer.Length - pos
    }

    method WriteBytes(b: Bytes)
      requires Valid()
      modifies this, buffer
      ensures Valid() && View() == old(View()).Put(b)
    {
      if err { return; }
      if BytesRemaining() < |b| {
        err := true;
        return;
      }
      ghost var was := buffer[..pos];
      forall i | 0 <= i < |b| {
        buffer[pos + i] := b[i];
      }
      assert buffer[..pos] == was;
      assert buffer[..pos + |b|] == was + b;
      pos := pos + |b|;
    }

    method WriteUint(n: nat, width: nat)
      requires Valid()
      modifies this, buffer
      ensures Valid() && View() == old(View()).Put(PutUint(n, width))
    {
      WriteBytes(PutUint(n, width));
    }

    method WriteLenBytes(width: nat, b: Bytes)
      requires Valid()
      modifies this, buffer
      ensures Valid() && View() == old(View()).PutLenBytes(width, b)
    {
      if |b| >= Limit(width) {
        err := true;
      }
      WriteUint(|b|, width);
      WriteBytes(b);
    }

    // Reserves n zeroed bytes and returns where they start, to be filled in by Update.
    method Defer(n: nat) returns (ref: nat)
      requires Valid()
      modifies this, buffer
      ensures Valid() && View() == old(View()).Put(seq(n, _ => 0))
      ensures ref == old(pos)
    {
      ref := pos;
      WriteBytes(seq(n, _ => 0));
    }

    // Fills a reserved slot in place; nothing else in the buffer changes.
    method Update(ref: nat, b: Bytes)
      requires Valid() && ref + |b| <= pos
      modifies buffer
      ensures View() == old(View()).(written := Patch(old(View()).written, ref, b))
    {
      ghost var was := buffer[..];
      forall i | 0 <= i < |b| {
        buffer[ref + i] := b[i];
      }
      assert buffer[..pos] == Patch(was[..pos], ref, b);
    }
  }

  function Patch(s: Bytes, at: nat, b: Bytes): (r: Bytes)
    requires at + |b| <= |s|
    ensures |r| == |s|
  {
    s[..at] + b + s[at + |b|..]
  }
}
