/**
 * The byte-addressed memory of the emulator (lib/src/memory.rs; src/memory.rs is an earlier
 * copy of the same code with only the 8- and 16-bit accessors).
 *
 * The contents are a fixed-size byte vector. Every access is bounds-checked and fails with
 * `OutOfBounds`; multi-byte values are little-endian and are written one byte at a time,
 * lowest address first, stopping at the first byte that does not fit.
 *
 * The sequence-level functions below are the specification; the class `Memory` keeps the
 * bytes in an array and updates them in place, and its members are proved against those
 * functions.
 */
module ByteMemory {
  datatype MemoryError = OutOfBounds

  /** Rust's `Result<T, MemoryError>`, usable with `:-` like the source's `?`. */
  datatype Result<T> = Ok(value: T) | Err(error: MemoryError)
  {
    predicate IsFailure() { Err? }

    function PropagateFailure<U>(): Result<U>
      requires Err?
    {
      Err(error)
    }

    function Extract(): T
      requires Ok?
    {
      value
    }
  }

  /** The contents after a write, and the result the write returned. */
  datatype Written = Written(bytes: seq<bv8>, result: Result<()>)

  /** `u16::from_le_bytes`. */
  function Le16(b0: bv8, b1: bv8): bv16
  {
    b0 as bv16 | (b1 as bv16 << 8)
  }

  /** `u32::from_le_bytes`. */
  function Le32(b0: bv8, b1: bv8, b2: bv8, b3: bv8): bv32
  {
    b0 as bv32 | (b1 as bv32 << 8) | (b2 as bv32 << 16) | (b3 as bv32 << 24)
  }

  /** `u16::to_le_bytes`. */
  function Le16Bytes(v: bv16): (r: seq<bv8>)
    ensures |r| == 2
  {
    [(v & 0xFF) as bv8, (v >> 8) as bv8]
  }

  /** `u32::to_le_bytes`. */
  function Le32Bytes(v: bv32): (r: seq<bv8>)
    ensures |r| == 4
  {
    [(v & 0xFF) as bv8, ((v >> 8) & 0xFF) as bv8, ((v >> 16) & 0xFF) as bv8, (v >> 24) as bv8]
  }

  /** Reading back the little-endian bytes of a value gives the value, at both widths. */
  lemma LeRoundTrip(h: bv16, w: bv32)
    ensures Le16(Le16Bytes(h)[0], Le16Bytes(h)[1]) == h
    ensures Le32(Le32Bytes(w)[0], Le32Bytes(w)[1], Le32Bytes(w)[2], Le32Bytes(w)[3]) == w
  {
  }

  /** Splitting an assembled value gives back the bytes: byte k sits at bits 8k..8k+7. */
  lemma LeBytesRoundTrip(b0: bv8, b1: bv8, b2: bv8, b3: bv8)
    ensures Le16Bytes(Le16(b0, b1)) == [b0, b1]
    ensures Le32Bytes(Le32(b0, b1, b2, b3)) == [b0, b1, b2, b3]
  {
  }

  /** A 32-bit value is its low half with its high half above it. */
  lemma Le32Halves(b0: bv8, b1: bv8, b2: bv8, b3: bv8)
    ensures Le32(b0, b1, b2, b3) == Le16(b0, b1) as bv32 | (Le16(b2, b3) as bv32 << 16)
  {
  }

  /** A fresh memory of `size` bytes. */
  function Zeroes(size: nat): (r: seq<bv8>)
    ensures |r| == size
    ensures forall i :: 0 <= i < size ==> r[i] == 0
  {
    seq(size, _ => 0)
  }

  /** `get8`: the byte at `addr`, or `OutOfBounds` past the end. */
  function Load8(m: seq<bv8>, addr: nat): Result<bv8>
  {
    if addr < |m| then Ok(m[addr]) else Err(OutOfBounds)
  }

  /** `get16`: two `get8`s, the first failure returned as is. */
  function Load16(m: seq<bv8>, addr: nat): Result<bv16>
  {
    var b0 :- Load8(m, addr);
    var b1 :- Load8(m, addr + 1);
    Ok(Le16(b0, b1))
  }

  /** `get32`: four `get8`s, the first failure returned as is. */
  function Load32(m: seq<bv8>, addr: nat): Result<bv32>
  {
    var b0 :- Load8(m, addr);
    var b1 :- Load8(m, addr + 1);
    var b2 :- Load8(m, addr + 2);
    var b3 :- Load8(m, addr + 3);
    Ok(Le32(b0, b1, b2, b3))
  }

  /** `set8`: replaces the byte at `addr`, or changes nothing and fails past the end. */
  function Store8(m: seq<bv8>, addr: nat, v: bv8): Written
  {
    if addr < |m| then Written(m[addr := v], Ok(())) else Written(m, Err(OutOfBounds))
  }

  /**
   * The `set8` chain of `set16`/`set32`: the bytes are written in order from `addr` and the
   * first failing write ends the chain, so the bytes before it stay written.
   */
  function StoreBytes(m: seq<bv8>, addr: nat, bs: seq<bv8>): (r: Written)
    ensures |r.bytes| == |m|
    decreases |bs|
  {
    if |bs| == 0 then Written(m, Ok(()))
    else
      var first := Store8(m, addr, bs[0]);
      if first.result.Err? then first else StoreBytes(first.bytes, addr + 1, bs[1..])
  }

  /** `set16`. */
  function Store16(m: seq<bv8>, addr: nat, v: bv16): Written
  {
    StoreBytes(m, addr, Le16Bytes(v))
  }

  /** `set32`. */
  function Store32(m: seq<bv8>, addr: nat, v: bv32): Written
  {
    StoreBytes(m, addr, Le32Bytes(v))
  }

  /** Whether an access of `width` bytes at `addr` lies inside a memory of `size` bytes. */
  predicate Fits(size: nat, addr: nat, width: nat)
  {
    addr + width <= size
  }

  /** The contents with `bs` laid from `addr` on, as far as they fit. */
  function Overwrite(m: seq<bv8>, addr: nat, bs: seq<bv8>): (r: seq<bv8>)
    ensures |r| == |m|
    ensures forall i :: 0 <= i < |m| && (i < addr || addr + |bs| <= i) ==> r[i] == m[i]
    ensures forall i :: 0 <= i < |m| && addr <= i < addr + |bs| ==> r[i] == bs[i - addr]
  {
    seq(|m|, i requires 0 <= i < |m| => if addr <= i < addr + |bs| then bs[i - addr] else m[i])
  }

  /**
   * The byte-by-byte chain writes every byte that fits and changes nothing else; it succeeds
   * exactly when all bytes fit.
   */
  lemma {:induction false} StoreBytesClosed(m: seq<bv8>, addr: nat, bs: seq<bv8>)
    requires |bs| > 0 || addr <= |m|
    ensures StoreBytes(m, addr, bs).bytes == Overwrite(m, addr, bs)
    ensures StoreBytes(m, addr, bs).result == if Fits(|m|, addr, |bs|) then Ok(()) else Err(OutOfBounds)
    decreases |bs|
  {
    if |bs| == 0 {
      assert Overwrite(m, addr, bs) == m;
    } else if addr < |m| {
      var first := Store8(m, addr, bs[0]);
      StoreBytesClosed(first.bytes, addr + 1, bs[1..]);
      assert Overwrite(first.bytes, addr + 1, bs[1..]) == Overwrite(m, addr, bs);
    } else {
      assert Overwrite(m, addr, bs) == m;
    }
  }

  /** `get16` succeeds exactly when both bytes fit and then assembles them little-endian. */
  lemma Load16Spec(m: seq<bv8>, addr: nat)
    ensures Load16(m, addr).Ok? <==> Fits(|m|, addr, 2)
    ensures Fits(|m|, addr, 2) ==> Load16(m, addr).value == Le16(m[addr], m[addr + 1])
  {
  }

  /** `get32` succeeds exactly when all four bytes fit and then assembles them little-endian. */
  lemma Load32Spec(m: seq<bv8>, addr: nat)
    ensures Load32(m, addr).Ok? <==> Fits(|m|, addr, 4)
    ensures Fits(|m|, addr, 4) ==> Load32(m, addr).value == Le32(m[addr], m[addr + 1], m[addr + 2], m[addr + 3])
  {
  }

  /** A byte written in range reads back; every other byte and the size stay as they were. */
  lemma Store8Spec(m: seq<bv8>, addr: nat, v: bv8)
    ensures Store8(m, addr, v).result.Ok? <==> addr < |m|
    ensures addr < |m| ==> Load8(Store8(m, addr, v).bytes, addr) == Ok(v)
    ensures forall i :: 0 <= i < |m| && i != addr ==> Load8(Store8(m, addr, v).bytes, i) == Load8(m, i)
    ensures addr >= |m| ==> Store8(m, addr, v).bytes == m
  {
  }

  /** `set16` then `get16` at the same in-range address returns the value written. */
  lemma Store16RoundTrip(m: seq<bv8>, addr: nat, v: bv16)
    requires Fits(|m|, addr, 2)
    ensures Store16(m, addr, v).result == Ok(())
    ensures Load16(Store16(m, addr, v).bytes, addr) == Ok(v)
  {
    StoreBytesClosed(m, addr, Le16Bytes(v));
    LeRoundTrip(v, 0);
  }

  /** `set32` then `get32` at the same in-range address returns the value written. */
  lemma Store32RoundTrip(m: seq<bv8>, addr: nat, v: bv32)
    requires Fits(|m|, addr, 4)
    ensures Store32(m, addr, v).result == Ok(())
    ensures Load32(Store32(m, addr, v).bytes, addr) == Ok(v)
  {
    StoreBytesClosed(m, addr, Le32Bytes(v));
    LeRoundTrip(0, v);
  }

  /**
   * A 2-byte access at the last byte fails both ways, and the failing `set16` has already
   * written the low byte there.
   */
  lemma Store16AtLastByte(m: seq<bv8>, v: bv16)
    requires |m| > 0
    ensures Load16(m, |m| - 1) == Err(OutOfBounds)
    ensures Store16(m, |m| - 1, v).result == Err(OutOfBounds)
    ensures Store16(m, |m| - 1, v).bytes == m[|m| - 1 := (v & 0xFF) as bv8]
  {
    StoreBytesClosed(m, |m| - 1, Le16Bytes(v));
  }

  /**
   * A 4-byte access at the second-to-last byte fails both ways, and the failing `set32` has
   * already written the two low bytes.
   */
  lemma Store32NearEnd(m: seq<bv8>, v: bv32)
    requires |m| > 1
    ensures Load32(m, |m| - 2) == Err(OutOfBounds)
    ensures Store32(m, |m| - 2, v).result == Err(OutOfBounds)
    ensures Store32(m, |m| - 2, v).bytes == m[|m| - 2 := (v & 0xFF) as bv8][|m| - 1 := ((v >> 8) & 0xFF) as bv8]
  {
    StoreBytesClosed(m, |m| - 2, Le32Bytes(v));
  }

  /** A memory of `size` bytes, changed in place by the writes. */
  class Memory {
    const bytes: array<bv8>

    /** `Memory::new`: `size` zero bytes. */
    constructor(size: nat)
      ensures bytes[..] == Zeroes(size)
      ensures fresh(bytes)
    {
      bytes := new bv8[size](_ => 0);
    }

    /** The size and contents, as a sequence. */
    function Contents(): seq<bv8>
      reads bytes
    {
      bytes[..]
    }

    function Get8(addr: nat): (r: Result<bv8>)
      reads bytes
      ensures r == Load8(Contents(), addr)
    {
      if addr < bytes.Length then Ok(bytes[addr]) else Err(OutOfBounds)
    }

    function Get16(addr: nat): (r: Result<bv16>)
      reads bytes
      ensures r == Load16(Contents(), addr)
    {
      var b0 :- Get8(addr);
      var b1 :- Get8(addr + 1);
      Ok(Le16(b0, b1))
    }

    function Get32(addr: nat): (r: Result<bv32>)
      reads bytes
      ensures r == Load32(Contents(), addr)
    {
      var b0 :- Get8(addr);
      var b1 :- Get8(addr + 1);
      var b2 :- Get8(addr + 2);
      var b3 :- Get8(addr + 3);
      Ok(Le32(b0, b1, b2, b3))
    }

    method Set8(addr: nat, v: bv8) returns (r: Result<()>)
      modifies bytes
      ensures Written(Contents(), r) == Store8(old(Contents()), addr, v)
    {
      if addr < bytes.Length {
        bytes[addr] := v;
        r := Ok(());
      } else {
        r := Err(OutOfBounds);
      }
    }

    method Set16(addr: nat, v: bv16) returns (r: Result<()>)
      modifies bytes
      ensures Written(Contents(), r) == Store16(old(Contents()), addr, v)
    {
      ghost var goal := Store16(Contents(), addr, v);
      var bs := Le16Bytes(v);
      r := Set8(addr, bs[0]);
      if r.IsFailure() {
        return;
      }
      assert goal == StoreBytes(Contents(), addr + 1, bs[1..]);
      ghost var written := Store8(Contents(), addr + 1, bs[1]);
      assert goal == if written.result.Err? then written else StoreBytes(written.bytes, addr + 2, bs[2..]);
      r := Set8(addr + 1, bs[1]);
    }

    method Set32(addr: nat, v: bv32) returns (r: Result<()>)
      modifies bytes
      ensures Written(Contents(), r) == Store32(old(Contents()), addr, v)
    {
      ghost var goal := Store32(Contents(), addr, v);
      var bs := Le32Bytes(v);
      r := Set8(addr, bs[0]);
      if r.IsFailure() {
        return;
      }
      assert goal == StoreBytes(Contents(), addr + 1, bs[1..]);
      r := Set8(addr + 1, bs[1]);
      if r.IsFailure() {
        return;
      }
      assert goal == StoreBytes(Contents(), addr + 2, bs[2..]);
      r := Set8(addr + 2, bs[2]);
      if r.IsFailure() {
        return;
      }
      assert goal == StoreBytes(Contents(), addr + 3, bs[3..]);
      ghost var written := Store8(Contents(), addr + 3, bs[3]);
      assert goal == if written.result.Err? then written else StoreBytes(written.bytes, addr + 4, bs[4..]);
      r := Set8(addr + 3, bs[3]);
    }
  }
}
