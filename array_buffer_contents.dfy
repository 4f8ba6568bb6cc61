/** The backing store of a JavaScript ArrayBuffer (ArrayBufferContents.cpp):
    a reference-counted DataHolder owns a byte buffer, its size and its
    sharing type, and an ArrayBufferContents points at one holder, which
    transfer, shareWith and neuter move between contents objects. */
module ArrayBufferContentsModel {

  type Byte = bv8

  /** `unsigned` is 32 bits wide: products wrap around modulo 2^32. */
  const Uint32Modulus: nat := 0x1_0000_0000

  datatype SharingType = NotShared | Shared

  datatype InitializationPolicy = ZeroInitialize | DontInitialize

  /** `unsigned * unsigned`: the product reduced to 32 bits. */
  function Mul32(a: nat, b: nat): (r: nat)
    requires a < Uint32Modulus && b < Uint32Modulus
    ensures r < Uint32Modulus
    ensures a * b < Uint32Modulus ==> r == a * b
    ensures a * b >= Uint32Modulus ==> r < a * b
  {
    (a * b) % Uint32Modulus
  }

  /** The sized constructor's guard, as written: a non-zero element count whose
      wrapped total divided by the count does not give back the element size. */
  predicate TotalSizeOverflows(numElements: nat, elementByteSize: nat)
    requires numElements < Uint32Modulus && elementByteSize < Uint32Modulus
  {
    numElements != 0 && Mul32(numElements, elementByteSize) / numElements != elementByteSize
  }

  lemma MulDivCancel(n: nat, e: nat)
    requires n > 0
    ensures (n * e) / n == e
  {
    var q, r := (n * e) / n, (n * e) % n;
    assert n * e == n * q + r && 0 <= r < n;
    assert n * (e - q) == r;
    if e - q >= 1 {
      assert false;
    }
  }

  lemma DivTimesDivisorAtMost(t: nat, n: nat)
    requires n > 0
    ensures n * (t / n) <= t
  {
  }

  /** The division test is exactly the 32-bit overflow test: it fires if and
      only if the mathematical product does not fit in an `unsigned`. */
  lemma {:induction false} OverflowTestIsExact(numElements: nat, elementByteSize: nat)
    requires numElements < Uint32Modulus && elementByteSize < Uint32Modulus
    ensures TotalSizeOverflows(numElements, elementByteSize) <==> numElements * elementByteSize >= Uint32Modulus
  {
    var t := Mul32(numElements, elementByteSize);
    if numElements * elementByteSize < Uint32Modulus {
      if numElements != 0 {
        MulDivCancel(numElements, elementByteSize);
      }
    } else {
      assert numElements != 0;
      if t / numElements == elementByteSize {
        DivTimesDivisorAtMost(t, numElements);
        assert false;
      }
    }
  }

  /** allocateMemoryWithFlags with the ReturnNull flag: a fresh buffer of
      `size` bytes, or null when the partition allocator refuses (`allocOk`
      false). Without ZeroInitialize the bytes are whatever the memory held,
      given here by `uninitialized`; with it they are all cleared (memset). */
  method AllocateMemory(size: nat, policy: InitializationPolicy, allocOk: bool, uninitialized: nat -> Byte)
    returns (r: array?<Byte>)
    ensures allocOk <==> r != null
    ensures r != null ==> fresh(r) && r.Length == size
    ensures r != null && policy.ZeroInitialize? ==> forall i :: 0 <= i < r.Length ==> r[i] == 0
  {
    if !allocOk {
      return null;
    }
    r := new Byte[size](uninitialized);
    if policy.ZeroInitialize? {
      forall i | 0 <= i < size {
        r[i] := 0;
      }
    }
  }

  /** ArrayBufferContents::DataHolder: the buffer (null until allocated), its
      size in bytes and whether it may be shared between threads. */
  class DataHolder {
    var data: array?<Byte>
    var sizeInBytes: nat
    var isShared: SharingType

    /** The size fits in an `unsigned` and is the length of the buffer; a
        holder without a buffer has size 0. */
    predicate Valid()
      reads this
    {
      sizeInBytes < Uint32Modulus
      && (data == null ==> sizeInBytes == 0)
      && (data != null ==> data.Length == sizeInBytes)
    }

    /** What allocateNew, adopt and copyMemoryFrom demand of their holder. */
    predicate IsEmpty()
      reads this
    {
      data == null && sizeInBytes == 0
    }

    /** The bytes the holder owns; none when it has no buffer. */
    function Contents(): (r: seq<Byte>)
      requires Valid()
      reads this, data
      ensures |r| == sizeInBytes
      ensures data != null ==> r == data[..]
    {
      if data == null then [] else data[..]
    }

    constructor()
      ensures Valid() && IsEmpty() && isShared == NotShared
    {
      data := null;
      sizeInBytes := 0;
      isShared := NotShared;
    }

    /** allocateNew: asks for a buffer of `size` bytes; only when it is
        granted do the size and the sharing type change. */
    method AllocateNew(size: nat, shared: SharingType, policy: InitializationPolicy, allocOk: bool, uninitialized: nat -> Byte)
      requires Valid() && IsEmpty() && size < Uint32Modulus
      modifies this
      ensures Valid()
      ensures allocOk <==> data != null
      ensures allocOk ==> fresh(data) && sizeInBytes == size && isShared == shared
      ensures allocOk && policy.ZeroInitialize? ==> Contents() == seq(size, _ => 0)
      ensures !allocOk ==> IsEmpty() && isShared == old(isShared)
    {
      data := AllocateMemory(size, policy, allocOk, uninitialized);
      if data == null {
        return;
      }
      sizeInBytes := size;
      isShared := shared;
    }

    /** adopt: takes ownership of an existing buffer of `size` bytes. */
    method Adopt(handle: array<Byte>, size: nat, shared: SharingType)
      requires Valid() && IsEmpty() && size < Uint32Modulus && handle.Length == size
      modifies this
      ensures Valid()
      ensures data == handle && sizeInBytes == size && isShared == shared
    {
      data := handle;
      sizeInBytes := size;
      isShared := shared;
    }

    /** copyMemoryFrom: a fresh buffer holding a byte-for-byte copy of the
        source (memcpy); when allocation fails the holder stays empty. The
        sharing type is not touched. */
    method CopyMemoryFrom(source: DataHolder, allocOk: bool, uninitialized: nat -> Byte)
      requires Valid() && IsEmpty() && source.Valid()
      modifies this
      ensures Valid()
      ensures allocOk ==> data != null && fresh(data) && sizeInBytes == old(source.sizeInBytes)
                          && data[..] == old(source.Contents())
      ensures !allocOk ==> IsEmpty()
      ensures isShared == old(isShared)
    {
      var n := source.sizeInBytes;
      ghost var bytes := source.Contents();
      var buffer := AllocateMemory(n, DontInitialize, allocOk, uninitialized);
      if buffer == null {
        return;
      }
      forall i | 0 <= i < n {
        buffer[i] := source.data[i];
      }
      data := buffer;
      sizeInBytes := n;
      assert data[..] == bytes;
    }

    /** The destructor: the buffer is released and the holder reset. */
    method Release()
      modifies this
      ensures Valid() && IsEmpty() && isShared == NotShared
    {
      data := null;
      sizeInBytes := 0;
      isShared := NotShared;
    }
  }

  /** ArrayBufferContents: a reference to a DataHolder, null once neutered. */
  class ArrayBufferContents {
    var holder: DataHolder?

    predicate Valid()
      reads this, holder
    {
      holder != null ==> holder.Valid()
    }

    /** The default constructor: a fresh, empty, unshared holder. */
    constructor()
      ensures holder != null && fresh(holder)
      ensures holder.Valid() && holder.IsEmpty() && holder.isShared == NotShared
    {
      holder := new DataHolder();
    }

    /** The sized constructor: room for `numElements` elements of
        `elementByteSize` bytes each, refused (leaving the holder empty) when
        the total does not fit in 32 bits. */
    constructor Sized(numElements: nat, elementByteSize: nat, shared: SharingType, policy: InitializationPolicy,
                      allocOk: bool, uninitialized: nat -> Byte)
      requires numElements < Uint32Modulus && elementByteSize < Uint32Modulus
      ensures holder != null && fresh(holder) && holder.Valid()
      ensures numElements * elementByteSize >= Uint32Modulus ==> holder.IsEmpty() && holder.isShared == NotShared
      ensures numElements * elementByteSize < Uint32Modulus ==>
                (allocOk <==> holder.data != null)
                && (allocOk ==> holder.sizeInBytes == numElements * elementByteSize && holder.isShared == shared)
                && (allocOk && policy.ZeroInitialize? ==> holder.Contents() == seq(holder.sizeInBytes, _ => 0))
    {
      var h := new DataHolder();
      var totalSize := Mul32(numElements, elementByteSize);
      OverflowTestIsExact(numElements, elementByteSize);
      if !(numElements != 0 && totalSize / numElements != elementByteSize) {
        h.AllocateNew(totalSize, shared, policy, allocOk, uninitialized);
      }
      holder := h;
    }

    /** The constructor from a data handle: a non-null buffer is adopted with
        the given size; a null one yields a zero-sized allocation, whatever
        size was passed (the partition allocator always grants 0 bytes). */
    constructor FromHandle(handle: array?<Byte>, sizeInBytes: nat, shared: SharingType)
      requires sizeInBytes < Uint32Modulus
      requires handle != null ==> handle.Length == sizeInBytes
      ensures holder != null && fresh(holder) && holder.Valid() && holder.isShared == shared
      ensures handle != null ==> holder.data == handle && holder.sizeInBytes == sizeInBytes
      ensures handle == null ==> holder.data != null && holder.sizeInBytes == 0
    {
      var h := new DataHolder();
      if handle != null {
        h.Adopt(handle, sizeInBytes, shared);
      } else {
        h.AllocateNew(0, shared, ZeroInitialize, true, _ => 0);
      }
      holder := h;
    }

    /** isShared: the sharing type of the holder. */
    predicate IsShared()
      requires holder != null
      reads this, holder
    {
      holder.isShared == Shared
    }

    /** neuter: drops the reference to the holder. */
    method Neuter()
      modifies this
      ensures holder == null
    {
      holder := null;
    }

    /** transfer: hands this holder to `other`, whose own holder must be
        without a buffer, and neuters this contents. */
    method Transfer(other: ArrayBufferContents)
      requires holder != null && !IsShared()
      requires other.holder != null && other.holder.data == null
      modifies this, other
      ensures other != this ==> other.holder == old(holder)
      ensures holder == null
    {
      other.holder := holder;
      Neuter();
    }

    /** shareWith: `other` comes to refer to this same shared holder. */
    method ShareWith(other: ArrayBufferContents)
      requires holder != null && IsShared()
      requires other.holder != null && other.holder.data == null
      modifies other
      ensures other.holder == holder && holder == old(holder)
    {
      other.holder := holder;
    }

    /** copyTo: `other`'s holder receives a copy of this buffer. */
    method CopyTo(other: ArrayBufferContents, allocOk: bool, uninitialized: nat -> Byte)
      requires Valid() && other.Valid() && holder != null && other.holder != null
      requires !IsShared() && !other.IsShared() && other.holder.IsEmpty()
      modifies other.holder
      ensures other.holder.Valid()
      ensures allocOk ==> other.holder.Contents() == old(holder.Contents())
                          && other.holder.sizeInBytes == old(holder.sizeInBytes)
      ensures !allocOk ==> other.holder.IsEmpty()
    {
      other.holder.CopyMemoryFrom(holder, allocOk, uninitialized);
    }
  }
}
