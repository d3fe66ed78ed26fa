/**
  Resource addressing (perfmonitor.go): a lattice address of three Go `int`
  coordinates packed into one `uint64` resource tag as
  `uint64(i) | uint64(j) << 16 | uint64(k) << 32`.
 */
module ResourceTags {
  import opened GoWords
  import opened Results

  type ResourceTag = uint64

  /** Go's `[3]int`: index[0], index[1], index[2] are i, j, k. */
  datatype ResourceAddress = ResourceAddress(i: int64, j: int64, k: int64)

  /**
    The addresses the packing keeps apart: i and j in 16 bits, k in the 32
    bits above them.
   */
  predicate InRange(a: ResourceAddress) {
    0 <= a.i < TWO_16 && 0 <= a.j < TWO_16 && 0 <= a.k < TWO_32
  }

  /**
    The tag of an address, computed as Go computes it, for every address,
    in range or not. In range, the three coordinates occupy disjoint bit
    fields, so the bitwise or is the positional sum.
   */
  function PackAddress(a: ResourceAddress): (t: ResourceTag)
    ensures InRange(a) ==> t == a.i + a.j * TWO_16 + a.k * TWO_32
  {
    var r := Or64(Or64(ToUint64(a.i), ShiftLeft(ToUint64(a.j), 16)), ShiftLeft(ToUint64(a.k), 32));
    if InRange(a) then
      PackInRange(a);
      r
    else
      r
  }

  lemma PackInRange(a: ResourceAddress)
    requires InRange(a)
    ensures Or64(Or64(ToUint64(a.i), ShiftLeft(ToUint64(a.j), 16)), ShiftLeft(ToUint64(a.k), 32))
            == a.i + a.j * TWO_16 + a.k * TWO_32
  {
    Pow2Constants();
    var i, j, k := a.i, a.j, a.k;
    assert ToUint64(i) == i && ToUint64(j) == j && ToUint64(k) == k;
    var hj, hk := j * TWO_16, k * TWO_32;
    assert hj <= (TWO_16 - 1) * TWO_16;
    assert hk <= (TWO_32 - 1) * TWO_32;
    assert ShiftLeft(j, 16) == hj;
    assert ShiftLeft(k, 32) == hk;
    BitOrDisjoint(i, j, 16);
    var lo := i + hj;
    assert Or64(i, hj) == lo;
    assert lo < TWO_32;
    BitOrDisjoint(lo, k, 32);
    assert Or64(lo, hk) == lo + hk;
  }

  /** The inverse of the packing: the low 16 bits, the next 16, the top 32. */
  function DecodeTag(t: ResourceTag): (a: ResourceAddress)
    ensures InRange(a)
  {
    ResourceAddress(t % TWO_16, (t / TWO_16) % TWO_16, t / TWO_32)
  }

  /** Decoding the tag of an in-range address gives the address back. */
  lemma DecodeRoundTrip(a: ResourceAddress)
    requires InRange(a)
    ensures DecodeTag(PackAddress(a)) == a
  {
    var t := PackAddress(a);
    var high := a.j + a.k * TWO_16;
    assert t == high * TWO_16 + a.i;
    DivMod16(high, a.i);
    DivMod16(a.k, a.j);
    assert a.i + a.j * TWO_16 < TWO_32;
    assert t == a.k * TWO_32 + (a.i + a.j * TWO_16);
    DivMod32(a.k, a.i + a.j * TWO_16);
  }

  /** Every tag is the packing of its decoding: the packing is onto. */
  lemma PackRoundTrip(t: ResourceTag)
    ensures PackAddress(DecodeTag(t)) == t
  {
    var a := DecodeTag(t);
    var u := t / TWO_16;
    assert t == t % TWO_16 + TWO_16 * u;
    assert u == u % TWO_16 + TWO_16 * (u / TWO_16);
    assert u / TWO_16 == t / TWO_32;
  }

  /** Distinct in-range addresses get distinct tags. */
  lemma PackInjective(a: ResourceAddress, b: ResourceAddress)
    requires InRange(a) && InRange(b)
    requires PackAddress(a) == PackAddress(b)
    ensures a == b
  {
    DecodeRoundTrip(a);
    DecodeRoundTrip(b);
  }

  /**
    Out of range the packing is not unique: i = 65536 spills into the field
    of j, so (65536, 0, 0) and (0, 1, 0) share a tag.
   */
  lemma OutOfRangeCollision()
    ensures PackAddress(ResourceAddress(TWO_16, 0, 0)) == PackAddress(ResourceAddress(0, 1, 0))
  {
    var a, b := ResourceAddress(TWO_16, 0, 0), ResourceAddress(0, 1, 0);
    Pow2Constants();
    assert ShiftLeft(ToUint64(a.j), 16) == 0;
    assert ShiftLeft(ToUint64(a.k), 32) == 0;
    assert ShiftLeft(ToUint64(b.j), 16) == TWO_16;
    assert ShiftLeft(ToUint64(b.k), 32) == 0;
    assert Or64(TWO_16, 0) == TWO_16;
    assert Or64(0, TWO_16) == TWO_16;
  }

  /**
    A negative coordinate converts to a `uint64` with its top bits set,
    which covers the fields of the other coordinates: (-1, 0, 0) and
    (-1, 1, 0) share the all-ones tag.
   */
  lemma NegativeCoordinateCollision()
    ensures PackAddress(ResourceAddress(-1, 0, 0)) == TWO_64 - 1
    ensures PackAddress(ResourceAddress(-1, 1, 0)) == TWO_64 - 1
  {
    Pow2Constants();
    assert ToUint64(-1) == TWO_64 - 1;
    assert ShiftLeft(ToUint64(0), 16) == 0;
    assert ShiftLeft(ToUint64(1), 16) == TWO_16;
    assert ShiftLeft(ToUint64(0), 32) == 0;
    BitOrAllOnes(0, 64);
    BitOrAllOnes(TWO_16, 64);
  }

  datatype AddressError = AddressOutOfRange

  /** The addresses every coordinate of which fits in 16 bits. */
  predicate Fits16(a: ResourceAddress) {
    0 <= a.i < TWO_16 && 0 <= a.j < TWO_16 && 0 <= a.k < TWO_16
  }

  /**
    The packing with the range check the tag's uniqueness relies on: an
    address with a coordinate outside 16 bits is refused.
   */
  function Encode(a: ResourceAddress): (r: Result<ResourceTag, AddressError>)
    ensures r.Ok? <==> Fits16(a)
    ensures r.Ok? ==> DecodeTag(r.value) == a
    ensures r.Ok? ==> r.value == PackAddress(a)
  {
    if Fits16(a) then
      DecodeRoundTrip(a);
      Ok(PackAddress(a))
    else
      Err(AddressOutOfRange)
  }

  /** Whatever two addresses Encode accepts, it gives them distinct tags. */
  lemma EncodeInjective(a: ResourceAddress, b: ResourceAddress)
    requires Encode(a).Ok? && Encode(b).Ok?
    requires Encode(a).value == Encode(b).value
    ensures a == b
  {
  }

  /**
    `*t = ...; return *t`: the method stores the tag in its receiver as
    well as returning it.
   */
  class TagVar {
    var value: ResourceTag

    constructor ()
      ensures value == 0
    {
      value := 0;
    }

    method GenerateUniqueIdentifier(index: ResourceAddress) returns (t: ResourceTag)
      modifies this
      ensures t == value == PackAddress(index)
      ensures InRange(index) ==> t == index.i + index.j * TWO_16 + index.k * TWO_32
    {
      value := PackAddress(index);
      t := value;
    }
  }
}
