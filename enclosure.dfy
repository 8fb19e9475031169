/**
 * `Enclosure` (Lab4.java:122-183): validated `type` and `capacity`, with
 * `equals` and `hashCode` over both fields.
 */
module Enclosures {
  import opened JavaLang

  /** The `IllegalArgumentException`s the constructor can throw, one per check. */
  datatype IllegalArgument = TypeNullOrEmpty | CapacityNotPositive

  /** An immutable enclosure; `type` is never null once constructed. */
  datatype Enclosure = Enclosure(kind: string, capacity: int32)

  /** What every constructed enclosure satisfies. */
  predicate Valid(e: Enclosure) {
    !IsBlank(e.kind) && e.capacity > 0
  }

  /** `validateType`: reject null or blank-after-trim, otherwise return the argument unchanged. */
  function ValidateType(kind: JavaString): (r: Result<string, IllegalArgument>)
    ensures r.Success? <==> kind.Some? && !IsBlank(kind.value)
    ensures r.Success? ==> r.value == kind.value
    ensures r.Failure? ==> r.error == TypeNullOrEmpty
  {
    if IsNullOrTrimEmpty(kind) then Failure(TypeNullOrEmpty) else Success(kind.value)
  }

  /** `validateCapacity`: reject zero and negative capacities, otherwise return it unchanged. */
  function ValidateCapacity(capacity: int32): (r: Result<int32, IllegalArgument>)
    ensures r.Success? <==> capacity > 0
    ensures r.Success? ==> r.value == capacity
    ensures r.Failure? ==> r.error == CapacityNotPositive
  {
    if capacity <= 0 then Failure(CapacityNotPositive) else Success(capacity)
  }

  /**
   * `Enclosure(String, int)`: type first, then capacity, so when both are
   * wrong the type failure is the one raised.
   */
  function Construct(kind: JavaString, capacity: int32): (r: Result<Enclosure, IllegalArgument>)
    ensures r.Success? <==> kind.Some? && !IsBlank(kind.value) && capacity > 0
    ensures r.Success? ==> r.value == Enclosure(kind.value, capacity) && Valid(r.value)
    ensures r.Failure? ==> r.error == if kind.None? || IsBlank(kind.value) then TypeNullOrEmpty else CapacityNotPositive
  {
    match ValidateType(kind)
    case Failure(e) => Failure(e)
    case Success(t) =>
      match ValidateCapacity(capacity)
      case Failure(e) => Failure(e)
      case Success(c) => Success(Enclosure(t, c))
  }

  /** `equals(Object o)`: `None` is a null argument; capacity, then type, compared. */
  function Equals(e: Enclosure, o: Option<Enclosure>): (r: bool)
    ensures r <==> o == Some(e)
  {
    match o
    case None => false
    case Some(other) => e.capacity == other.capacity && ObjectsEquals(Some(e.kind), Some(other.kind))
  }

  /**
   * `hashCode()`: `Objects.hash(type, capacity)`; an `Integer` hashes to its
   * value, so this is `31 * (31 + type.hashCode()) + capacity` reduced to 32 bits.
   */
  function HashCode(e: Enclosure): (r: int32)
    ensures Congruent(r as int, 961 + 31 * StringHash(e.kind) as int + e.capacity as int)
  {
    ObjectsHashOfPair(StringHash(e.kind), e.capacity);
    ObjectsHash([StringHash(e.kind), e.capacity])
  }

  lemma EqualsReflexive(e: Enclosure)
    ensures Equals(e, Some(e))
  {
  }

  lemma EqualsSymmetric(a: Enclosure, b: Enclosure)
    ensures Equals(a, Some(b)) <==> Equals(b, Some(a))
  {
  }

  lemma EqualsTransitive(a: Enclosure, b: Enclosure, c: Enclosure)
    requires Equals(a, Some(b)) && Equals(b, Some(c))
    ensures Equals(a, Some(c))
  {
  }

  /** Equal enclosures have equal hash codes. */
  lemma HashConsistentWithEquals(a: Enclosure, b: Enclosure)
    requires Equals(a, Some(b))
    ensures HashCode(a) == HashCode(b)
  {
  }

  /**
   * The builder, which the source places outside `Enclosure`. Its `build()`
   * calls `new Enclosure(this)`, a constructor `Enclosure` does not declare;
   * it is modelled as calling `Enclosure(String, int)` with the builder's
   * fields. `capacity` starts at Java's `int` default, 0.
   */
  class Builder {
    var kind: JavaString
    var capacity: int32

    constructor (kind: JavaString)
      ensures this.kind == kind && capacity == 0
    {
      this.kind := kind;
      capacity := 0;
    }

    /** `capacity(int)`: sets the capacity only and returns this builder. */
    method Capacity(capacity: int32) returns (self: Builder)
      modifies this`capacity
      ensures self == this
      ensures this.capacity == capacity && kind == old(kind)
    {
      this.capacity := capacity;
      self := this;
    }

    /** `build()`: the two-argument constructor applied to the current fields. */
    method Build() returns (r: Result<Enclosure, IllegalArgument>)
      ensures r == Construct(kind, capacity)
      ensures r.Success? <==> kind.Some? && !IsBlank(kind.value) && capacity > 0
      ensures r.Success? ==> r.value.kind == kind.value && r.value.capacity == capacity
    {
      r := Construct(kind, capacity);
    }
  }

  /** A builder whose capacity is never set holds 0, so it never builds. */
  method BuildWithoutCapacity(kind: JavaString) returns (r: Result<Enclosure, IllegalArgument>)
    ensures r.Failure?
    ensures r.error == if kind.None? || IsBlank(kind.value) then TypeNullOrEmpty else CapacityNotPositive
  {
    var b := new Builder(kind);
    r := b.Build();
  }

  /**
   * `Builder("Cage")` with capacity 10 builds `("Cage", 10)`; with 1 it
   * builds; with 0, -1 or -5 it is rejected.
   */
  method BuildCages() returns (ten: Result<Enclosure, IllegalArgument>, one: Result<Enclosure, IllegalArgument>,
                               zero: Result<Enclosure, IllegalArgument>, minusOne: Result<Enclosure, IllegalArgument>,
                               minusFive: Result<Enclosure, IllegalArgument>)
    ensures ten == Success(Enclosure("Cage", 10))
    ensures one == Success(Enclosure("Cage", 1))
    ensures zero == minusOne == minusFive == Failure(CapacityNotPositive)
  {
    var b := new Builder(Some("Cage"));
    assert !IsTrimmable("Cage"[0]);
    b := b.Capacity(10);
    ten := b.Build();
    b := b.Capacity(1);
    one := b.Build();
    b := b.Capacity(0);
    zero := b.Build();
    b := b.Capacity(-1);
    minusOne := b.Build();
    b := b.Capacity(-5);
    minusFive := b.Build();
  }
}
