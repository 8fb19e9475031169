/**
 * `Zoo` (Lab4.java:7-63): a value with a mandatory, validated `name` and an
 * optional, unchecked `location`, created through `Zoo.Builder`.
 */
module Zoos {
  import opened JavaLang

  /** The one `IllegalArgumentException` the private constructor can throw. */
  datatype IllegalArgument = NameNullOrEmpty

  /**
   * An immutable `Zoo`. `name` is never null once constructed, so it is a
   * plain string; `location` stays a nullable reference.
   */
  datatype Zoo = Zoo(name: string, location: JavaString)

  /** What every constructed `Zoo` satisfies. */
  predicate Valid(z: Zoo) {
    !IsBlank(z.name)
  }

  /** `validateName`: reject null or blank-after-trim, otherwise return the argument unchanged. */
  function ValidateName(name: JavaString): (r: Result<string, IllegalArgument>)
    ensures r.Success? <==> name.Some? && !IsBlank(name.value)
    ensures r.Success? ==> r.value == name.value
    ensures r.Failure? ==> r.error == NameNullOrEmpty
  {
    if IsNullOrTrimEmpty(name) then Failure(NameNullOrEmpty) else Success(name.value)
  }

  /**
   * The private constructor `Zoo(Builder)`: validates the name and copies
   * the location as it is, without any check.
   */
  function Construct(name: JavaString, location: JavaString): (r: Result<Zoo, IllegalArgument>)
    ensures r.Success? <==> name.Some? && !IsBlank(name.value)
    ensures r.Success? ==> r.value == Zoo(name.value, location) && Valid(r.value)
    ensures r.Failure? ==> r.error == NameNullOrEmpty
  {
    match ValidateName(name)
    case Failure(e) => Failure(e)
    case Success(n) => Success(Zoo(n, location))
  }

  /**
   * `equals(Object o)`: `None` is a null argument. The identity shortcut is
   * subsumed by value comparison, and the class test is left to the types.
   */
  function Equals(z: Zoo, o: Option<Zoo>): (r: bool)
    ensures r <==> o == Some(z)
  {
    match o
    case None => false
    case Some(other) =>
      ObjectsEquals(Some(z.name), Some(other.name)) && ObjectsEquals(z.location, other.location)
  }

  /**
   * `hashCode()`: `Objects.hash(name, location)`, which is
   * `31 * (31 + name.hashCode()) + h` reduced to 32 bits, where `h` is 0 for
   * a null location and its `hashCode()` otherwise.
   */
  function HashCode(z: Zoo): (r: int32)
    ensures Congruent(r as int, 961 + 31 * StringHash(z.name) as int + NullableStringHash(z.location) as int)
  {
    ObjectsHashOfPair(StringHash(z.name), NullableStringHash(z.location));
    ObjectsHash([StringHash(z.name), NullableStringHash(z.location)])
  }

  lemma EqualsReflexive(z: Zoo)
    ensures Equals(z, Some(z))
  {
  }

  lemma EqualsSymmetric(a: Zoo, b: Zoo)
    ensures Equals(a, Some(b)) <==> Equals(b, Some(a))
  {
  }

  lemma EqualsTransitive(a: Zoo, b: Zoo, c: Zoo)
    requires Equals(a, Some(b)) && Equals(b, Some(c))
    ensures Equals(a, Some(c))
  {
  }

  /** Equal zoos have equal hash codes: the hash reads exactly the fields `equals` compares. */
  lemma HashConsistentWithEquals(a: Zoo, b: Zoo)
    requires Equals(a, Some(b))
    ensures HashCode(a) == HashCode(b)
  {
  }

  /**
   * A null location and an empty one hash alike (both contribute 0) yet the
   * null-safe comparison tells the two zoos apart: the hash does not decide equality.
   */
  lemma NullAndEmptyLocationDiffer(name: string)
    ensures !Equals(Zoo(name, None), Some(Zoo(name, Some(""))))
    ensures HashCode(Zoo(name, None)) == HashCode(Zoo(name, Some("")))
  {
  }

  /** `Zoo.Builder`: seeded with the name, `location` defaults to null. */
  class Builder {
    var name: JavaString
    var location: JavaString

    constructor (name: JavaString)
      ensures this.name == name && location == None
    {
      this.name := name;
      location := None;
    }

    /** `location(String)`: sets the location only and returns this builder. */
    method Location(location: JavaString) returns (self: Builder)
      modifies this`location
      ensures self == this
      ensures this.location == location && name == old(name)
    {
      this.location := location;
      self := this;
    }

    /** `build()`: runs the private constructor on the builder's current fields. */
    method Build() returns (r: Result<Zoo, IllegalArgument>)
      ensures r == Construct(name, location)
      ensures r.Success? <==> name.Some? && !IsBlank(name.value)
      ensures r.Success? ==> r.value.name == name.value && r.value.location == location
    {
      r := Construct(name, location);
    }
  }

  /**
   * Two zoos built the same way, `Builder("Central Zoo").location("Kyiv").build()`,
   * are equal and share a hash code.
   */
  method BuildTwinZoos() returns (first: Result<Zoo, IllegalArgument>, second: Result<Zoo, IllegalArgument>)
    ensures first.Success? && second.Success?
    ensures first.value == Zoo("Central Zoo", Some("Kyiv"))
    ensures Equals(first.value, Some(second.value)) && HashCode(first.value) == HashCode(second.value)
  {
    var b1 := new Builder(Some("Central Zoo"));
    b1 := b1.Location(Some("Kyiv"));
    first := b1.Build();
    var b2 := new Builder(Some("Central Zoo"));
    b2 := b2.Location(Some("Kyiv"));
    second := b2.Build();
    assert !IsTrimmable("Central Zoo"[0]);
    HashConsistentWithEquals(first.value, second.value);
  }

  /** A builder seeded with a null or blank name never builds, whatever its location. */
  method BuildBlankName(name: JavaString, location: JavaString) returns (r: Result<Zoo, IllegalArgument>)
    requires name.None? || IsBlank(name.value)
    ensures r == Failure(NameNullOrEmpty)
  {
    var b := new Builder(name);
    b := b.Location(location);
    r := b.Build();
  }
}
