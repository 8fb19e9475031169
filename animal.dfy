/**
 * `Animal` (Lab4.java:68-117): validated `species` and `age`, a hash over
 * both, and no `equals` override. Without `equals`, Java compares two
 * animals by identity, so `Animal` is a class here: Dafny's `==` on class
 * references is that identity.
 */
module Animals {
  import opened JavaLang

  /** The `IllegalArgumentException`s the constructor can throw, one per check. */
  datatype IllegalArgument = SpeciesNullOrEmpty | AgeNegative

  /** An immutable animal; its `final` fields are `const`. */
  class Animal {
    const species: string
    const age: int32

    /** What every constructed animal satisfies. */
    predicate Valid() {
      !IsBlank(species) && age >= 0
    }

    /** Field assignment, reached only once both fields are validated. */
    constructor (species: string, age: int32)
      requires !IsBlank(species) && age >= 0
      ensures this.species == species && this.age == age && Valid()
    {
      this.species := species;
      this.age := age;
    }
  }

  /** `validateSpecies`: reject null or blank-after-trim, otherwise return the argument unchanged. */
  function ValidateSpecies(species: JavaString): (r: Result<string, IllegalArgument>)
    ensures r.Success? <==> species.Some? && !IsBlank(species.value)
    ensures r.Success? ==> r.value == species.value
    ensures r.Failure? ==> r.error == SpeciesNullOrEmpty
  {
    if IsNullOrTrimEmpty(species) then Failure(SpeciesNullOrEmpty) else Success(species.value)
  }

  /** `validateAge`: reject a negative age (zero is accepted), otherwise return it unchanged. */
  function ValidateAge(age: int32): (r: Result<int32, IllegalArgument>)
    ensures r.Success? <==> age >= 0
    ensures r.Success? ==> r.value == age
    ensures r.Failure? ==> r.error == AgeNegative
  {
    if age < 0 then Failure(AgeNegative) else Success(age)
  }

  /**
   * The checks of `Animal(String, int)` in their order: species first, then
   * age, so when both are wrong the species failure is the one raised.
   */
  function Validate(species: JavaString, age: int32): (r: Result<(string, int32), IllegalArgument>)
    ensures r.Success? <==> species.Some? && !IsBlank(species.value) && age >= 0
    ensures r.Success? ==> r.value == (species.value, age)
    ensures r.Failure? ==> r.error == if species.None? || IsBlank(species.value) then SpeciesNullOrEmpty else AgeNegative
  {
    match ValidateSpecies(species)
    case Failure(e) => Failure(e)
    case Success(s) =>
      match ValidateAge(age)
      case Failure(e) => Failure(e)
      case Success(a) => Success((s, a))
  }

  /** `new Animal(species, age)`: a fresh animal holding the inputs exactly, or the first failed check. */
  method Create(species: JavaString, age: int32) returns (r: Result<Animal, IllegalArgument>)
    ensures r.Success? <==> Validate(species, age).Success?
    ensures r.Failure? ==> r.error == Validate(species, age).error
    ensures r.Success? ==> fresh(r.value) && r.value.species == species.value && r.value.age == age
    ensures r.Success? ==> r.value.Valid()
  {
    match Validate(species, age)
    case Failure(e) =>
      r := Failure(e);
    case Success(fields) =>
      var animal := new Animal(fields.0, fields.1);
      r := Success(animal);
  }

  /**
   * `hashCode()`: `Objects.hash(species, age)`; an `Integer` hashes to its
   * value, so this is `31 * (31 + species.hashCode()) + age` reduced to 32 bits.
   */
  function HashCode(a: Animal): (r: int32)
    ensures Congruent(r as int, 961 + 31 * StringHash(a.species) as int + a.age as int)
  {
    ObjectsHashOfPair(StringHash(a.species), a.age);
    ObjectsHash([StringHash(a.species), a.age])
  }

  /** The hash reads `species` and `age` and nothing else about the object. */
  lemma HashDependsOnFieldsOnly(a: Animal, b: Animal)
    requires a.species == b.species && a.age == b.age
    ensures HashCode(a) == HashCode(b)
  {
  }

  /**
   * The builder, which the source places outside `Animal`. Its `build()`
   * calls `new Animal(this)`, a constructor `Animal` does not declare; it is
   * modelled as calling `Animal(String, int)` with the builder's fields.
   * `age` starts at Java's `int` default, 0.
   */
  class Builder {
    var species: JavaString
    var age: int32

    constructor (species: JavaString)
      ensures this.species == species && age == 0
    {
      this.species := species;
      age := 0;
    }

    /** `age(int)`: sets the age only and returns this builder. */
    method Age(age: int32) returns (self: Builder)
      modifies this`age
      ensures self == this
      ensures this.age == age && species == old(species)
    {
      this.age := age;
      self := this;
    }

    /** `build()`: the two-argument constructor applied to the current fields. */
    method Build() returns (r: Result<Animal, IllegalArgument>)
      ensures r.Success? <==> Validate(species, age).Success?
      ensures r.Failure? ==> r.error == Validate(species, age).error
      ensures r.Success? ==> fresh(r.value) && r.value.species == species.value && r.value.age == age
      ensures r.Success? ==> r.value.Valid()
    {
      r := Create(species, age);
    }
  }

  /** Age -1 is rejected and age 0 accepted for a well-formed species. */
  method BuildAgeBoundary(species: string) returns (minusOne: Result<Animal, IllegalArgument>, zero: Result<Animal, IllegalArgument>)
    requires !IsBlank(species)
    ensures minusOne == Failure(AgeNegative)
    ensures zero.Success? && zero.value.species == species && zero.value.age == 0
  {
    var b := new Builder(Some(species));
    b := b.Age(-1);
    minusOne := b.Build();
    b := b.Age(0);
    zero := b.Build();
  }

  /** A builder whose age is never set builds with age 0 exactly when the species is acceptable. */
  method BuildWithoutAge(species: JavaString) returns (r: Result<Animal, IllegalArgument>)
    ensures r.Success? <==> species.Some? && !IsBlank(species.value)
    ensures r.Success? ==> r.value.age == 0
    ensures r.Failure? ==> r.error == SpeciesNullOrEmpty
  {
    var b := new Builder(species);
    r := b.Build();
  }

  /**
   * Two animals built from the same fields are distinct objects (identity
   * equality) with the same hash code.
   */
  method BuildTwins(species: string, age: int32) returns (first: Animal, second: Animal)
    requires !IsBlank(species) && age >= 0
    ensures first != second
    ensures first.species == second.species == species && first.age == second.age == age
    ensures HashCode(first) == HashCode(second)
  {
    var r1 := Create(Some(species), age);
    var r2 := Create(Some(species), age);
    first, second := r1.value, r2.value;
  }
}
