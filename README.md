# Lab4: Zoo, Animal and Enclosure as verified value objects

`Lab4.java` defines three small immutable types, each created through a builder:

- `Zoo` has a mandatory `name` and an optional `location`.
- `Animal` has a `species` and an `age`.
- `Enclosure` has a `type` and a `capacity`.

Building validates the fields and either produces the object or throws `IllegalArgumentException`:

- Text fields must be non-null and must not be empty after `trim()`.
- `age` must be `>= 0`.
- `capacity` must be `> 0`.

`Zoo` and `Enclosure` override `equals` and `hashCode` over all their fields. `Animal` overrides only `hashCode`.

The project has four modules:

- `JavaLang` (`java_lang.dfy`) models the Java library behaviour the classes rely on:
  - a `null`-able `String` is `Option<string>`, and `int` is the newtype `int32`;
  - `String.trim()` removes leading and trailing characters at most U+0020. It is proved to return a middle part of its argument that begins and ends with characters above U+0020, with only characters at most U+0020 cut off on either side. It gives the empty string exactly when every character is at most U+0020 (`IsBlank`);
  - `String.hashCode()` and `Objects.hash` are the 32-bit wrap-around folds `h = 31 * h + x`; for any string and any number of values, each is proved congruent modulo 2^32 to the same fold over unbounded integers, which is the Horner form of the documented polynomial;
  - `Objects.equals` is null-safe equality.
- `Zoos`, `Animals` and `Enclosures` (`zoo.dfy`, `animal.dfy`, `enclosure.dfy`) each contain:
  - the validators and the constructor as functions returning `Result`, where a thrown exception is `Failure` with one tag per failed check;
  - `equals` and `hashCode` as functions, with lemmas relating them;
  - the builder as a class whose setter changes only its own field (its frame names that one field) and returns `this`;
  - client methods that run the builders through concrete scenarios (the "Central Zoo" twins, the "Cage" capacities, age -1 and 0).

Modelling choices:

- `Zoo` and `Enclosure` are datatypes. Their `equals` is field-by-field comparison, which is proved equivalent to datatype equality.
- `Animal` has no `equals`, so Java compares two animals by identity. The model keeps that behaviour: `Animal` is a class with `const` fields, and Dafny's `==` on class references is identity. `Animals.BuildTwins` shows two distinct animals with identical fields and the same hash code. This does not break the `hashCode` contract, because identical objects always hash alike, so it is kept as written rather than "fixed".
- The `Animal` and `Enclosure` builders in the source stand outside their classes. Their `build()` calls `new Animal(this)` and `new Enclosure(this)`, but no such constructors exist. The model's `build()` calls the two-argument constructor (`Animal(String, int)` or `Enclosure(String, int)`) with the builder's current fields.
- `type` is a reserved word in Dafny, so the enclosure's `type` field is named `kind`.
- An unset `int` builder field keeps Java's default, 0. An `Enclosure` builder with no `capacity` therefore never builds. An `Animal` builder with no `age` builds with age 0.

## Model

| member | source | states |
|---|---|---|
| `JavaLang.Trim` | Lab4.java:17 | `trim()` returns a string with no strippable character at either end, and returns the empty string iff every character of the input is at most U+0020 |
| `JavaLang.TrimLeading` | Lab4.java:17 | the leading strip of `trim()` returns a suffix; everything it removed is at most U+0020, and what remains starts with a character above U+0020 or is empty |
| `JavaLang.TrimTrailing` | Lab4.java:17 | the trailing strip of `trim()` returns a prefix; everything it removed is at most U+0020, and what remains ends with a character above U+0020 or is empty |
| `JavaLang.Wrap` | Lab4.java:40 | Java `int` arithmetic: the result is congruent to the exact value modulo 2^32, and equal to it when it is in `int` range |
| `JavaLang.TrimIsMiddle` | Lab4.java:17 | the result of `trim()` is a contiguous part of the input with only characters at most U+0020 before and after it |
| `JavaLang.IsNullOrTrimEmpty` | Lab4.java:17 | the validators' guard holds iff the reference is null or every character of the string is at most U+0020 |
| `JavaLang.Step` | Lab4.java:40 | one `31 * h + x` step in `int` arithmetic agrees modulo 2^32 with the exact value |
| `JavaLang.StringHash` | Lab4.java:40 | for every string, `String.hashCode()` computed with 32-bit wrap-around agrees modulo 2^32 with the unbounded Horner form of s[0]*31^(n-1) + ... + s[n-1] |
| `JavaLang.NullableStringHash` | Lab4.java:40 | the hash `Objects.hash` takes for a `String` argument is 0 for null, and otherwise agrees modulo 2^32 with the string's documented polynomial |
| `JavaLang.ObjectsHash` | Lab4.java:40 | for any number of values, `Objects.hash` computed with 32-bit wrap-around agrees modulo 2^32 with the unbounded fold that starts at 1 and takes `31 * h + hash(value)` per value |
| `JavaLang.ObjectsHashOfPair` | Lab4.java:40 | `Objects.hash(a, b)` agrees modulo 2^32 with 31*(31*1 + hash(a)) + hash(b) |
| `JavaLang.ObjectsEquals` | Lab4.java:31-32 | `Objects.equals` on strings holds iff both are null or both hold the same characters |
| `Zoos.ValidateName` | Lab4.java:16-21 | fails with the name tag iff the name is null or blank after trimming; otherwise it returns the name unchanged and untrimmed |
| `Zoos.Construct` | Lab4.java:11-14 | the private constructor succeeds iff the name is non-null and has a character above U+0020; the zoo then holds exactly the given name and the unchecked (possibly null) location |
| `Zoos.Equals` | Lab4.java:27-33 | `equals` is false for null and otherwise holds iff both name and location are equal, with null-safe comparison of `location` |
| `Zoos.EqualsReflexive` | Lab4.java:27-33 | every zoo equals itself |
| `Zoos.EqualsSymmetric` | Lab4.java:27-33 | `a.equals(b)` iff `b.equals(a)` |
| `Zoos.EqualsTransitive` | Lab4.java:27-33 | `equals` is transitive |
| `Zoos.HashCode` | Lab4.java:39-41 | `hashCode()` agrees modulo 2^32 with 31*(31 + name.hashCode()) + h, where h is 0 for a null location and the location's `hashCode()` otherwise |
| `Zoos.HashConsistentWithEquals` | Lab4.java:39-41 | equal zoos have equal hash codes |
| `Zoos.NullAndEmptyLocationDiffer` | Lab4.java:27-41 | a null location and an empty location hash the same, but the zoos are not equal |
| `Zoos.Builder.constructor` | Lab4.java:50-52 | a new builder holds the given name and a null location |
| `Zoos.Builder.Location` | Lab4.java:54-57 | `location(...)` sets only the location, keeps the name and returns the same builder |
| `Zoos.Builder.Build` | Lab4.java:59-61 | `build()` succeeds iff the builder's name is valid; the zoo then holds the builder's name and location exactly |
| `Zoos.BuildTwinZoos` | Lab4.java:46-61 | two builds of `Builder("Central Zoo").location("Kyiv")` give equal zoos with equal hash codes |
| `Zoos.BuildBlankName` | Lab4.java:16-21 | a builder seeded with a null or blank name fails whatever location is set |
| `Animals.Animal.constructor` | Lab4.java:72-75 | the stored fields are the validated arguments, so every animal has a non-blank species and a non-negative age |
| `Animals.ValidateSpecies` | Lab4.java:77-82 | fails with the species tag iff the species is null or blank after trimming; otherwise it returns the species unchanged |
| `Animals.ValidateAge` | Lab4.java:84-89 | fails with the age tag iff the age is negative, so 0 is accepted; otherwise it returns the age unchanged |
| `Animals.Validate` | Lab4.java:72-89 | construction succeeds iff the species is valid and the age is non-negative; when both are invalid the species failure is the one reported |
| `Animals.Create` | Lab4.java:72-75 | `new Animal(species, age)` returns a fresh animal holding exactly the inputs, which therefore has a non-blank species and a non-negative age, or the failure of the first check that fails |
| `Animals.HashCode` | Lab4.java:94-97 | `hashCode()` agrees modulo 2^32 with 31*(31 + species.hashCode()) + age |
| `Animals.HashDependsOnFieldsOnly` | Lab4.java:94-97 | the hash is determined by `(species, age)` alone |
| `Animals.Builder.constructor` | Lab4.java:104-106 | a new builder holds the given species and age 0 |
| `Animals.Builder.Age` | Lab4.java:108-111 | `age(...)` sets only the age, keeps the species and returns the same builder |
| `Animals.Builder.Build` | Lab4.java:113-115 | `build()` behaves as the two-argument constructor on the builder's current fields; an animal it returns is fresh, holds those fields and is valid |
| `Animals.BuildAgeBoundary` | Lab4.java:84-89 | age -1 fails with the age tag; age 0 builds an animal with age 0 |
| `Animals.BuildWithoutAge` | Lab4.java:100-115 | with no `age(...)` call the builder builds with age 0, exactly when the species is valid |
| `Animals.BuildTwins` | Lab4.java:68-97 | two animals built from the same fields are distinct objects (no `equals`) with the same hash code |
| `Enclosures.ValidateType` | Lab4.java:131-136 | fails with the type tag iff the type is null or blank after trimming; otherwise it returns the type unchanged |
| `Enclosures.ValidateCapacity` | Lab4.java:138-143 | fails with the capacity tag iff the capacity is zero or negative; otherwise it returns the capacity unchanged |
| `Enclosures.Construct` | Lab4.java:126-143 | construction succeeds iff the type is valid and the capacity is positive, and then holds exactly the inputs; when both are invalid the type failure is the one reported |
| `Enclosures.Equals` | Lab4.java:149-155 | `equals` is false for null and otherwise holds iff both capacity and type are equal |
| `Enclosures.EqualsReflexive` | Lab4.java:149-155 | every enclosure equals itself |
| `Enclosures.EqualsSymmetric` | Lab4.java:149-155 | `a.equals(b)` iff `b.equals(a)` |
| `Enclosures.EqualsTransitive` | Lab4.java:149-155 | `equals` is transitive |
| `Enclosures.HashCode` | Lab4.java:161-163 | `hashCode()` agrees modulo 2^32 with 31*(31 + type.hashCode()) + capacity |
| `Enclosures.HashConsistentWithEquals` | Lab4.java:161-163 | equal enclosures have equal hash codes |
| `Enclosures.Builder.constructor` | Lab4.java:170-172 | a new builder holds the given type and capacity 0 |
| `Enclosures.Builder.Capacity` | Lab4.java:174-177 | `capacity(...)` sets only the capacity, keeps the type and returns the same builder |
| `Enclosures.Builder.Build` | Lab4.java:179-181 | `build()` succeeds iff the builder's type is valid and its capacity is positive; the enclosure then holds the builder's fields exactly |
| `Enclosures.BuildWithoutCapacity` | Lab4.java:166-181 | with no `capacity(...)` call the builder always fails: with the type tag if the type is invalid, otherwise with the capacity tag |
| `Enclosures.BuildCages` | Lab4.java:138-143 | `Builder("Cage")` builds with capacity 10 or 1 and fails with 0, -1 and -5 |

## Left out

- Exception messages: each `IllegalArgumentException` is a `Failure` tag naming the field and the rule, not the message text.
- Runtime type inspection in `equals` (`getClass() != o.getClass()` and the cast): both sides have the same concrete type in the model. The `this == o` shortcut is not a separate branch, because it is implied by comparing values.
- Characters outside the Basic Multilingual Plane: a Dafny `char` is a Unicode scalar value, while Java hashes UTF-16 code units. The hash formulas agree for text made of BMP characters only.
- The unused `java.util.regex.Pattern` import, and the reasons the file does not compile besides the builder choice described above. These include three public top-level classes (`Zoo`, `Animal`, `Enclosure`) in one file named after none of them, two top-level classes both named `Builder` (Lab4.java:100 and Lab4.java:166), `static` on those top-level classes, and extra closing braces (Lab4.java:117 and Lab4.java:183). Each type gets its own module here, so the two builders are `Animals.Builder` and `Enclosures.Builder`.
- Whitespace beyond the U+0020 rule: `trim()` strips nothing else, so neither does the model.
