/** The kind sets rules declare support for (internal/rules/interface.go). */
module TypeSets {
  import opened VTypes

  /** A `TypeSet` is a list of kinds. */
  type TypeSet = seq<TypeKind>

  /** `TypeSet.Contains`: a linear search that reports true exactly when `k` is listed.
      Functions (a rule's `SupportsType`) use the membership it computes, `k in ts`. */
  method Contains(ts: TypeSet, k: TypeKind) returns (b: bool)
    ensures b <==> k in ts
  {
    var i := 0;
    while i < |ts|
      invariant 0 <= i <= |ts|
      invariant k !in ts[..i]
    {
      if ts[i] == k {
        return true;
      }
      i := i + 1;
    }
    assert ts[..i] == ts;
    return false;
  }

  const StringTypes: TypeSet := [String]

  const IntegerTypes: TypeSet :=
    [Int, Int8, Int16, Int32, Int64, Uint, Uint8, Uint16, Uint32, Uint64]

  const AllTypes: TypeSet :=
    [String, Int, Int8, Int16, Int32, Int64, Uint, Uint8, Uint16, Uint32, Uint64,
     Float32, Float64, Bool]

  /** The signed and unsigned integer kinds, defined independently of the list. */
  predicate IsIntegerKind(k: TypeKind)
  {
    k.Int? || k.Int8? || k.Int16? || k.Int32? || k.Int64? ||
    k.Uint? || k.Uint8? || k.Uint16? || k.Uint32? || k.Uint64?
  }

  /** `IntegerTypes` holds exactly the ten integer kinds. */
  lemma IntegerTypesExactly(k: TypeKind)
    ensures k in IntegerTypes <==> IsIntegerKind(k)
  {
  }

  /** ... and lists each of them once. */
  lemma IntegerTypesDistinct()
    ensures |IntegerTypes| == 10
    ensures forall i, j :: 0 <= i < j < |IntegerTypes| ==> IntegerTypes[i] != IntegerTypes[j]
  {
  }

  /** `AllTypes` is the string kind, the integer kinds, the two float kinds and bool, and
      neither Unknown nor Struct. */
  lemma AllTypesExactly(k: TypeKind)
    ensures k in AllTypes <==> k in StringTypes || k in IntegerTypes || k in {Float32, Float64, Bool}
    ensures k in AllTypes <==> k != Unknown && k != Struct
  {
  }

  /** ... 14 distinct kinds. */
  lemma AllTypesDistinct()
    ensures |AllTypes| == 14
    ensures forall i, j :: 0 <= i < j < |AllTypes| ==> AllTypes[i] != AllTypes[j]
  {
  }

  /** The string and integer sets are disjoint and both lie inside `AllTypes`;
      no built-in set contains `Unknown` or `Struct`. */
  lemma SetsNested(k: TypeKind)
    ensures !(k in StringTypes && k in IntegerTypes)
    ensures k in StringTypes ==> k in AllTypes
    ensures k in IntegerTypes ==> k in AllTypes
    ensures k == Unknown || k == Struct ==> k !in StringTypes && k !in IntegerTypes && k !in AllTypes
  {
  }
}
