/** The part of a document class's metadata that a hydrator reads: its field
    mappings, in declaration order. */
module Mapping {

  /** `$mapping['association']`: absent, or one of ClassMetadata's four constants. */
  datatype Association = NoAssociation | ReferenceOne | ReferenceMany | EmbedOne | EmbedMany
  {
    predicate IsMany()
    {
      this == ReferenceMany || this == EmbedMany
    }
  }

  /** One entry of `ClassMetadata::$fieldMappings`.
      fieldName: the document property; name: the key in the stored document;
      typeName: the mapping type; alsoLoadFields: the `@AlsoLoad` keys, in order
      (empty when the mapping has none). */
  datatype FieldMapping = FieldMapping(
    fieldName: string,
    name: string,
    typeName: string,
    association: Association,
    alsoLoadFields: seq<string>)

  datatype ClassMetadata = ClassMetadata(name: string, fieldMappings: seq<FieldMapping>)
  {
    /** `$fieldMappings` is a PHP array keyed by fieldName, so no two mappings share one. */
    ghost predicate Valid()
    {
      UniqueFieldNames(fieldMappings)
    }
  }

  ghost predicate UniqueFieldNames(ms: seq<FieldMapping>)
  {
    forall i, j | 0 <= i < j < |ms| :: ms[i].fieldName != ms[j].fieldName
  }

  /** The field names of the first n mappings. */
  function MappedNames(ms: seq<FieldMapping>, n: nat): set<string>
    requires n <= |ms|
  {
    if n == 0 then {} else MappedNames(ms, n - 1) + {ms[n - 1].fieldName}
  }

  /** A name is among the first n field names exactly when one of those mappings
      carries it. */
  lemma {:induction false} MappedNamesMember(ms: seq<FieldMapping>, n: nat, key: string)
    requires n <= |ms|
    ensures key in MappedNames(ms, n) <==> exists i | 0 <= i < n :: ms[i].fieldName == key
  {
    if n > 0 {
      MappedNamesMember(ms, n - 1, key);
      if key == ms[n - 1].fieldName {
        assert ms[n - 1].fieldName == key;
      }
    }
  }

  /** With unique field names, mapping k's own field name is not among those
      before it. */
  lemma {:induction false} NotYetMapped(ms: seq<FieldMapping>, k: nat)
    requires UniqueFieldNames(ms) && k < |ms|
    ensures ms[k].fieldName !in MappedNames(ms, k)
    ensures forall i | 0 <= i < k :: ms[i].fieldName != ms[k].fieldName
  {
    MappedNamesMember(ms, k, ms[k].fieldName);
  }
}
