/** The `hydrate($document, $data)` procedure that HydratorFactory generates for a
    document class, as an interpreter over the class's ordered field mappings.
    Collaborators it calls (the document manager, the type registry, the nested
    hydrator) are uninterpreted functions; the unit of work records the calls it
    receives. */
module Hydration {
  import opened PhpValues
  import opened Mapping
  import opened AlsoLoad

  /** What hydrate writes into a document property (and into its snapshot). */
  datatype Slot =
    | Converted(value: Value)                  // the type's conversion applied to the stored value
    | Reference(className: string, id: Value)   // the document manager's reference to a class and identifier
    | Collection(collection: PersistentCollection)
    | Embedded(document: Document)

  /** A document object; `fields` holds the properties written through reflection. */
  class Document {
    const className: string
    var fields: map<string, Slot>

    /** `ClassMetadata::newInstance()`: a blank instance of the class. */
    constructor (className: string)
      ensures this.className == className && fields == map[]
    {
      this.className := className;
      fields := map[];
    }
  }

  datatype Owner = Owner(document: Document, mapping: FieldMapping)

  /** The state of a PersistentCollection that hydrate sets up. */
  class PersistentCollection {
    var owner: Option<Owner>
    var initialized: bool
    var mongoData: Option<Value>

    /** The collection's own constructor is not part of this model; it is taken to
        start without owner or raw data. */
    constructor ()
      ensures owner == None && initialized && mongoData == None
    {
      owner := None;
      initialized := true;
      mongoData := None;
    }

    method SetOwner(document: Document, mapping: FieldMapping)
      modifies this
      ensures owner == Some(Owner(document, mapping))
      ensures initialized == old(initialized) && mongoData == old(mongoData)
    {
      owner := Some(Owner(document, mapping));
    }

    method SetInitialized(value: bool)
      modifies this
      ensures initialized == value
      ensures owner == old(owner) && mongoData == old(mongoData)
    {
      initialized := value;
    }

    method SetMongoData(data: Value)
      modifies this
      ensures mongoData == Some(data)
      ensures owner == old(owner) && initialized == old(initialized)
    {
      mongoData := Some(data);
    }
  }

  /** A call received by the unit of work. */
  datatype UowCall =
    | ManagedCall(document: Document, id: Value, data: map<string, Slot>)
    | ParentAssociationCall(document: Document, mapping: FieldMapping, parent: Document, propertyPath: string)

  /** The unit of work, seen only through the calls hydrate makes to it. */
  class UnitOfWork {
    ghost var calls: seq<UowCall>

    constructor ()
      ensures calls == []
    {
      calls := [];
    }

    method RegisterManaged(document: Document, id: Value, data: map<string, Slot>)
      modifies this
      ensures calls == old(calls) + [ManagedCall(document, id, data)]
    {
      calls := calls + [ManagedCall(document, id, data)];
    }

    method SetParentAssociation(document: Document, mapping: FieldMapping, parent: Document, propertyPath: string)
      modifies this
      ensures calls == old(calls) + [ParentAssociationCall(document, mapping, parent, propertyPath)]
    {
      calls := calls + [ParentAssociationCall(document, mapping, parent, propertyPath)];
    }
  }

  /** The opaque collaborators of a hydrator. */
  datatype DocumentManager = DocumentManager(
    classMetadata: map<string, ClassMetadata>,           // getClassMetadata, for the classes it knows
    discriminatedClass: (FieldMapping, Value) -> string, // getClassNameFromDiscriminatorValue
    phpIdentifier: (string, Value) -> Value,             // getClassMetadata($c)->getPHPIdentifierValue
    embeddedData: (string, Value) -> map<string, Slot>,  // what getHydrator()->hydrate returns for an embedded document
    convertToPHP: (string, Value) -> Value)              // Type::getType($type)->closureToPHP()
  {
    /** Every class's metadata has unique field names. */
    ghost predicate Valid()
    {
      forall c | c in classMetadata :: classMetadata[c].Valid()
    }
  }

  /** The proxy a REFERENCE_ONE mapping stores for a stored reference: a reference
      to the class the discriminator names, whose identifier is that class's PHP
      value of the reference's `$id` entry (null when it has none). */
  function ReferenceTo(dm: DocumentManager, m: FieldMapping, reference: Value): (r: Slot)
    ensures r.Reference? && r.className == dm.discriminatedClass(m, reference)
    ensures reference.Doc? && "$id" in reference.entries ==>
              r.id == dm.phpIdentifier(r.className, reference.entries["$id"])
    ensures !(reference.Doc? && "$id" in reference.entries) ==> r.id == dm.phpIdentifier(r.className, Null)
  {
    var className := dm.discriminatedClass(m, reference);
    Reference(className, dm.phpIdentifier(className, Index(reference, "$id")))
  }

  /** The raw data a many-valued mapping hands to its collection: the stored value
      under the mapping's name when it is set and truthy, and nothing otherwise. */
  function AttachedData(data: map<string, Value>, name: string): (r: Option<Value>)
    ensures r.Some? <==> Isset(data, name) && Truthy(data[name])
    ensures r.Some? ==> r.value == data[name]
    ensures name in data && data[name] in {List([]), Doc(map[])} ==> r == None
  {
    var mongoData := if Isset(data, name) then data[name] else Null;
    if Truthy(mongoData) then Some(mongoData) else None
  }

  /** A collection as hydrate leaves it for a many-valued mapping m of document,
      read from data: owned, not initialized, raw data attached when truthy. */
  ghost predicate CollectionSetUp(c: PersistentCollection, document: Document, m: FieldMapping, data: map<string, Value>)
    reads c
  {
    c.owner == Some(Owner(document, m)) && !c.initialized && c.mongoData == AttachedData(data, m.name)
  }

  /** The collection or embedded document a slot holds was created since the
      method's entry. */
  twostate predicate Created(new s: Option<Slot>)
  {
    && (s.Some? && s.value.Collection? ==> fresh(s.value.collection))
    && (s.Some? && s.value.Embedded? ==> fresh(s.value.document))
  }

  /** The collections a snapshot holds. */
  function Collections(snapshot: map<string, Slot>): set<PersistentCollection>
  {
    set f | f in snapshot && snapshot[f].Collection? :: snapshot[f].collection
  }

  /** No two entries of a snapshot share an embedded document or a collection:
      each mapping builds its own object. */
  ghost predicate DistinctObjects(snapshot: map<string, Slot>)
  {
    forall f, g {:trigger snapshot[f], snapshot[g]} | f in snapshot && g in snapshot && f != g ::
      && (snapshot[f].Embedded? && snapshot[g].Embedded? ==> snapshot[f].document != snapshot[g].document)
      && (snapshot[f].Collection? && snapshot[g].Collection? ==> snapshot[f].collection != snapshot[g].collection)
  }

  /** The embedded document or collection v holds is held by no entry of snapshot. */
  ghost predicate NotHeldBy(snapshot: map<string, Slot>, v: Option<Slot>)
  {
    && (v.Some? && v.value.Embedded? ==>
          forall g | g in snapshot && snapshot[g].Embedded? :: snapshot[g].document != v.value.document)
    && (v.Some? && v.value.Collection? ==>
          forall g | g in snapshot && snapshot[g].Collection? :: snapshot[g].collection != v.value.collection)
  }

  /** Writing an entry whose object no other entry holds keeps the objects distinct. */
  lemma DistinctAfterWrite(snapshot: map<string, Slot>, key: string, v: Option<Slot>)
    requires DistinctObjects(snapshot)
    requires NotHeldBy(snapshot, v)
    ensures DistinctObjects(Write(snapshot, key, v))
  {
  }

  /** The object-level outcome of mapping m, which read data, on document's
      property s: a many-valued mapping gets a collection set up for it, and a set
      EMBED_ONE value a new document of the discriminated class. */
  ghost predicate SlotReady(dm: DocumentManager, document: Document, m: FieldMapping,
                            data: map<string, Value>, s: Option<Slot>)
    reads if s.Some? && s.value.Collection? then {s.value.collection} else {}
  {
    && (m.association.IsMany() ==>
          s.Some? && s.value.Collection? && CollectionSetUp(s.value.collection, document, m, data))
    && (m.association == EmbedOne && Isset(data, m.name) ==>
          s.Some? && s.value.Embedded? && s.value.document.className == dm.discriminatedClass(m, data[m.name]))
  }

  /** What mapping m, reading data, records in the snapshot and writes into the
      document property: a converted value, a reference or a new embedded document
      when `data[name]` is set and nothing when it is not; a collection for a
      many-valued mapping whatever the data. */
  predicate Recorded(dm: DocumentManager, m: FieldMapping, data: map<string, Value>, r: Option<Slot>)
  {
    match m.association
    case NoAssociation =>
      r == if Isset(data, m.name) then Some(Converted(dm.convertToPHP(m.typeName, data[m.name]))) else None
    case ReferenceOne =>
      r == if Isset(data, m.name) then Some(ReferenceTo(dm, m, data[m.name])) else None
    case EmbedOne =>
      if Isset(data, m.name) then r.Some? && r.value.Embedded? else r == None
    case ReferenceMany =>
      r.Some? && r.value.Collection?
    case EmbedMany =>
      r.Some? && r.value.Collection?
  }

  /** A map with the entry under key set to v, or left alone when v is None. */
  function Write<V>(m: map<string, V>, key: string, v: Option<V>): map<string, V>
  {
    if v.Some? then m[key := v.value] else m
  }

  /** Writing one entry after overriding is overriding with the written entry. */
  lemma OverrideWrite(initial: map<string, Slot>, snapshot: map<string, Slot>, fields: map<string, Slot>,
                      fields': map<string, Slot>, snapshot': map<string, Slot>, key: string, v: Option<Slot>)
    requires fields == initial + snapshot
    requires fields' == Write(fields, key, v) && snapshot' == Write(snapshot, key, v)
    ensures fields' == initial + snapshot'
  {
  }

  /** The snapshot built by the first n mappings: it holds only their field names,
      each with what the mapping records for the data it read. */
  ghost predicate SnapshotOf(dm: DocumentManager, ms: seq<FieldMapping>, data: map<string, Value>,
                             snapshot: map<string, Slot>, n: nat)
    requires n <= |ms|
  {
    && snapshot.Keys <= MappedNames(ms, n)
    && forall i | 0 <= i < n :: Recorded(dm, ms[i], DataSeenBy(ms, data, i), Lookup(snapshot, ms[i].fieldName))
  }

  /** Mapping k adds its own entry to the snapshot of the first k mappings and
      leaves theirs alone. */
  lemma SnapshotStep(dm: DocumentManager, ms: seq<FieldMapping>, data: map<string, Value>,
                     snapshot: map<string, Slot>, snapshot': map<string, Slot>, k: nat)
    requires k < |ms| && forall i | 0 <= i < k :: ms[i].fieldName != ms[k].fieldName
    requires SnapshotOf(dm, ms, data, snapshot, k)
    requires snapshot' == Write(snapshot, ms[k].fieldName, Lookup(snapshot', ms[k].fieldName))
    requires Recorded(dm, ms[k], DataSeenBy(ms, data, k), Lookup(snapshot', ms[k].fieldName))
    ensures SnapshotOf(dm, ms, data, snapshot', k + 1)
    ensures forall i | 0 <= i < k :: Lookup(snapshot', ms[i].fieldName) == Lookup(snapshot, ms[i].fieldName)
  {
  }

  /** Every key of a hydrate snapshot is the field name of one of the class's mappings. */
  lemma SnapshotKeysMapped(dm: DocumentManager, ms: seq<FieldMapping>, data: map<string, Value>,
                           snapshot: map<string, Slot>, key: string)
    requires SnapshotOf(dm, ms, data, snapshot, |ms|)
    requires key in snapshot
    ensures exists i | 0 <= i < |ms| :: ms[i].fieldName == key
  {
    MappedNamesMember(ms, |ms|, key);
  }

  /** A property that no mapping names keeps its value through hydrate, and the
      snapshot has no entry for it. */
  lemma UnmappedUntouched(dm: DocumentManager, ms: seq<FieldMapping>, data: map<string, Value>,
                          before: map<string, Slot>, snapshot: map<string, Slot>, key: string)
    requires SnapshotOf(dm, ms, data, snapshot, |ms|)
    requires forall i | 0 <= i < |ms| :: ms[i].fieldName != key
    ensures key !in snapshot
    ensures Lookup(before + snapshot, key) == Lookup(before, key)
  {
    MappedNamesMember(ms, |ms|, key);
  }

  /** A mapping without association, whose stored name is its field name and none
      of whose aliases is an earlier field name, converts the last set alias of the
      caller's data, else the caller's own value, and records nothing when neither
      is set. */
  lemma ConvertedFromLastAlias(dm: DocumentManager, ms: seq<FieldMapping>, data: map<string, Value>,
                               snapshot: map<string, Slot>, i: nat)
    requires UniqueFieldNames(ms) && i < |ms|
    requires SnapshotOf(dm, ms, data, snapshot, |ms|)
    requires ms[i].association == NoAssociation && ms[i].name == ms[i].fieldName
    requires forall j | 0 <= j < |ms[i].alsoLoadFields| :: ms[i].alsoLoadFields[j] !in MappedNames(ms, i)
    ensures
      var m := ms[i];
      var r := LastSetAlias(data, m.fieldName, m.alsoLoadFields);
      var read := if 0 <= r then Some(data[m.alsoLoadFields[r]]) else Lookup(data, m.fieldName);
      Lookup(snapshot, m.fieldName)
      == if read.Some? && !read.value.Null? then Some(Converted(dm.convertToPHP(m.typeName, read.value))) else None
  {
    SeenUnderFieldName(ms, data, i);
  }

  /** Aliases are copied under the field name while the mapping reads its stored
      name: when the two differ, and no mapping up to this one has the stored name
      as its field name, the mapping reads the caller's own value. */
  lemma RenamedFieldIgnoresAliases(ms: seq<FieldMapping>, data: map<string, Value>, i: nat)
    requires i < |ms|
    requires ms[i].name !in MappedNames(ms, i + 1)
    ensures Lookup(DataSeenBy(ms, data, i), ms[i].name) == Lookup(data, ms[i].name)
  {
    AliasedDataOutsideMapped(ms, data, i + 1, ms[i].name);
  }

  /** The unit-of-work calls hydrate makes for mapping m: for an embedded document,
      registerManaged and then setParentAssociation. */
  function FieldCalls(dm: DocumentManager, m: FieldMapping, data: map<string, Value>,
                      document: Document, recorded: Option<Slot>): seq<UowCall>
  {
    if m.association == EmbedOne && Isset(data, m.name) && recorded.Some? && recorded.value.Embedded? then
      var child, embedded := recorded.value.document, data[m.name];
      [ManagedCall(child, Null, dm.embeddedData(dm.discriminatedClass(m, embedded), embedded)),
       ParentAssociationCall(child, m, document, m.name)]
    else []
  }

  /** The unit-of-work calls for the first n mappings, in mapping order. */
  ghost function EmbedCalls(dm: DocumentManager, ms: seq<FieldMapping>, data: map<string, Value>,
                            document: Document, snapshot: map<string, Slot>, n: nat): seq<UowCall>
    requires n <= |ms|
  {
    if n == 0 then []
    else EmbedCalls(dm, ms, data, document, snapshot, n - 1)
         + FieldCalls(dm, ms[n - 1], DataSeenBy(ms, data, n - 1), document, Lookup(snapshot, ms[n - 1].fieldName))
  }

  /** The calls of the first n mappings depend only on their snapshot entries. */
  lemma {:induction false} EmbedCallsFrame(dm: DocumentManager, ms: seq<FieldMapping>, data: map<string, Value>,
                                           document: Document, s1: map<string, Slot>, s2: map<string, Slot>, n: nat)
    requires n <= |ms|
    requires forall i | 0 <= i < n :: Lookup(s1, ms[i].fieldName) == Lookup(s2, ms[i].fieldName)
    ensures EmbedCalls(dm, ms, data, document, s1, n) == EmbedCalls(dm, ms, data, document, s2, n)
  {
    if n > 0 {
      EmbedCallsFrame(dm, ms, data, document, s1, s2, n - 1);
    }
  }

  /** The values hydrate keeps track of after its first k mappings: current is the
      local data after their alias copies, snapshot is what they record, the
      document's properties (fields) are its initial ones overwritten by the
      snapshot, and the unit of work's calls (calls) are the initial ones followed
      by those mappings' embedded-document calls. */
  ghost predicate Bookkept(dm: DocumentManager, ms: seq<FieldMapping>, data: map<string, Value>, document: Document,
                           k: nat, current: map<string, Value>, snapshot: map<string, Slot>,
                           fields: map<string, Slot>, initialFields: map<string, Slot>,
                           calls: seq<UowCall>, initialCalls: seq<UowCall>)
    requires k <= |ms|
  {
    && current == AliasedData(ms, data, k)
    && fields == initialFields + snapshot
    && SnapshotOf(dm, ms, data, snapshot, k)
    && calls == initialCalls + EmbedCalls(dm, ms, data, document, snapshot, k)
  }

  /** Mapping k's alias copies, its one property write, its snapshot entry and
      its unit-of-work calls carry the bookkeeping of the first k mappings to k + 1,
      leaving the earlier mappings' entries alone. */
  lemma BookkeptStep(dm: DocumentManager, ms: seq<FieldMapping>, data: map<string, Value>, document: Document,
                     k: nat, current: map<string, Value>, current': map<string, Value>,
                     snapshot: map<string, Slot>, snapshot': map<string, Slot>,
                     fields: map<string, Slot>, fields': map<string, Slot>, initialFields: map<string, Slot>,
                     calls: seq<UowCall>, calls': seq<UowCall>, initialCalls: seq<UowCall>)
    requires k < |ms| && forall i | 0 <= i < k :: ms[i].fieldName != ms[k].fieldName
    requires Bookkept(dm, ms, data, document, k, current, snapshot, fields, initialFields, calls, initialCalls)
    requires current' == ApplyAliases(current, ms[k].fieldName, ms[k].alsoLoadFields)
    requires snapshot' == Write(snapshot, ms[k].fieldName, Lookup(snapshot', ms[k].fieldName))
    requires fields' == Write(fields, ms[k].fieldName, Lookup(snapshot', ms[k].fieldName))
    requires Recorded(dm, ms[k], current', Lookup(snapshot', ms[k].fieldName))
    requires calls' == calls + FieldCalls(dm, ms[k], current', document, Lookup(snapshot', ms[k].fieldName))
    ensures Bookkept(dm, ms, data, document, k + 1, current', snapshot', fields', initialFields, calls', initialCalls)
    ensures forall i | 0 <= i < k :: Lookup(snapshot', ms[i].fieldName) == Lookup(snapshot, ms[i].fieldName)
  {
    var f := ms[k].fieldName;
    var v := Lookup(snapshot', f);
    SnapshotStep(dm, ms, data, snapshot, snapshot', k);
    OverrideWrite(initialFields, snapshot, fields, fields', snapshot', f, v);
    EmbedCallsFrame(dm, ms, data, document, snapshot', snapshot, k);
    var before := EmbedCalls(dm, ms, data, document, snapshot, k);
    var fieldCalls := FieldCalls(dm, ms[k], current', document, v);
    assert EmbedCalls(dm, ms, data, document, snapshot', k + 1) == before + fieldCalls;
    assert calls' == initialCalls + (before + fieldCalls);
  }

  /** The objects of the first k mappings are set up. */
  ghost predicate SlotsReady(dm: DocumentManager, document: Document, ms: seq<FieldMapping>, data: map<string, Value>,
                             snapshot: map<string, Slot>, k: nat)
    requires k <= |ms|
    reads Collections(snapshot)
  {
    forall i | 0 <= i < k :: SlotReady(dm, document, ms[i], DataSeenBy(ms, data, i), Lookup(snapshot, ms[i].fieldName))
  }

  /** An instance of a generated hydrator class, built with the document manager,
      the unit of work and the class metadata. */
  class Hydrator {
    const dm: DocumentManager
    const unitOfWork: UnitOfWork
    const metadata: ClassMetadata

    constructor (dm: DocumentManager, unitOfWork: UnitOfWork, metadata: ClassMetadata)
      ensures this.dm == dm && this.unitOfWork == unitOfWork && this.metadata == metadata
    {
      this.dm := dm;
      this.unitOfWork := unitOfWork;
      this.metadata := metadata;
    }

    /** The code generated for one mapping, after its alias copies: the property
        and the snapshot get the same entry under the field name, or none. */
    method HydrateField(document: Document, m: FieldMapping, data: map<string, Value>,
                        hydratedData: map<string, Slot>) returns (hydratedOut: map<string, Slot>)
      requires m.fieldName !in hydratedData
      modifies document, unitOfWork
      ensures Recorded(dm, m, data, Lookup(hydratedOut, m.fieldName))
      ensures hydratedOut == Write(hydratedData, m.fieldName, Lookup(hydratedOut, m.fieldName))
      ensures document.fields == Write(old(document.fields), m.fieldName, Lookup(hydratedOut, m.fieldName))
      ensures SlotReady(dm, document, m, data, Lookup(hydratedOut, m.fieldName))
      ensures Created(Lookup(hydratedOut, m.fieldName))
      ensures NotHeldBy(hydratedData, Lookup(hydratedOut, m.fieldName))
      ensures unitOfWork.calls == old(unitOfWork.calls)
                + FieldCalls(dm, m, data, document, Lookup(hydratedOut, m.fieldName))
    {
      hydratedOut := hydratedData;
      var f := m.fieldName;
      match m.association {
        case NoAssociation =>
          if Isset(data, m.name) {
            var value := data[m.name];
            var ret := Converted(dm.convertToPHP(m.typeName, value));
            document.fields := document.fields[f := ret];
            hydratedOut := hydratedData[f := ret];
          }
        case ReferenceOne =>
          if Isset(data, m.name) {
            var reference := data[m.name];
            var className := dm.discriminatedClass(m, reference);
            var id := dm.phpIdentifier(className, Index(reference, "$id"));
            var ret := Reference(className, id);
            document.fields := document.fields[f := ret];
            hydratedOut := hydratedData[f := ret];
          }
        case EmbedOne =>
          if Isset(data, m.name) {
            var embeddedDocument := data[m.name];
            var className := dm.discriminatedClass(m, embeddedDocument);
            var ret := new Document(className);
            var embeddedData := dm.embeddedData(className, embeddedDocument);
            unitOfWork.RegisterManaged(ret, Null, embeddedData);
            unitOfWork.SetParentAssociation(ret, m, document, m.name);
            document.fields := document.fields[f := Embedded(ret)];
            hydratedOut := hydratedData[f := Embedded(ret)];
          }
        case _ =>
          var mongoData := if Isset(data, m.name) then data[m.name] else Null;
          var ret := new PersistentCollection();
          ret.SetOwner(document, m);
          ret.SetInitialized(false);
          if Truthy(mongoData) {
            ret.SetMongoData(mongoData);
          }
          document.fields := document.fields[f := Collection(ret)];
          hydratedOut := hydratedData[f := Collection(ret)];
      }
    }

    /** The `@AlsoLoad` copies generated for one mapping, run on the local `$data`. */
    method CopyAliases(data: map<string, Value>, m: FieldMapping) returns (current: map<string, Value>)
      ensures current == ApplyAliases(data, m.fieldName, m.alsoLoadFields)
    {
      current := data;
      var aliases := m.alsoLoadFields;
      var j := 0;
      while j < |aliases|
        invariant 0 <= j <= |aliases|
        invariant current == ApplyAliases(data, m.fieldName, aliases[..j])
      {
        assert aliases[..j + 1][..j] == aliases[..j];
        var alias := aliases[j];
        if Isset(current, alias) {
          current := current[m.fieldName := current[alias]];
        }
        j := j + 1;
      }
      assert aliases[..j] == aliases;
    }

    /** What hydrate has done after its first k mappings, starting from the
        document properties initialFields and the unit-of-work calls initialCalls:
        the values it keeps track of are those of Bookkept, and the objects of
        those mappings are set up. */
    ghost predicate Progress(document: Document, data: map<string, Value>, k: nat, current: map<string, Value>,
                             snapshot: map<string, Slot>, initialFields: map<string, Slot>,
                             initialCalls: seq<UowCall>)
      requires k <= |metadata.fieldMappings|
      reads document, unitOfWork, Collections(snapshot)
    {
      && Bookkept(dm, metadata.fieldMappings, data, document, k, current, snapshot,
                  document.fields, initialFields, unitOfWork.calls, initialCalls)
      && SlotsReady(dm, document, metadata.fieldMappings, data, snapshot, k)
    }

    /** The code generated for mapping k: its alias copies, then its property
        code, carrying hydrate's progress over the first k mappings to k + 1. */
    method HydrateNext(document: Document, data: map<string, Value>, k: nat, current: map<string, Value>,
                       hydratedData: map<string, Slot>, ghost initialFields: map<string, Slot>,
                       ghost initialCalls: seq<UowCall>)
      returns (current': map<string, Value>, hydratedOut: map<string, Slot>)
      requires k < |metadata.fieldMappings|
      requires metadata.fieldMappings[k].fieldName !in MappedNames(metadata.fieldMappings, k)
      requires forall i | 0 <= i < k :: metadata.fieldMappings[i].fieldName != metadata.fieldMappings[k].fieldName
      requires Progress(document, data, k, current, hydratedData, initialFields, initialCalls)
      requires DistinctObjects(hydratedData)
      modifies document, unitOfWork
      ensures Progress(document, data, k + 1, current', hydratedOut, initialFields, initialCalls)
      ensures hydratedOut == Write(hydratedData, metadata.fieldMappings[k].fieldName,
                                   Lookup(hydratedOut, metadata.fieldMappings[k].fieldName))
      ensures Created(Lookup(hydratedOut, metadata.fieldMappings[k].fieldName))
      ensures DistinctObjects(hydratedOut)
    {
      var m := metadata.fieldMappings[k];
      current' := CopyAliases(current, m);
      ghost var callsBefore, fieldsBefore := unitOfWork.calls, document.fields;
      hydratedOut := HydrateField(document, m, current', hydratedData);
      BookkeptStep(dm, metadata.fieldMappings, data, document, k, current, current', hydratedData, hydratedOut,
                   fieldsBefore, document.fields, initialFields, callsBefore, unitOfWork.calls, initialCalls);
      DistinctAfterWrite(hydratedData, m.fieldName, Lookup(hydratedOut, m.fieldName));
      forall i | 0 <= i < k + 1
        ensures SlotReady(dm, document, metadata.fieldMappings[i], DataSeenBy(metadata.fieldMappings, data, i),
                          Lookup(hydratedOut, metadata.fieldMappings[i].fieldName))
      {
        if i < k {
          var s := Lookup(hydratedData, metadata.fieldMappings[i].fieldName);
          assert old(SlotReady(dm, document, metadata.fieldMappings[i], DataSeenBy(metadata.fieldMappings, data, i), s));
          assert s.Some? && s.value.Collection? ==> unchanged(s.value.collection);
        }
      }
    }

    /** `hydrate($document, $data)`: walks the field mappings in order, copying
        aliases in the local data, writing document properties and building the
        returned snapshot. The document ends up with its previous properties
        overwritten by exactly the snapshot's entries. */
    method Hydrate(document: Document, data: map<string, Value>) returns (hydratedData: map<string, Slot>)
      requires metadata.Valid()
      modifies document, unitOfWork
      ensures document.fields == old(document.fields) + hydratedData
      ensures SnapshotOf(dm, metadata.fieldMappings, data, hydratedData, |metadata.fieldMappings|)
      ensures forall i | 0 <= i < |metadata.fieldMappings| ::
                var m := metadata.fieldMappings[i];
                var s := Lookup(hydratedData, m.fieldName);
                SlotReady(dm, document, m, DataSeenBy(metadata.fieldMappings, data, i), s)
      ensures forall f | f in hydratedData :: Created(Some(hydratedData[f]))
      ensures DistinctObjects(hydratedData)
      ensures unitOfWork.calls == old(unitOfWork.calls)
                + EmbedCalls(dm, metadata.fieldMappings, data, document, hydratedData, |metadata.fieldMappings|)
    {
      ghost var initialFields, initialCalls := document.fields, unitOfWork.calls;
      var current := data;
      hydratedData := map[];
      var k := 0;
      while k < |metadata.fieldMappings|
        invariant 0 <= k <= |metadata.fieldMappings|
        invariant Progress(document, data, k, current, hydratedData, initialFields, initialCalls)
        invariant forall f | f in hydratedData :: Created(Some(hydratedData[f]))
        invariant DistinctObjects(hydratedData)
      {
        NotYetMapped(metadata.fieldMappings, k);
        ghost var previous := hydratedData;
        current, hydratedData := HydrateNext(document, data, k, current, hydratedData,
                                             initialFields, initialCalls);
        forall f | f in hydratedData
          ensures Created(Some(hydratedData[f]))
        {
          if f != metadata.fieldMappings[k].fieldName {
            assert f in previous && hydratedData[f] == previous[f];
          }
        }
        k := k + 1;
      }
    }
  }
}
