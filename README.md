# HydratorFactory hydration model

This project models the hydrator factory of Doctrine MongoDB ODM
(`lib/Doctrine/ODM/MongoDB/Hydrator/HydratorFactory.php`) and proves properties of
the model in Dafny. It has two parts.

- **The factory** (`factory.dfy`, module `Factory`). `getHydratorFor($className)`
  returns the cached hydrator of a document class when there is one. On a miss it:
  - fetches the class metadata;
  - writes the hydrator class file when the class is not loaded and
    auto-generation is on;
  - `require`s that file when the class is not loaded;
  - builds a hydrator, caches it and returns it.

  The PHP class table (`class_exists`) is a set of lower-cased class names and
  the hydrator directory a set of file names. `Factory.HydratorFactory.ClassExists`
  is the test against that set that stands for `class_exists($fqn, false)`. The
  two ways a miss fails are results rather than exceptions: missing metadata, and
  a `require` of a file that is not there.
- **The generated hydrator** (`hydration.dfy`, module `Hydration`). The generated
  `hydrate($document, $data)` is modelled as an interpreter over the class's
  ordered field mappings. The per-mapping code is not generated as text: the model
  loops over the mappings and runs, for each one, the code that would have been
  generated for it. That code has two steps:
  1. The `@AlsoLoad` copies (`also_load.dfy`, module `AlsoLoad`): each set alias,
     in declared order, overwrites `$data[fieldName]`, so the **last** set alias
     wins.
  2. The property code for the mapping's kind of association:
     - none: convert the value with the mapping's type;
     - `REFERENCE_ONE`: a reference built from the discriminated class and the
       PHP identifier;
     - `REFERENCE_MANY` / `EMBED_MANY`: a new `PersistentCollection` that is
       owned, not initialized, and whose raw data is attached only when truthy;
     - `EMBED_ONE`: a new embedded document of the discriminated class,
       registered with the unit of work and linked to its parent.

  Both `isset` and truthiness follow PHP (`php_values.dfy`). A `null` value counts
  as absent. `PhpValues.Index` is the array-indexing helper behind
  `$reference['$id']` in `Hydration.ReferenceTo`.

Collaborators are fields of the `DocumentManager` value, as uninterpreted total
functions:
- `getClassNameFromDiscriminatorValue`;
- `getPHPIdentifierValue`;
- the type's `closureToPHP` conversion;
- the snapshot returned by the nested hydrator for an embedded document.

The unit of work records the calls it receives in a ghost log. Documents and
collections are classes whose fields the generated code writes in place.

Four consequences of the code, as written, are proved:

- Alias copies are written under the mapping's `fieldName`, but the property code
  reads `$data[name]`. A mapping whose stored `name` differs from its `fieldName`,
  and is not the field name of an earlier mapping, therefore reads the caller's
  own value and ignores its aliases (`Hydration.RenamedFieldIgnoresAliases`).
- The same copies can rewrite another mapping's stored key. When a later
  mapping's stored `name` is an earlier mapping's `fieldName` and one of the
  earlier mapping's aliases is set, the later mapping reads the value of that
  mapping's last set alias instead of the caller's value
  (`AlsoLoad.AliasReachesStoredName`).
- The hydrator class name removes every backslash from the document class name.
  So `A\BC` and `AB\C` are given the same hydrator class
  (`Naming.HydratorClassNameIgnoresSeparator`).
- PHP looks loaded classes up without regard to letter case, while the cache is
  keyed by the exact class name. So `getHydratorFor('foo')` after
  `getHydratorFor('Foo')` misses the cache, but finds its hydrator class already
  loaded and neither generates nor requires a file
  (`Naming.HydratorFqnIgnoresCase`; the factory keeps loaded classes by
  lower-cased name).

`getClassMetadata` runs on every cache miss, before `class_exists` is consulted.
So an unmapped class fails whether or not auto-generation is on, and whether or
not a hydrator class of that name is already loaded.

## Model

| member | source | states |
|---|---|---|
| `Mapping.MappedNamesMember` | lib/Doctrine/ODM/MongoDB/Hydrator/HydratorFactory.php:102 | a name is among the first n mappings' field names exactly when one of those mappings carries it |
| `Mapping.NotYetMapped` | lib/Doctrine/ODM/MongoDB/Hydrator/HydratorFactory.php:102 | since the field mappings are keyed by field name, mapping k's field name is new among the mappings before it |
| `AlsoLoad.CopyAlias` | lib/Doctrine/ODM/MongoDB/Hydrator/HydratorFactory.php:108-110 | one alias step copies the alias's value under the field name when the alias is set, leaves that entry alone when it is not, and changes no other key |
| `AlsoLoad.ApplyAliases` | lib/Doctrine/ODM/MongoDB/Hydrator/HydratorFactory.php:103-115 | the alias steps of one mapping change no key other than the field name (what they write there is `AlsoLoad.ApplyAliasesLastWins`) |
| `AlsoLoad.LastSetAlias` | lib/Doctrine/ODM/MongoDB/Hydrator/HydratorFactory.php:103-115 | the alias chosen is set in the data and differs from the field name, and every later alias is unset or is the field name itself |
| `AlsoLoad.ApplyAliasesLastWins` | lib/Doctrine/ODM/MongoDB/Hydrator/HydratorFactory.php:103-115 | the sequence of alias copies leaves the data unchanged except that `data[fieldName]` takes the value of the last set alias (none set: unchanged), even over a set primary key |
| `AlsoLoad.LastSetAliasAgree` | lib/Doctrine/ODM/MongoDB/Hydrator/HydratorFactory.php:103-115 | the alias that wins depends only on the values under the alias keys |
| `AlsoLoad.AliasedDataOutsideMapped` | lib/Doctrine/ODM/MongoDB/Hydrator/HydratorFactory.php:102-115 | alias copies change no key that is not the field name of a mapping already processed |
| `AlsoLoad.AliasVisibleLater` | lib/Doctrine/ODM/MongoDB/Hydrator/HydratorFactory.php:102-115 | what mapping j's alias copies write under its field name is still there for every later mapping |
| `AlsoLoad.SeenUnderFieldName` | lib/Doctrine/ODM/MongoDB/Hydrator/HydratorFactory.php:102-115 | when no alias of mapping j is an earlier field name, the mapping sees under its field name the caller's value of its last set alias, or else the caller's own value |
| `AlsoLoad.AliasReachesStoredName` | lib/Doctrine/ODM/MongoDB/Hydrator/HydratorFactory.php:102-121 | a later mapping whose stored name is an earlier mapping's field name reads under it the caller's value of the earlier mapping's last set alias, or else the caller's own value |
| `Naming.StripBackslashes` | lib/Doctrine/ODM/MongoDB/Hydrator/HydratorFactory.php:83 | `str_replace('\\', '', s)` contains no backslash and keeps every other character with the same count; it is the identity on backslash-free names |
| `Naming.StripConcat` | lib/Doctrine/ODM/MongoDB/Hydrator/HydratorFactory.php:83 | removing backslashes from a concatenation removes them from each part |
| `Naming.HydratorClassName` | lib/Doctrine/ODM/MongoDB/Hydrator/HydratorFactory.php:83 | the hydrator class name has no backslash and ends in `Hydrator`; a namespace-free class name just gets that suffix |
| `Naming.HydratorClassNameIgnoresSeparator` | lib/Doctrine/ODM/MongoDB/Hydrator/HydratorFactory.php:83 | inserting a namespace separator anywhere in a class name does not change its hydrator class name |
| `Naming.ShortName` | lib/Doctrine/ODM/MongoDB/Hydrator/HydratorFactory.php:84 | the unqualified part of a class name is the longest backslash-free suffix of it: everything after its last backslash |
| `Naming.HydratorFqn` | lib/Doctrine/ODM/MongoDB/Hydrator/HydratorFactory.php:84 | the fully-qualified hydrator name is the namespace, one backslash, then the hydrator class name |
| `Naming.FqnShortName` | lib/Doctrine/ODM/MongoDB/Hydrator/HydratorFactory.php:84 | the fully-qualified hydrator name has the hydrator class name as its short name and the hydrator namespace before the last separator |
| `Naming.HydratorFileName` | lib/Doctrine/ODM/MongoDB/Hydrator/HydratorFactory.php:88 | the hydrator file name is the directory, the separator, the hydrator class name and the `.php` extension, in that order |
| `Naming.LowerChar` | lib/Doctrine/ODM/MongoDB/Hydrator/HydratorFactory.php:87 | the ASCII capitals become the matching small letters and every other character stays |
| `Naming.AsciiLower` | lib/Doctrine/ODM/MongoDB/Hydrator/HydratorFactory.php:87 | the lower-cased name has the same length and lower-cases each character in place |
| `Naming.AsciiLowerIdempotent` | lib/Doctrine/ODM/MongoDB/Hydrator/HydratorFactory.php:87 | lower-casing a lower-cased name changes nothing, so the names the factory keeps stay lower-cased |
| `Naming.HydratorFqnIgnoresCase` | lib/Doctrine/ODM/MongoDB/Hydrator/HydratorFactory.php:83-87 | document class names equal up to letter case have hydrator classes that `class_exists` takes for the same class |
| `Naming.HydratorFileNameInjective` | lib/Doctrine/ODM/MongoDB/Hydrator/HydratorFactory.php:88 | two hydrator classes never share a file name in one directory |
| `PhpValues.Isset` | lib/Doctrine/ODM/MongoDB/Hydrator/HydratorFactory.php:108 | `isset` on an array entry is false exactly for a missing key and for a null value |
| `PhpValues.Truthy` | lib/Doctrine/ODM/MongoDB/Hydrator/HydratorFactory.php:161 | a value is falsy exactly when it is null, false, 0, 0.0, "", "0", an empty list or an empty array |
| `Hydration.ReferenceTo` | lib/Doctrine/ODM/MongoDB/Hydrator/HydratorFactory.php:139-143 | the stored reference becomes a reference to the class the discriminator names, identified by that class's PHP value of the reference's `$id` (of null when there is none) |
| `Hydration.AttachedData` | lib/Doctrine/ODM/MongoDB/Hydrator/HydratorFactory.php:157-163 | a collection gets raw data exactly when `data[name]` is set and truthy, and then that value; an empty array is never attached |
| `Hydration.PersistentCollection.constructor` | lib/Doctrine/ODM/MongoDB/Hydrator/HydratorFactory.php:158 | a new collection has no owner and no raw data |
| `Hydration.PersistentCollection.SetOwner` | lib/Doctrine/ODM/MongoDB/Hydrator/HydratorFactory.php:159 | sets the owner to the document and mapping and changes nothing else |
| `Hydration.PersistentCollection.SetInitialized` | lib/Doctrine/ODM/MongoDB/Hydrator/HydratorFactory.php:160 | sets the initialized flag and changes nothing else |
| `Hydration.PersistentCollection.SetMongoData` | lib/Doctrine/ODM/MongoDB/Hydrator/HydratorFactory.php:161-163 | attaches the raw data and changes nothing else |
| `Hydration.Document.constructor` | lib/Doctrine/ODM/MongoDB/Hydrator/HydratorFactory.php:179-180 | `newInstance()` gives a document of the class with no properties written |
| `Hydration.UnitOfWork.RegisterManaged` | lib/Doctrine/ODM/MongoDB/Hydrator/HydratorFactory.php:183 | appends exactly one registerManaged call to the unit of work's log |
| `Hydration.UnitOfWork.SetParentAssociation` | lib/Doctrine/ODM/MongoDB/Hydrator/HydratorFactory.php:184 | appends exactly one setParentAssociation call to the unit of work's log |
| `Hydration.OverrideWrite` | lib/Doctrine/ODM/MongoDB/Hydrator/HydratorFactory.php:124-125 | writing the same entry to the document and to the snapshot keeps the document equal to its initial properties overridden by the snapshot |
| `Hydration.SnapshotStep` | lib/Doctrine/ODM/MongoDB/Hydrator/HydratorFactory.php:102-196 | mapping k adds only its own snapshot entry; the entries of earlier mappings stay as they were |
| `Hydration.SnapshotKeysMapped` | lib/Doctrine/ODM/MongoDB/Hydrator/HydratorFactory.php:125 | every key of the snapshot hydrate returns is the field name of one of the class's mappings |
| `Hydration.UnmappedUntouched` | lib/Doctrine/ODM/MongoDB/Hydrator/HydratorFactory.php:102-196 | a property no mapping names gets no snapshot entry and keeps its previous value in the document |
| `Hydration.ConvertedFromLastAlias` | lib/Doctrine/ODM/MongoDB/Hydrator/HydratorFactory.php:103-133 | a plain field whose stored name is its field name records the type conversion of its last set alias's value, else of the caller's own value, and nothing when neither is set |
| `Hydration.RenamedFieldIgnoresAliases` | lib/Doctrine/ODM/MongoDB/Hydrator/HydratorFactory.php:108-121 | a mapping whose stored name differs from its field name (and is no field name so far) reads the caller's value for that name: its aliases have no effect |
| `Hydration.EmbedCallsFrame` | lib/Doctrine/ODM/MongoDB/Hydrator/HydratorFactory.php:182-184 | the unit-of-work calls for the first n mappings are determined by those mappings' snapshot entries |
| `Hydration.BookkeptStep` | lib/Doctrine/ODM/MongoDB/Hydrator/HydratorFactory.php:102-196 | one mapping's alias copies, property write, snapshot entry and calls take the state after k mappings to the state after k + 1, and earlier entries are kept |
| `Hydration.DistinctAfterWrite` | lib/Doctrine/ODM/MongoDB/Hydrator/HydratorFactory.php:158-180 | writing a snapshot entry whose collection or embedded document no other entry holds keeps all entries' objects distinct |
| `Hydration.Hydrator.constructor` | lib/Doctrine/ODM/MongoDB/Hydrator/HydratorFactory.php:219-224 | a hydrator keeps the document manager, the unit of work and the class metadata it is built with |
| `Hydration.Hydrator.HydrateField` | lib/Doctrine/ODM/MongoDB/Hydrator/HydratorFactory.php:117-195 | per kind of association: the value written to the property and the snapshot, including none for an unset `data[name]`; the collection or embedded document set up and created new; the unit-of-work calls; the new object is held by no other snapshot entry; nothing else in the snapshot or the document changes |
| `Hydration.Hydrator.CopyAliases` | lib/Doctrine/ODM/MongoDB/Hydrator/HydratorFactory.php:103-115 | the generated alias copies of one mapping compute the alias function on the local data |
| `Hydration.Hydrator.HydrateNext` | lib/Doctrine/ODM/MongoDB/Hydrator/HydratorFactory.php:102-196 | the code for mapping k carries the state after k mappings to k + 1, adds only its own snapshot entry, and any object it records is new and held by no other entry |
| `Hydration.Hydrator.Hydrate` | lib/Doctrine/ODM/MongoDB/Hydrator/HydratorFactory.php:102-230 | the document's properties become their previous values overridden by exactly the returned snapshot; each mapping's entry is what its kind of association records from the data after alias copies; collections and embedded documents are set up, are all new objects, and no two entries share an embedded document or a collection; the unit of work receives the embedded-document calls in mapping order |
| `Factory.HydratorFactory.constructor` | lib/Doctrine/ODM/MongoDB/Hydrator/HydratorFactory.php:54-70 | the factory stores its settings, keeps the loaded class names lower-cased and starts with an empty cache |
| `Factory.HydratorFactory.GenerateHydratorClass` | lib/Doctrine/ODM/MongoDB/Hydrator/HydratorFactory.php:98-238 | the hydrator file is written, replacing any old one, and the generation is logged |
| `Factory.HydratorFactory.LoadHydratorClass` | lib/Doctrine/ODM/MongoDB/Hydrator/HydratorFactory.php:87-93 | a class that is not loaded under any letter case is generated exactly when auto-generation is on; loading succeeds exactly when the class was loaded or its file is there, and only then is the class loaded |
| `Factory.HydratorFactory.GetHydratorFor` | lib/Doctrine/ODM/MongoDB/Hydrator/HydratorFactory.php:78-96 | on a cache hit it returns the cached hydrator and changes nothing. On a miss: an unmapped class fails with nothing changed; otherwise generation happens iff the hydrator class is not loaded under any letter case and auto-generation is on, logged with the name the metadata gives, and the call fails iff the class is not loaded and its file is missing. Success caches and returns a new hydrator for the class's metadata. The cache stays consistent |
| `Factory.GetHydratorTwice` | lib/Doctrine/ODM/MongoDB/Hydrator/HydratorFactory.php:80-82 | asking twice for a class's hydrator gives the same hydrator object the second time, and a failure is followed by a failure |

## Left out

- Exceptions thrown by collaborators are not modelled. This covers
  `getClassNameFromDiscriminatorValue`, `getPHPIdentifierValue`,
  `getReference`, a type conversion and the nested hydrator. Each one is a
  total function.
- Hydration.Hydrator.HydrateField: the nested `getHydrator()->hydrate` call for an
  `EMBED_ONE` value is modelled only through the snapshot it returns
  (`embeddedData`). What it writes into the embedded document, and the unit-of-work
  calls it makes itself, are not modelled.
- Hydration.Hydrator.HydrateField: `getReference` is modelled as the value
  `Reference(className, id)`. Proxy identity, meaning the same object for the same
  reference, is not modelled.
- The PersistentCollection constructor with its ArrayCollection, document manager
  and unit-of-work arguments is not part of this model. A new collection is
  taken to start without owner or raw data.
- The text of the generated PHP file, as opposed to its semantics, is not
  modelled. Neither is the template, nor what `require` executes. Files and loaded
  classes are sets of names. Each hydrator runs the semantics of the metadata it
  is built with.
- Factory.HydratorFactory.GetHydratorFor: the result of `file_put_contents` is
  ignored by the source, so a failed write leads to a `require` of a missing or
  stale file. The model takes every write to succeed: GenerateHydratorClass
  always adds the file.
- Hydration.Hydrator.HydrateField: the `getClassMetadata($className)` calls on
  the target class of a reference or an embedded document are folded into
  `phpIdentifier` and the embedded document's class name. A target class without
  metadata, which throws in PHP, is not modelled.
- Factory.HydratorFactory.GetHydratorFor: when a stale hydrator class is already
  loaded, PHP would run that class's own code. So would two document classes that
  share a hydrator class name; see `Naming.HydratorClassNameIgnoresSeparator`. The
  model instead runs the semantics of the current metadata.
- `setUnitOfWork` is folded into the constructor: the model assumes `setUnitOfWork`
  is called before the first `getHydratorFor`. `DIRECTORY_SEPARATOR` is a constructor parameter.
- The closure code produced by `closureToPHP` is modelled as an uninterpreted
  conversion function of the type name and the stored value.
- Floating-point `NaN` and other float details are left out. Truthiness of a
  float is a comparison with `0.0` on reals.
- PHP string offsets are left out. `$reference['$id']` on a value that is not an
  array gives null in the model.
