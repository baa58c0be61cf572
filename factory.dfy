/** HydratorFactory: hands out one hydrator per document class, generating and
    loading the hydrator class on first use. The PHP class table (`class_exists`)
    and the hydrator directory are modelled as sets of names; writing and
    `require`-ing a file change those sets. */
module Factory {
  import opened Mapping
  import opened Naming
  import opened Hydration

  /** getClassMetadata throws for a class the document manager does not map, and
      `require` fails on a hydrator file that is not there. */
  datatype FactoryError =
    | MappingNotFound(className: string)
    | HydratorFileMissing(fileName: string)

  datatype Result<T> = Ok(value: T) | Err(error: FactoryError)

  /** One call of generateHydratorClass: the file written and the class it was generated for. */
  datatype Generated = Generated(fileName: string, hydratorClassName: string, documentClass: string)

  class HydratorFactory {
    const dm: DocumentManager
    const unitOfWork: UnitOfWork
    const hydratorDir: string
    const hydratorNamespace: string
    const autoGenerate: bool
    const directorySeparator: string   // PHP's DIRECTORY_SEPARATOR

    /** The hydrator cache, keyed by document class name. */
    var hydrators: map<string, Hydrator>
    /** The classes PHP has loaded, by lower-cased fully-qualified name: PHP looks
        classes up without regard to the case of their letters. */
    var loadedClasses: set<string>
    /** The files present in the hydrator directory. */
    var hydratorFiles: set<string>
    /** Every hydrator class generated so far, in order. */
    ghost var generated: seq<Generated>

    /** Every cached hydrator was built for its class's metadata, with this
        factory's document manager and unit of work, and its class is loaded;
        every generated file is on disk. */
    ghost predicate Valid()
      reads this
    {
      && dm.Valid()
      && LowerCased(loadedClasses)
      && (forall c | c in hydrators ::
            && c in dm.classMetadata
            && hydrators[c].metadata == dm.classMetadata[c]
            && hydrators[c].dm == dm
            && hydrators[c].unitOfWork == unitOfWork
            && ClassExists(HydratorFqn(hydratorNamespace, HydratorClassName(c))))
      && (forall i | 0 <= i < |generated| :: generated[i].fileName in hydratorFiles)
    }

    /** A factory built with its document manager, hydrator directory, namespace and
        auto-generation flag, and then given its unit of work. loadedClasses names
        the classes PHP has loaded and hydratorFiles the files in the hydrator
        directory at that point; the factory keeps the class names lower-cased. */
    constructor (dm: DocumentManager, hydratorDir: string, hydratorNamespace: string, autoGenerate: bool,
                 unitOfWork: UnitOfWork, directorySeparator: string,
                 loadedClasses: set<string>, hydratorFiles: set<string>)
      requires dm.Valid()
      ensures Valid()
      ensures this.dm == dm && this.hydratorDir == hydratorDir && this.hydratorNamespace == hydratorNamespace
      ensures this.autoGenerate == autoGenerate && this.unitOfWork == unitOfWork
      ensures this.directorySeparator == directorySeparator
      ensures hydrators == map[] && this.hydratorFiles == hydratorFiles
      ensures this.loadedClasses == set c | c in loadedClasses :: AsciiLower(c)
      ensures generated == []
    {
      this.dm := dm;
      this.hydratorDir := hydratorDir;
      this.hydratorNamespace := hydratorNamespace;
      this.autoGenerate := autoGenerate;
      this.unitOfWork := unitOfWork;
      this.directorySeparator := directorySeparator;
      hydrators := map[];
      this.loadedClasses := set c | c in loadedClasses :: AsciiLower(c);
      forall c | c in loadedClasses
        ensures AsciiLower(AsciiLower(c)) == AsciiLower(c)
      {
        AsciiLowerIdempotent(c);
      }
      this.hydratorFiles := hydratorFiles;
      generated := [];
    }

    /** The class-existence test, without autoloading: whether a class of that
        name, in any letter case, is loaded. */
    ghost predicate ClassExists(fqn: string)
      reads this
    {
      AsciiLower(fqn) in loadedClasses
    }

    /** generateHydratorClass: writes the hydrator source for metadata to fileName,
        replacing any file already there. */
    method GenerateHydratorClass(metadata: ClassMetadata, hydratorClassName: string, fileName: string)
      modifies this`hydratorFiles, this`generated
      ensures hydratorFiles == old(hydratorFiles) + {fileName}
      ensures generated == old(generated) + [Generated(fileName, hydratorClassName, metadata.name)]
    {
      hydratorFiles := hydratorFiles + {fileName};
      generated := generated + [Generated(fileName, hydratorClassName, metadata.name)];
    }

    /** The class-loading part of getHydratorFor for a hydrator class that is not
        cached: when fqn is not loaded, generate its file if autoGenerate is on,
        then `require` it, which fails when the file is not there. */
    method LoadHydratorClass(metadata: ClassMetadata, hydratorClassName: string, fqn: string, fileName: string)
      returns (loaded: bool)
      modifies this`loadedClasses, this`hydratorFiles, this`generated
      ensures var generates := AsciiLower(fqn) !in old(loadedClasses) && autoGenerate;
              && generated == old(generated) + (if generates then [Generated(fileName, hydratorClassName, metadata.name)] else [])
              && hydratorFiles == old(hydratorFiles) + (if generates then {fileName} else {})
      ensures loaded <==> AsciiLower(fqn) in old(loadedClasses) || fileName in hydratorFiles
      ensures loadedClasses == if loaded then old(loadedClasses) + {AsciiLower(fqn)} else old(loadedClasses)
      ensures LowerCased(old(loadedClasses)) ==> LowerCased(loadedClasses)
    {
      AsciiLowerIdempotent(fqn);
      if AsciiLower(fqn) in loadedClasses {
        assert loadedClasses + {AsciiLower(fqn)} == loadedClasses;
        return true;
      }
      if autoGenerate {
        GenerateHydratorClass(metadata, hydratorClassName, fileName);
      }
      if fileName !in hydratorFiles {
        return false;
      }
      loadedClasses := loadedClasses + {AsciiLower(fqn)};
      return true;
    }

    /** getHydratorFor: the cached hydrator when there is one; otherwise the class's
        metadata is fetched, the hydrator class is generated (when it is not loaded
        and autoGenerate is on) and required (when it is not loaded), and a new
        hydrator is cached and returned. */
    method GetHydratorFor(className: string) returns (r: Result<Hydrator>)
      requires Valid()
      modifies this`hydrators, this`loadedClasses, this`hydratorFiles, this`generated
      ensures Valid()
      // a cache hit returns the cached hydrator and changes nothing
      ensures className in old(hydrators) ==>
                r == Ok(old(hydrators)[className]) && unchanged(this)
      // a miss for a class without metadata fails before anything is generated
      ensures className !in old(hydrators) && className !in dm.classMetadata ==>
                r == Err(MappingNotFound(className)) && unchanged(this)
      ensures className !in old(hydrators) && className in dm.classMetadata ==>
                var hydratorClassName := HydratorClassName(className);
                var fqn := HydratorFqn(hydratorNamespace, hydratorClassName);
                var fileName := HydratorFileName(hydratorDir, directorySeparator, hydratorClassName);
                var generates := AsciiLower(fqn) !in old(loadedClasses) && autoGenerate;
                // generation happens exactly when the class is not loaded and autoGenerate is on
                && generated == old(generated)
                     + (if generates then [Generated(fileName, hydratorClassName, dm.classMetadata[className].name)] else [])
                && hydratorFiles == old(hydratorFiles) + (if generates then {fileName} else {})
                // the require fails exactly when the class is not loaded and its file is not there
                && (r.Ok? <==> AsciiLower(fqn) in old(loadedClasses) || fileName in hydratorFiles)
                && (r.Err? ==>
                      r.error == HydratorFileMissing(fileName)
                      && hydrators == old(hydrators) && loadedClasses == old(loadedClasses))
                && (r.Ok? ==>
                      && fresh(r.value)
                      && r.value.metadata == dm.classMetadata[className]
                      && r.value.dm == dm && r.value.unitOfWork == unitOfWork
                      && hydrators == old(hydrators)[className := r.value]
                      && loadedClasses == old(loadedClasses) + {AsciiLower(fqn)})
    {
      if className in hydrators {
        return Ok(hydrators[className]);
      }
      var hydratorClassName := HydratorClassName(className);
      var fqn := HydratorFqn(hydratorNamespace, hydratorClassName);
      if className !in dm.classMetadata {
        return Err(MappingNotFound(className));
      }
      var metadata := dm.classMetadata[className];
      var fileName := HydratorFileName(hydratorDir, directorySeparator, hydratorClassName);
      var loaded := LoadHydratorClass(metadata, hydratorClassName, fqn, fileName);
      if !loaded {
        return Err(HydratorFileMissing(fileName));
      }
      var hydrator := new Hydrator(dm, unitOfWork, metadata);
      hydrators := hydrators[className := hydrator];
      return Ok(hydrator);
    }
  }

  /** Asking twice for the hydrator of a class gives the same object the second
      time, and a class that failed once fails again. */
  method GetHydratorTwice(factory: HydratorFactory, className: string) returns (first: Result<Hydrator>, second: Result<Hydrator>)
    requires factory.Valid()
    modifies factory
    ensures factory.Valid()
    ensures first.Ok? ==> second == first
    ensures first.Err? ==> second.Err?
  {
    first := factory.GetHydratorFor(className);
    second := factory.GetHydratorFor(className);
  }
}
