/** How HydratorFactory names a document class's hydrator: its class name, its
    fully-qualified name in the hydrator namespace, and the file it lives in. */
module Naming {

  /** The name with every backslash removed and every other character kept, in
      order. */
  function StripBackslashes(s: string): (r: string)
    ensures '\\' !in r
    ensures multiset(r) == multiset(s)['\\' := 0]
    ensures '\\' !in s ==> r == s
  {
    if s == [] then []
    else
      var rest := StripBackslashes(s[1..]);
      assert s == [s[0]] + s[1..];
      if s[0] == '\\' then rest else [s[0]] + rest
  }

  /** Removing backslashes works piece by piece. */
  lemma {:induction false} StripConcat(a: string, b: string)
    ensures StripBackslashes(a + b) == StripBackslashes(a) + StripBackslashes(b)
  {
    if a == [] {
      assert a + b == b;
    } else {
      assert (a + b)[0] == a[0];
      assert (a + b)[1..] == a[1..] + b;
      StripConcat(a[1..], b);
    }
  }

  /** The hydrator class name of a document class: the class name without its
      namespace separators, followed by the word Hydrator. */
  function HydratorClassName(className: string): (r: string)
    ensures '\\' !in r
    ensures |r| >= 8 && r[|r| - 8..] == "Hydrator"
    ensures '\\' !in className ==> r == className + "Hydrator"
  {
    StripBackslashes(className) + "Hydrator"
  }

  /** Namespace separators carry no information into the hydrator class name, so
      `Foo\BarBaz` and `FooBar\Baz` are given the same hydrator class. */
  lemma HydratorClassNameIgnoresSeparator(a: string, b: string)
    ensures HydratorClassName(a + "\\" + b) == HydratorClassName(a + b)
  {
    var sep := "\\";
    assert StripBackslashes(sep) == [] by {
      assert sep[1..] == [];
    }
    assert a + sep + b == a + (sep + b);
    StripConcat(a, sep + b);
    StripConcat(sep, b);
    StripConcat(a, b);
    assert StripBackslashes(a + sep + b) == StripBackslashes(a) + StripBackslashes(b);
  }

  /** A character as PHP lower-cases it in a class name: the ASCII capitals A to Z
      become a to z, everything else stays. */
  function LowerChar(c: char): (r: char)
    ensures 'A' <= c <= 'Z' ==> 'a' <= r <= 'z' && r as int - c as int == 'a' as int - 'A' as int
    ensures !('A' <= c <= 'Z') ==> r == c
  {
    if 'A' <= c <= 'Z' then (c as int + 32) as char else c
  }

  /** A class name lower-cased, as PHP compares class names: `class_exists` and
      its class table ignore the case of ASCII letters. */
  function AsciiLower(s: string): (r: string)
    ensures |r| == |s|
    ensures forall i | 0 <= i < |s| :: r[i] == LowerChar(s[i])
  {
    if s == [] then [] else [LowerChar(s[0])] + AsciiLower(s[1..])
  }

  /** Every name of the set is already lower-cased. */
  ghost predicate LowerCased(names: set<string>)
  {
    forall c {:trigger AsciiLower(c)} | c in names :: AsciiLower(c) == c
  }

  /** Lower-casing a lower-cased name changes nothing. */
  lemma AsciiLowerIdempotent(s: string)
    ensures AsciiLower(AsciiLower(s)) == AsciiLower(s)
  {
    var l := AsciiLower(s);
    assert forall i | 0 <= i < |s| :: LowerChar(l[i]) == l[i];
  }

  /** Lower-casing works piece by piece. */
  lemma {:induction false} AsciiLowerConcat(a: string, b: string)
    ensures AsciiLower(a + b) == AsciiLower(a) + AsciiLower(b)
  {
    if a == [] {
      assert a + b == b;
    } else {
      assert (a + b)[1..] == a[1..] + b;
      AsciiLowerConcat(a[1..], b);
    }
  }

  /** Removing backslashes and lower-casing can be done in either order. */
  lemma {:induction false} StripLowerCommute(s: string)
    ensures StripBackslashes(AsciiLower(s)) == AsciiLower(StripBackslashes(s))
  {
    if s != [] {
      var l := AsciiLower(s);
      assert l == [LowerChar(s[0])] + AsciiLower(s[1..]);
      assert l[0] == '\\' <==> s[0] == '\\';
      assert l[1..] == AsciiLower(s[1..]);
      StripLowerCommute(s[1..]);
      if s[0] != '\\' {
        AsciiLowerConcat([s[0]], StripBackslashes(s[1..]));
        assert AsciiLower([s[0]]) == [LowerChar(s[0])];
      }
    }
  }

  /** Lower-casing the pieces of a hydrator name one at a time. */
  lemma LowerPieces(prefix: string, c: string)
    ensures AsciiLower(prefix + (StripBackslashes(c) + "Hydrator"))
         == AsciiLower(prefix) + (StripBackslashes(AsciiLower(c)) + AsciiLower("Hydrator"))
  {
    var stripped, suffix := StripBackslashes(c), "Hydrator";
    calc {
      AsciiLower(prefix + (stripped + suffix));
      { AsciiLowerConcat(prefix, stripped + suffix); }
      AsciiLower(prefix) + AsciiLower(stripped + suffix);
      { AsciiLowerConcat(stripped, suffix); }
      AsciiLower(prefix) + (AsciiLower(stripped) + AsciiLower(suffix));
      { StripLowerCommute(c); }
      AsciiLower(prefix) + (StripBackslashes(AsciiLower(c)) + AsciiLower(suffix));
    }
  }

  /** The lower-cased hydrator class name splits into the lower-cased pieces it is
      built from. */
  lemma LowerHydratorFqn(namespace: string, c: string)
    ensures AsciiLower(HydratorFqn(namespace, HydratorClassName(c)))
         == AsciiLower(namespace + "\\") + (StripBackslashes(AsciiLower(c)) + AsciiLower("Hydrator"))
  {
    LowerPieces(namespace + "\\", c);
    assert HydratorFqn(namespace, HydratorClassName(c)) == (namespace + "\\") + (StripBackslashes(c) + "Hydrator");
  }

  /** Two document class names that differ only in the case of their letters have
      hydrator classes that PHP takes for the same class. */
  lemma HydratorFqnIgnoresCase(namespace: string, a: string, b: string)
    requires AsciiLower(a) == AsciiLower(b)
    ensures AsciiLower(HydratorFqn(namespace, HydratorClassName(a)))
         == AsciiLower(HydratorFqn(namespace, HydratorClassName(b)))
  {
    LowerHydratorFqn(namespace, a);
    LowerHydratorFqn(namespace, b);
  }

  /** The fully-qualified name of a hydrator class: the hydrator namespace, one
      separator, then the class name. */
  function HydratorFqn(namespace: string, hydratorClassName: string): (r: string)
    ensures |r| == |namespace| + 1 + |hydratorClassName|
    ensures r[..|namespace|] == namespace && r[|namespace|] == '\\'
    ensures r[|namespace| + 1..] == hydratorClassName
  {
    namespace + "\\" + hydratorClassName
  }

  /** The unqualified part of a PHP class name: what follows its last backslash. */
  function ShortName(fqn: string): (r: string)
    ensures '\\' !in r
    ensures |r| <= |fqn| && r == fqn[|fqn| - |r|..]
    ensures |r| < |fqn| ==> fqn[|fqn| - |r| - 1] == '\\'
  {
    if fqn == [] || fqn[|fqn| - 1] == '\\' then []
    else ShortName(fqn[..|fqn| - 1]) + [fqn[|fqn| - 1]]
  }

  /** The fully-qualified name declares the hydrator class itself inside the
      hydrator namespace: its short name is the hydrator class name, and what
      precedes the final separator is the namespace. */
  lemma {:induction false} FqnShortName(namespace: string, hydratorClassName: string)
    requires '\\' !in hydratorClassName
    ensures ShortName(HydratorFqn(namespace, hydratorClassName)) == hydratorClassName
    ensures var fqn := HydratorFqn(namespace, hydratorClassName);
      fqn[..|fqn| - |hydratorClassName| - 1] == namespace
  {
    var fqn := HydratorFqn(namespace, hydratorClassName);
    if hydratorClassName != [] {
      var n := |hydratorClassName| - 1;
      assert fqn[..|fqn| - 1] == HydratorFqn(namespace, hydratorClassName[..n]);
      assert hydratorClassName[n] in hydratorClassName;
      FqnShortName(namespace, hydratorClassName[..n]);
      assert hydratorClassName == hydratorClassName[..n] + [hydratorClassName[n]];
    }
  }

  /** The file a hydrator class is written to: the class name with the `.php`
      extension, inside the hydrator directory. */
  function HydratorFileName(dir: string, separator: string, hydratorClassName: string): (r: string)
    ensures |r| == |dir| + |separator| + |hydratorClassName| + 4
    ensures r[..|dir|] == dir && r[|dir|..|dir| + |separator|] == separator
    ensures r[|dir| + |separator|..|r| - 4] == hydratorClassName && r[|r| - 4..] == ".php"
  {
    dir + separator + hydratorClassName + ".php"
  }

  /** Distinct hydrator classes are never written to the same file. */
  lemma HydratorFileNameInjective(dir: string, separator: string, a: string, b: string)
    requires HydratorFileName(dir, separator, a) == HydratorFileName(dir, separator, b)
    ensures a == b
  {
    var fa, fb := HydratorFileName(dir, separator, a), HydratorFileName(dir, separator, b);
    var p := |dir + separator|;
    assert |a| == |b|;
    assert fa[p..p + |a|] == a;
    assert fb[p..p + |b|] == b;
  }
}
