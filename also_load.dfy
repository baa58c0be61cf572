/** The `@AlsoLoad` copies that a generated hydrator performs on its local copy of
    `$data` before it reads a mapping: for each alias, in declared order, a set
    alias overwrites `$data[fieldName]`. */
module AlsoLoad {
  import opened PhpValues
  import opened Mapping

  /** One alias step: when the alias is set, its value is copied under the field
      name; when it is not, the data is left as it is. */
  function CopyAlias(data: map<string, Value>, fieldName: string, alias: string): (r: map<string, Value>)
    ensures Lookup(r, fieldName) == if Isset(data, alias) then Lookup(data, alias) else Lookup(data, fieldName)
    ensures forall key | key != fieldName :: Lookup(r, key) == Lookup(data, key)
  {
    if Isset(data, alias) then data[fieldName := data[alias]] else data
  }

  /** All alias steps of one mapping, in declared order. Only the entry under the
      field name can change; ApplyAliasesLastWins says what it becomes. */
  function ApplyAliases(data: map<string, Value>, fieldName: string, aliases: seq<string>): (r: map<string, Value>)
    ensures forall key | key != fieldName :: Lookup(r, key) == Lookup(data, key)
    decreases |aliases|
  {
    if aliases == [] then data
    else
      var n := |aliases| - 1;
      CopyAlias(ApplyAliases(data, fieldName, aliases[..n]), fieldName, aliases[n])
  }

  /** The position of the last alias, other than fieldName itself, that is set in
      data; -1 when there is none. */
  function LastSetAlias(data: map<string, Value>, fieldName: string, aliases: seq<string>): (r: int)
    ensures -1 <= r < |aliases|
    ensures 0 <= r ==> aliases[r] != fieldName && Isset(data, aliases[r])
    ensures forall j | r < j < |aliases| :: aliases[j] == fieldName || !Isset(data, aliases[j])
    decreases |aliases|
  {
    if aliases == [] then -1
    else
      var n := |aliases| - 1;
      if aliases[n] != fieldName && Isset(data, aliases[n]) then n
      else LastSetAlias(data, fieldName, aliases[..n])
  }

  /** The alias rule: the LAST set alias wins, even over a set primary key, and
      only data[fieldName] changes. */
  lemma {:induction false} ApplyAliasesLastWins(data: map<string, Value>, fieldName: string, aliases: seq<string>)
    ensures ApplyAliases(data, fieldName, aliases) ==
      var r := LastSetAlias(data, fieldName, aliases);
      if r < 0 then data else data[fieldName := data[aliases[r]]]
    decreases |aliases|
  {
    if aliases != [] {
      var n := |aliases| - 1;
      var prefix := aliases[..n];
      ApplyAliasesLastWins(data, fieldName, prefix);
      var before := ApplyAliases(data, fieldName, prefix);
      var a := aliases[n];
      if a == fieldName {
        if Isset(before, a) {
          assert before[fieldName := before[a]] == before;
        }
      } else {
        assert Lookup(before, a) == Lookup(data, a);
      }
    }
  }

  /** Two data maps that agree on the aliases pick the same alias. */
  lemma LastSetAliasAgree(d1: map<string, Value>, d2: map<string, Value>, fieldName: string, aliases: seq<string>)
    requires forall j | 0 <= j < |aliases| :: Lookup(d1, aliases[j]) == Lookup(d2, aliases[j])
    ensures LastSetAlias(d1, fieldName, aliases) == LastSetAlias(d2, fieldName, aliases)
  {
    assert forall j | 0 <= j < |aliases| :: Isset(d1, aliases[j]) == Isset(d2, aliases[j]);
  }

  /** `$data` after the alias steps of the first n mappings of a class. */
  function AliasedData(ms: seq<FieldMapping>, data: map<string, Value>, n: nat): map<string, Value>
    requires n <= |ms|
  {
    if n == 0 then data
    else ApplyAliases(AliasedData(ms, data, n - 1), ms[n - 1].fieldName, ms[n - 1].alsoLoadFields)
  }

  /** `$data` as mapping i reads it: after its own alias steps and all earlier ones. */
  function DataSeenBy(ms: seq<FieldMapping>, data: map<string, Value>, i: nat): map<string, Value>
    requires i < |ms|
  {
    AliasedData(ms, data, i + 1)
  }

  /** Alias steps only ever write a mapping's own fieldName: every other key keeps
      the caller's value. */
  lemma {:induction false} AliasedDataOutsideMapped(ms: seq<FieldMapping>, data: map<string, Value>, n: nat, key: string)
    requires n <= |ms|
    requires key !in MappedNames(ms, n)
    ensures Lookup(AliasedData(ms, data, n), key) == Lookup(data, key)
  {
    if n > 0 {
      assert key != ms[n - 1].fieldName;
      assert key !in MappedNames(ms, n - 1);
      AliasedDataOutsideMapped(ms, data, n - 1, key);
      ApplyAliasesLastWins(AliasedData(ms, data, n - 1), ms[n - 1].fieldName, ms[n - 1].alsoLoadFields);
    }
  }

  /** What an alias step of mapping j writes stays visible to every later mapping
      of the same hydrate call. */
  lemma {:induction false} AliasVisibleLater(ms: seq<FieldMapping>, data: map<string, Value>, j: nat, n: nat)
    requires UniqueFieldNames(ms)
    requires j < n <= |ms|
    ensures Lookup(AliasedData(ms, data, n), ms[j].fieldName) == Lookup(DataSeenBy(ms, data, j), ms[j].fieldName)
  {
    if n > j + 1 {
      AliasVisibleLater(ms, data, j, n - 1);
      assert ms[j].fieldName != ms[n - 1].fieldName;
      ApplyAliasesLastWins(AliasedData(ms, data, n - 1), ms[n - 1].fieldName, ms[n - 1].alsoLoadFields);
    }
  }

  /** The key a mapping reads under its fieldName, in terms of the data passed to
      hydrate: the last set alias, otherwise the caller's own data[fieldName]. It
      holds when no earlier mapping's fieldName is one of the aliases. */
  lemma SeenUnderFieldName(ms: seq<FieldMapping>, data: map<string, Value>, j: nat)
    requires UniqueFieldNames(ms)
    requires j < |ms|
    requires forall k | 0 <= k < |ms[j].alsoLoadFields| :: ms[j].alsoLoadFields[k] !in MappedNames(ms, j)
    ensures
      var f, aliases := ms[j].fieldName, ms[j].alsoLoadFields;
      var r := LastSetAlias(data, f, aliases);
      Lookup(DataSeenBy(ms, data, j), f) == if 0 <= r then Some(data[aliases[r]]) else Lookup(data, f)
  {
    var f, aliases := ms[j].fieldName, ms[j].alsoLoadFields;
    var before := AliasedData(ms, data, j);
    forall k | 0 <= k < |aliases|
      ensures Lookup(before, aliases[k]) == Lookup(data, aliases[k])
    {
      AliasedDataOutsideMapped(ms, data, j, aliases[k]);
    }
    NotYetMapped(ms, j);
    AliasedDataOutsideMapped(ms, data, j, f);
    LastSetAliasAgree(before, data, f, aliases);
    ApplyAliasesLastWins(before, f, aliases);
  }

  /** A later mapping whose stored name is an earlier mapping's field name reads,
      under that name, what the earlier mapping's alias copies left there: the
      caller's value of the earlier mapping's last set alias, or else the caller's
      own value. */
  lemma AliasReachesStoredName(ms: seq<FieldMapping>, data: map<string, Value>, j: nat, i: nat)
    requires UniqueFieldNames(ms)
    requires j < i < |ms| && ms[i].name == ms[j].fieldName
    requires forall k | 0 <= k < |ms[j].alsoLoadFields| :: ms[j].alsoLoadFields[k] !in MappedNames(ms, j)
    ensures
      var f, aliases := ms[j].fieldName, ms[j].alsoLoadFields;
      var r := LastSetAlias(data, f, aliases);
      Lookup(DataSeenBy(ms, data, i), ms[i].name) == if 0 <= r then Some(data[aliases[r]]) else Lookup(data, f)
  {
    AliasVisibleLater(ms, data, j, i + 1);
    SeenUnderFieldName(ms, data, j);
  }
}
