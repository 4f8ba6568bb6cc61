/** The CSS property list generator (css_properties.py): it gives every
    property of the JSON5 description a sorting key (priority, then name
    without a leading dash), sorts by it, splits the aliases out, numbers the
    remaining properties from 3, and turns each alias into a copy of the
    property it aliases, numbered 512 above it. */
module CssPropertiesGenerator {
  import opened Common

  /** Enum value of the first real property: 0 is CSSPropertyInvalid, 1
      CSSPropertyApplyAtRule and 2 CSSPropertyVariable. */
  const FirstEnumValue: nat := 3
  /** Properties must number under this; an alias's enum value is its
      property's plus this. */
  const AliasOffset: nat := 512

  /** (priority number, name without a leading '-'). */
  datatype SortKey = SortKey(priority: nat, name: string)

  /** Python's tuple comparison: priorities first, then the names, compared
      code point by code point as std::string does. */
  predicate KeyLess(a: SortKey, b: SortKey)
  {
    a.priority < b.priority || (a.priority == b.priority && StringLess(a.name, b.name))
  }

  lemma KeyLessIsStrictTotalOrder(a: SortKey, b: SortKey, c: SortKey)
    ensures !KeyLess(a, a)
    ensures KeyLess(a, b) && KeyLess(b, c) ==> KeyLess(a, c)
    ensures !(KeyLess(a, b) && KeyLess(b, a))
    ensures KeyLess(a, b) || a == b || KeyLess(b, a)
  {
    StringLessIrreflexive(a.name);
    StringLessTrichotomous(a.name, b.name);
    if KeyLess(a, b) && KeyLess(b, c) && a.priority == b.priority && b.priority == c.priority {
      StringLessTransitive(a.name, b.name, c.name);
    }
  }

  /** One entry of the property list: the fields read from the JSON5 file
      (every other field is kept, uninterpreted, in `attributes`), then the
      fields the generator adds. An empty `aliasFor` is Python's falsy
      alias_for. */
  datatype Property = Property(
    name: string,
    priority: string,
    aliasFor: string,
    isDescriptor: bool,
    isProperty: bool,
    attributes: map<string, string>,
    sortingKey: SortKey,
    propertyId: string,
    upperCamelName: string,
    lowerCamelName: string,
    enumValue: int,
    isInternal: bool)

  /** The name_utilities functions the generator calls. */
  datatype NameUtilities = NameUtilities(
    enumForCssProperty: string -> string,
    enumForCssPropertyAlias: string -> string,
    camelCase: string -> string,
    lowerFirst: string -> string)

  /** Why the generator stops: a KeyError or a failed assertion. */
  datatype Failure =
    | UnknownPriority(name: string)
    | SortingKeyCollision
    | TooManyProperties
    | NotPropertyOrDescriptor(name: string)
    | SeveralAliasesForOneProperty
    | UnknownAliasTarget(aliasFor: string)

  /** priority_numbers; any other priority is a KeyError. */
  function PriorityNumber(priority: string): (r: Option<nat>)
    ensures r.Some? <==> priority == "Animation" || priority == "High" || priority == "Low"
    ensures r.Some? ==> r.value < 3
  {
    if priority == "Animation" then Some(0)
    else if priority == "High" then Some(1)
    else if priority == "Low" then Some(2)
    else None
  }

  /** Animation properties sort before High ones, which sort before Low
      ones, whatever their names. */
  lemma PriorityOrder(a: string, b: string)
    ensures KeyLess(SortKey(PriorityNumber("Animation").value, a), SortKey(PriorityNumber("High").value, b))
    ensures KeyLess(SortKey(PriorityNumber("High").value, a), SortKey(PriorityNumber("Low").value, b))
  {
  }

  predicate StartsWith(s: string, prefix: string)
  {
    |prefix| <= |s| && s[..|prefix|] == prefix
  }

  function NameWithoutLeadingDash(name: string): string
  {
    if StartsWith(name, "-") then name[1..] else name
  }

  predicate HasUnknownPriority(p: Property)
  {
    PriorityNumber(p.priority).None?
  }

  predicate IsAlias(p: Property)
  {
    p.aliasFor != ""
  }

  predicate IsNeitherPropertyNorDescriptor(p: Property)
  {
    !p.isDescriptor && !p.isProperty
  }

  /** The index of the first entry `bad` holds for, or |s|. */
  function FirstIndex(s: seq<Property>, bad: Property -> bool): (r: nat)
    ensures r <= |s|
    ensures forall j :: 0 <= j < r ==> !bad(s[j])
    ensures r < |s| ==> bad(s[r])
  {
    if s == [] then 0 else if bad(s[0]) then 0 else 1 + FirstIndex(s[1..], bad)
  }

  /** The entry with its sorting key. */
  function WithSortingKey(p: Property): Property
    requires !HasUnknownPriority(p)
  {
    p.(sortingKey := SortKey(PriorityNumber(p.priority).value, NameWithoutLeadingDash(p.name)))
  }

  function Keyed(s: seq<Property>): (r: seq<Property>)
    requires forall i :: 0 <= i < |s| ==> !HasUnknownPriority(s[i])
    ensures |r| == |s| && forall i :: 0 <= i < |s| ==> r[i] == WithSortingKey(s[i])
  {
    seq(|s|, i requires 0 <= i < |s| && !HasUnknownPriority(s[i]) => WithSortingKey(s[i]))
  }

  function SortingKeys(s: seq<Property>): (r: seq<SortKey>)
    ensures |r| == |s| && forall i :: 0 <= i < |s| ==> r[i] == s[i].sortingKey
  {
    seq(|s|, i requires 0 <= i < |s| => s[i].sortingKey)
  }

  function AliasTargets(s: seq<Property>): (r: seq<string>)
    ensures |r| == |s| && forall i :: 0 <= i < |s| ==> r[i] == s[i].aliasFor
  {
    seq(|s|, i requires 0 <= i < |s| => s[i].aliasFor)
  }

  function Names(s: seq<Property>): (r: seq<string>)
    ensures |r| == |s| && forall i :: 0 <= i < |s| ==> r[i] == s[i].name
  {
    seq(|s|, i requires 0 <= i < |s| => s[i].name)
  }

  /** `len(xs) == len(set(xs))`. */
  predicate AsLargeAsItsSet<T(==)>(xs: seq<T>)
  {
    |(set x | x in xs)| == |xs|
  }

  /** `len(xs) == len(set(xs))` is the test that no two elements are equal. */
  lemma {:induction false} DistinctIffSetAsLarge<T>(xs: seq<T>)
    ensures |(set x | x in xs)| <= |xs|
    ensures |(set x | x in xs)| == |xs| <==> forall i, j :: 0 <= i < j < |xs| ==> xs[i] != xs[j]
  {
    if xs != [] {
      var rest := xs[1..];
      DistinctIffSetAsLarge(rest);
      assert (set x | x in xs) == (set x | x in rest) + {xs[0]} by {
        assert xs == [xs[0]] + rest;
      }
      assert forall j :: 1 <= j < |xs| ==> xs[j] == rest[j - 1];
      if xs[0] in rest {
        var k :| 0 <= k < |rest| && rest[k] == xs[0];
        assert xs[0] == xs[k + 1];
      } else {
        forall i, j | 0 <= i < j < |xs| && xs[i] == xs[j]
          ensures exists a, b :: 0 <= a < b < |rest| && rest[a] == rest[b]
        {
          assert 0 < i;
          assert rest[i - 1] == rest[j - 1];
        }
      }
    }
  }

  // ---------------------------------------------------------------------
  // properties.sort(key=sorting_key), as an insertion sort that keeps
  // equal keys in their order.

  function Insert(p: Property, s: seq<Property>): (r: seq<Property>)
    ensures |r| == |s| + 1
  {
    if s == [] || !KeyLess(s[0].sortingKey, p.sortingKey) then [p] + s
    else [s[0]] + Insert(p, s[1..])
  }

  function SortByKey(s: seq<Property>): (r: seq<Property>)
    ensures |r| == |s|
  {
    if s == [] then [] else Insert(s[0], SortByKey(s[1..]))
  }

  predicate StrictlyAscending(s: seq<Property>)
  {
    forall i, j :: 0 <= i < j < |s| ==> KeyLess(s[i].sortingKey, s[j].sortingKey)
  }

  predicate KeysDistinct(s: seq<Property>)
  {
    forall i, j :: 0 <= i < j < |s| ==> s[i].sortingKey != s[j].sortingKey
  }

  lemma {:induction false} InsertPermutes(p: Property, s: seq<Property>)
    ensures multiset(Insert(p, s)) == multiset(s) + multiset{p}
  {
    if s != [] && KeyLess(s[0].sortingKey, p.sortingKey) {
      InsertPermutes(p, s[1..]);
      assert s == [s[0]] + s[1..];
    }
  }

  lemma {:induction false} SortPermutes(s: seq<Property>)
    ensures multiset(SortByKey(s)) == multiset(s)
  {
    if s != [] {
      SortPermutes(s[1..]);
      InsertPermutes(s[0], SortByKey(s[1..]));
      assert s == [s[0]] + s[1..];
    }
  }

  lemma {:induction false} InsertAscending(p: Property, s: seq<Property>)
    requires StrictlyAscending(s)
    requires forall x :: x in s ==> x.sortingKey != p.sortingKey
    ensures StrictlyAscending(Insert(p, s))
  {
    if s == [] {
    } else if !KeyLess(s[0].sortingKey, p.sortingKey) {
      InsertInFront(p, s);
    } else {
      InsertAscending(p, s[1..]);
      InsertBehind(p, s);
    }
  }

  /** A key below the head's goes in front. */
  lemma InsertInFront(p: Property, s: seq<Property>)
    requires StrictlyAscending(s) && s != []
    requires p.sortingKey != s[0].sortingKey && !KeyLess(s[0].sortingKey, p.sortingKey)
    ensures StrictlyAscending([p] + s)
  {
    KeyLessIsStrictTotalOrder(p.sortingKey, s[0].sortingKey, s[0].sortingKey);
    forall x | x in s
      ensures KeyLess(p.sortingKey, x.sortingKey)
    {
      var j :| 0 <= j < |s| && s[j] == x;
      if j > 0 {
        KeyLessIsStrictTotalOrder(p.sortingKey, s[0].sortingKey, s[j].sortingKey);
      }
    }
    ConsAscending(p, s);
  }

  /** A key above the head's goes behind it, into the ascending rest. */
  lemma InsertBehind(p: Property, s: seq<Property>)
    requires StrictlyAscending(s) && s != [] && KeyLess(s[0].sortingKey, p.sortingKey)
    requires StrictlyAscending(Insert(p, s[1..]))
    ensures StrictlyAscending(Insert(p, s))
  {
    var rest := Insert(p, s[1..]);
    InsertPermutes(p, s[1..]);
    forall x | x in rest
      ensures KeyLess(s[0].sortingKey, x.sortingKey)
    {
      assert x in multiset(rest);
      if x != p {
        assert x in multiset(s[1..]);
        var k :| 0 <= k < |s[1..]| && s[1..][k] == x;
        assert s[k + 1] == x;
      }
    }
    ConsAscending(s[0], rest);
  }

  /** An entry below every entry of an ascending list can head it. */
  lemma ConsAscending(h: Property, rest: seq<Property>)
    requires StrictlyAscending(rest)
    requires forall x :: x in rest ==> KeyLess(h.sortingKey, x.sortingKey)
    ensures StrictlyAscending([h] + rest)
  {
    var r := [h] + rest;
    forall i, j | 0 <= i < j < |r|
      ensures KeyLess(r[i].sortingKey, r[j].sortingKey)
    {
      assert r[j] == rest[j - 1];
      if i > 0 {
        assert r[i] == rest[i - 1];
      }
    }
  }

  /** With distinct keys the sorted list is strictly ascending. */
  lemma {:induction false} SortAscending(s: seq<Property>)
    requires KeysDistinct(s)
    ensures StrictlyAscending(SortByKey(s))
  {
    if s != [] {
      SortAscending(s[1..]);
      SortPermutes(s[1..]);
      forall x | x in SortByKey(s[1..])
        ensures x.sortingKey != s[0].sortingKey
      {
        assert x in multiset(s[1..]);
        var k :| 0 <= k < |s[1..]| && s[1..][k] == x;
        assert s[k + 1] == x;
      }
      InsertAscending(s[0], SortByKey(s[1..]));
    }
  }

  // ---------------------------------------------------------------------
  // The two list comprehensions that split the aliases out.

  /** The entries that are aliases (`aliases`) or are not, in order. */
  function Filter(s: seq<Property>, aliases: bool): (r: seq<Property>)
    ensures |r| <= |s|
  {
    if s == [] then []
    else (if IsAlias(s[0]) == aliases then [s[0]] else []) + Filter(s[1..], aliases)
  }

  lemma {:induction false} FilterKeeps(s: seq<Property>, aliases: bool)
    ensures forall x :: x in Filter(s, aliases) ==> x in s && IsAlias(x) == aliases
  {
    if s != [] {
      FilterKeeps(s[1..], aliases);
    }
  }

  /** The aliases and the rest partition the list. */
  lemma {:induction false} FilterPartitions(s: seq<Property>)
    ensures multiset(Filter(s, true)) + multiset(Filter(s, false)) == multiset(s)
  {
    if s != [] {
      FilterPartitions(s[1..]);
      assert multiset(s) == multiset{s[0]} + multiset(s[1..]) by {
        assert s == [s[0]] + s[1..];
      }
      if IsAlias(s[0]) {
        assert Filter(s, true) == [s[0]] + Filter(s[1..], true);
        assert Filter(s, false) == Filter(s[1..], false);
      } else {
        assert Filter(s, true) == Filter(s[1..], true);
        assert Filter(s, false) == [s[0]] + Filter(s[1..], false);
      }
    }
  }

  lemma {:induction false} FilterAscending(s: seq<Property>, aliases: bool)
    requires StrictlyAscending(s)
    ensures StrictlyAscending(Filter(s, aliases))
  {
    if s != [] {
      var rest := Filter(s[1..], aliases);
      FilterAscending(s[1..], aliases);
      FilterKeeps(s[1..], aliases);
      if IsAlias(s[0]) == aliases {
        var r := [s[0]] + rest;
        forall i, j | 0 <= i < j < |r|
          ensures KeyLess(r[i].sortingKey, r[j].sortingKey)
        {
          assert r[j] == rest[j - 1];
          if i > 0 {
            assert r[i] == rest[i - 1];
          } else {
            assert rest[j - 1] in rest;
            var k :| 0 <= k < |s[1..]| && s[1..][k] == rest[j - 1];
            assert s[k + 1] == r[j];
          }
        }
      } else {
        assert Filter(s, aliases) == rest;
      }
    }
  }

  // ---------------------------------------------------------------------
  // Numbering and the property dictionary.

  /** What the enumerate loop adds to the property at `offset`. */
  function WithEnumValue(p: Property, offset: nat, utils: NameUtilities): Property
  {
    p.(propertyId := utils.enumForCssProperty(p.name),
       upperCamelName := utils.camelCase(p.name),
       lowerCamelName := utils.lowerFirst(utils.camelCase(p.name)),
       enumValue := FirstEnumValue + offset,
       isInternal := StartsWith(p.name, "-internal-"))
  }

  function Numbered(s: seq<Property>, utils: NameUtilities): (r: seq<Property>)
    ensures |r| == |s| && forall i :: 0 <= i < |s| ==> r[i] == WithEnumValue(s[i], i, utils)
  {
    seq(|s|, i requires 0 <= i < |s| => WithEnumValue(s[i], i, utils))
  }

  /** {p['property_id']: p for p in properties}: a later entry with the same
      id replaces an earlier one. */
  function ById(s: seq<Property>): map<string, Property>
  {
    if s == [] then map[] else ById(s[..|s| - 1])[s[|s| - 1].propertyId := s[|s| - 1]]
  }

  /** The dictionary holds exactly the ids of the list. */
  lemma {:induction false} ByIdDomain(s: seq<Property>, id: string)
    ensures id in ById(s) <==> exists i :: 0 <= i < |s| && s[i].propertyId == id
  {
    if s != [] {
      var front := s[..|s| - 1];
      ByIdDomain(front, id);
      if s[|s| - 1].propertyId != id {
        forall i | 0 <= i < |s| - 1 && s[i].propertyId == id
          ensures id in ById(front)
        {
          assert front[i] == s[i];
        }
      }
    }
  }

  /** Each id is bound to the last entry of the list that has it. */
  lemma {:induction false} ByIdValue(s: seq<Property>, id: string)
    requires id in ById(s)
    ensures exists i :: 0 <= i < |s| && ById(s)[id] == s[i] && s[i].propertyId == id
                        && forall j :: i < j < |s| ==> s[j].propertyId != id
  {
    var front := s[..|s| - 1];
    var last := s[|s| - 1];
    if last.propertyId != id {
      assert id in ById(front);
      ByIdValue(front, id);
      var i :| 0 <= i < |front| && ById(front)[id] == front[i] && front[i].propertyId == id
               && forall j :: i < j < |front| ==> front[j].propertyId != id;
      assert s[i] == front[i];
      assert forall j :: i < j < |s| - 1 ==> s[j] == front[j];
    } else {
      assert ById(s)[id] == s[|s| - 1];
    }
  }

  // ---------------------------------------------------------------------
  // The aliases.

  function MissingTarget(byId: map<string, Property>, utils: NameUtilities): (r: Property -> bool)
    ensures forall alias :: r(alias) <==> utils.enumForCssProperty(alias.aliasFor) !in byId
  {
    (alias: Property) => utils.enumForCssProperty(alias.aliasFor) !in byId
  }

  /** The aliased property's copy, with the alias's own name, ids and names,
      and an enum value 512 above the target's. */
  function ResolvedAlias(alias: Property, target: Property, utils: NameUtilities): Property
  {
    target.(name := alias.name,
            aliasFor := alias.aliasFor,
            propertyId := utils.enumForCssPropertyAlias(alias.name),
            enumValue := target.enumValue + AliasOffset,
            upperCamelName := utils.camelCase(alias.name),
            lowerCamelName := utils.lowerFirst(utils.camelCase(alias.name)))
  }

  function Resolved(aliases: seq<Property>, byId: map<string, Property>, utils: NameUtilities): (r: seq<Property>)
    requires forall i :: 0 <= i < |aliases| ==> utils.enumForCssProperty(aliases[i].aliasFor) in byId
    ensures |r| == |aliases|
    ensures forall i :: 0 <= i < |aliases| ==>
              r[i] == ResolvedAlias(aliases[i], byId[utils.enumForCssProperty(aliases[i].aliasFor)], utils)
  {
    seq(|aliases|, i requires 0 <= i < |aliases| && utils.enumForCssProperty(aliases[i].aliasFor) in byId =>
          ResolvedAlias(aliases[i], byId[utils.enumForCssProperty(aliases[i].aliasFor)], utils))
  }

  // ---------------------------------------------------------------------
  // The whole generator, as one function of its input.

  datatype Outcome =
    | Failed(failure: Failure)
    | Generated(properties: seq<Property>, aliases: seq<Property>, byId: map<string, Property>)

  /** CSSProperties.__init__: every check in the order the generator makes
      it; on success, the numbered properties, the resolved aliases and the
      property dictionary. */
  function Generate(input: seq<Property>, utils: NameUtilities): Outcome
  {
    var u := FirstIndex(input, HasUnknownPriority);
    if u < |input| then Failed(UnknownPriority(input[u].name))
    else
      var keyed := Keyed(input);
      if !AsLargeAsItsSet(SortingKeys(keyed)) then Failed(SortingKeyCollision)
      else
        var sorted := SortByKey(keyed);
        var aliases := Filter(sorted, true);
        var properties := Filter(sorted, false);
        if FirstEnumValue + |properties| >= AliasOffset then Failed(TooManyProperties)
        else
          var n := FirstIndex(properties, IsNeitherPropertyNorDescriptor);
          if n < |properties| then Failed(NotPropertyOrDescriptor(properties[n].name))
          else
            var numbered := Numbered(properties, utils);
            var byId := ById(numbered);
            if !AsLargeAsItsSet(AliasTargets(aliases)) then Failed(SeveralAliasesForOneProperty)
            else
              var m := FirstIndex(aliases, MissingTarget(byId, utils));
              if m < |aliases| then Failed(UnknownAliasTarget(aliases[m].aliasFor))
              else Generated(numbered, Resolved(aliases, byId, utils), byId)
  }

  /** On success the property list is strictly sorted by key, holds no
      alias, is numbered 3, 4, … in that order, stays under 512, and every
      entry is a property or a descriptor (or both). */
  lemma GeneratedPropertiesSortedAndNumbered(input: seq<Property>, utils: NameUtilities)
    requires Generate(input, utils).Generated?
    ensures var g := Generate(input, utils);
            FirstEnumValue + |g.properties| < AliasOffset
            && StrictlyAscending(g.properties)
            && forall i :: 0 <= i < |g.properties| ==>
                 !IsAlias(g.properties[i]) && (g.properties[i].isProperty || g.properties[i].isDescriptor)
                 && g.properties[i].enumValue == FirstEnumValue + i
  {
    GeneratedStages(input, utils);
    var keyed := Keyed(input);
    SortedPropertiesAscending(keyed);
    NumberedKeepsOrder(Filter(SortByKey(keyed), false), utils);
  }

  /** What a successful run has checked, and the stages its result is made
      of. */
  lemma GeneratedStages(input: seq<Property>, utils: NameUtilities)
    requires Generate(input, utils).Generated?
    ensures forall i :: 0 <= i < |input| ==> !HasUnknownPriority(input[i])
    ensures KeysDistinct(Keyed(input))
    ensures var sorted := SortByKey(Keyed(input));
            var properties := Filter(sorted, false);
            var aliases := Filter(sorted, true);
            var g := Generate(input, utils);
            FirstEnumValue + |properties| < AliasOffset
            && FirstIndex(properties, IsNeitherPropertyNorDescriptor) == |properties|
            && g.properties == Numbered(properties, utils)
            && g.byId == ById(g.properties)
            && (forall i, j :: 0 <= i < j < |aliases| ==> aliases[i].aliasFor != aliases[j].aliasFor)
            && (forall i :: 0 <= i < |aliases| ==> utils.enumForCssProperty(aliases[i].aliasFor) in g.byId)
            && g.aliases == Resolved(aliases, g.byId, utils)
  {
    assert FirstIndex(input, HasUnknownPriority) == |input|;
    var keyed := Keyed(input);
    assert AsLargeAsItsSet(SortingKeys(keyed));
    DistinctIffSetAsLarge(SortingKeys(keyed));
    var sorted := SortByKey(keyed);
    var aliases := Filter(sorted, true);
    var properties := Filter(sorted, false);
    assert FirstEnumValue + |properties| < AliasOffset;
    assert FirstIndex(properties, IsNeitherPropertyNorDescriptor) == |properties|;
    var byId := ById(Numbered(properties, utils));
    assert AsLargeAsItsSet(AliasTargets(aliases));
    DistinctIffSetAsLarge(AliasTargets(aliases));
    assert FirstIndex(aliases, MissingTarget(byId, utils)) == |aliases|;
    assert Generate(input, utils) == Generated(Numbered(properties, utils), Resolved(aliases, byId, utils), byId);
  }

  /** With distinct keys, the sorted non-alias entries are strictly
      ascending and hold no alias. */
  lemma SortedPropertiesAscending(keyed: seq<Property>)
    requires KeysDistinct(keyed)
    ensures var properties := Filter(SortByKey(keyed), false);
            StrictlyAscending(properties) && forall i :: 0 <= i < |properties| ==> !IsAlias(properties[i])
  {
    var sorted := SortByKey(keyed);
    SortAscending(keyed);
    FilterAscending(sorted, false);
    FilterKeeps(sorted, false);
    var properties := Filter(sorted, false);
    assert forall i :: 0 <= i < |properties| ==> properties[i] in properties;
  }

  /** Numbering keeps the keys, the alias fields and the kind of each entry,
      and gives the entries consecutive values from 3. */
  lemma NumberedKeepsOrder(properties: seq<Property>, utils: NameUtilities)
    requires StrictlyAscending(properties) && forall i :: 0 <= i < |properties| ==> !IsAlias(properties[i])
    requires FirstIndex(properties, IsNeitherPropertyNorDescriptor) == |properties|
    ensures var r := Numbered(properties, utils);
            StrictlyAscending(r)
            && forall i :: 0 <= i < |r| ==>
                 !IsAlias(r[i]) && (r[i].isProperty || r[i].isDescriptor) && r[i].enumValue == FirstEnumValue + i
  {
  }

  /** On success no two aliases name the same property, and each alias is
      the copy of the property its alias_for names — an entry of the
      property list — numbered 512 above it, above every property. */
  lemma GeneratedAliasesResolved(input: seq<Property>, utils: NameUtilities)
    requires Generate(input, utils).Generated?
    ensures var g := Generate(input, utils);
            (forall i, j :: 0 <= i < j < |g.aliases| ==> g.aliases[i].aliasFor != g.aliases[j].aliasFor)
            && forall i :: 0 <= i < |g.aliases| ==>
                 IsAlias(g.aliases[i])
                 && utils.enumForCssProperty(g.aliases[i].aliasFor) in g.byId
                 && var target := g.byId[utils.enumForCssProperty(g.aliases[i].aliasFor)];
                    target in g.properties
                    && target.propertyId == utils.enumForCssProperty(g.aliases[i].aliasFor)
                    && g.aliases[i] == ResolvedAlias(g.aliases[i], target, utils)
                    && g.aliases[i].enumValue == target.enumValue + AliasOffset
                    && forall k :: 0 <= k < |g.properties| ==> g.properties[k].enumValue < g.aliases[i].enumValue
  {
    var g := Generate(input, utils);
    GeneratedStages(input, utils);
    var sorted := SortByKey(Keyed(input));
    var aliases := Filter(sorted, true);
    FilterKeeps(sorted, true);
    GeneratedPropertiesSortedAndNumbered(input, utils);
    forall i | 0 <= i < |g.aliases|
      ensures IsAlias(g.aliases[i])
      ensures utils.enumForCssProperty(g.aliases[i].aliasFor) in g.byId
      ensures g.byId[utils.enumForCssProperty(g.aliases[i].aliasFor)] in g.properties
      ensures g.byId[utils.enumForCssProperty(g.aliases[i].aliasFor)].propertyId
              == utils.enumForCssProperty(g.aliases[i].aliasFor)
    {
      assert aliases[i] in aliases;
      var id := utils.enumForCssProperty(aliases[i].aliasFor);
      ByIdDomain(g.properties, id);
      ByIdValue(g.properties, id);
    }
  }

  /** Every input entry comes out exactly once, by name: the properties and
      then the aliases are a rearrangement of the input. */
  lemma GeneratedIsPermutation(input: seq<Property>, utils: NameUtilities)
    requires Generate(input, utils).Generated?
    ensures var g := Generate(input, utils);
            multiset(Names(g.properties + g.aliases)) == multiset(Names(input))
  {
    var g := Generate(input, utils);
    GeneratedStages(input, utils);
    var keyed := Keyed(input);
    StagesKeepNames(input, keyed, SortByKey(keyed), g.properties, g.aliases, utils);
  }

  /** The sort, the split, the numbering and the alias resolution only
      rearrange the entries and keep their names. */
  lemma StagesKeepNames(input: seq<Property>, keyed: seq<Property>, sorted: seq<Property>,
                        numbered: seq<Property>, resolved: seq<Property>, utils: NameUtilities)
    requires |keyed| == |input| && forall i :: 0 <= i < |input| ==> keyed[i].name == input[i].name
    requires sorted == SortByKey(keyed)
    requires |numbered| == |Filter(sorted, false)|
    requires forall i :: 0 <= i < |numbered| ==> numbered[i].name == Filter(sorted, false)[i].name
    requires |resolved| == |Filter(sorted, true)|
    requires forall i :: 0 <= i < |resolved| ==> resolved[i].name == Filter(sorted, true)[i].name
    ensures multiset(Names(numbered + resolved)) == multiset(Names(input))
  {
    var properties := Filter(sorted, false);
    var aliases := Filter(sorted, true);
    SortPermutes(keyed);
    FilterPartitions(sorted);
    assert multiset(properties + aliases) == multiset(keyed);
    NamesPermute(properties + aliases, keyed);
    SameNames(properties + aliases, numbered + resolved);
    SameNames(keyed, input);
  }

  /** Lists whose entries have the same names, position by position, have
      the same list of names. */
  lemma SameNames(s: seq<Property>, t: seq<Property>)
    requires |s| == |t| && forall i :: 0 <= i < |s| ==> s[i].name == t[i].name
    ensures Names(s) == Names(t)
  {
  }

  /** Rearranging a list rearranges its names. */
  lemma {:induction false} NamesPermute(s: seq<Property>, t: seq<Property>)
    requires multiset(s) == multiset(t)
    ensures multiset(Names(s)) == multiset(Names(t))
    decreases |s|
  {
    if s == [] {
      assert |t| == 0 by {
        assert |multiset(t)| == 0;
      }
    } else {
      assert s[0] in multiset(t);
      var k :| 0 <= k < |t| && t[k] == s[0];
      RemoveHead(s, t, k);
      NamesPermute(s[1..], t[..k] + t[k + 1..]);
      NamesAfterRemoval(s, t, k);
    }
  }

  lemma RemoveHead(s: seq<Property>, t: seq<Property>, k: nat)
    requires multiset(s) == multiset(t) && s != [] && k < |t| && t[k] == s[0]
    ensures multiset(s[1..]) == multiset(t[..k] + t[k + 1..])
  {
    RemoveAt(t, k);
    assert multiset(s) == multiset{s[0]} + multiset(s[1..]) by {
      assert s == [s[0]] + s[1..];
    }
  }

  lemma NamesAfterRemoval(s: seq<Property>, t: seq<Property>, k: nat)
    requires s != [] && k < |t| && t[k] == s[0]
    requires multiset(Names(s[1..])) == multiset(Names(t[..k] + t[k + 1..]))
    ensures multiset(Names(s)) == multiset(Names(t))
  {
    RemoveAt(Names(t), k);
    assert Names(t)[..k] + Names(t)[k + 1..] == Names(t[..k] + t[k + 1..]);
    assert Names(s) == [s[0].name] + Names(s[1..]);
  }

  /** Dropping the element at k drops one copy of it. */
  lemma RemoveAt<T>(t: seq<T>, k: nat)
    requires k < |t|
    ensures multiset(t[..k] + t[k + 1..]) == multiset(t) - multiset{t[k]}
  {
    assert t == t[..k] + [t[k]] + t[k + 1..];
  }

  /** "-foo" and "foo" with one priority share a sorting key, so the
      generator refuses the pair rather than order them arbitrarily. */
  lemma DashedTwinsCollide(p: Property, q: Property, utils: NameUtilities)
    requires !HasUnknownPriority(p) && p.priority == q.priority
    requires |q.name| > 0 && q.name[0] != '-' && p.name == "-" + q.name
    ensures Generate([p, q], utils) == Failed(SortingKeyCollision)
  {
    var keyed := Keyed([p, q]);
    assert keyed[0].sortingKey == keyed[1].sortingKey by {
      assert StartsWith(p.name, "-") && p.name[1..] == q.name;
    }
    DistinctIffSetAsLarge(SortingKeys(keyed));
  }

  // ---------------------------------------------------------------------
  // The generator object.

  class CssProperties {
    /** self._properties: the property dictionary by property id. */
    var properties: map<string, Property>
    /** self._aliases. */
    var aliases: seq<Property>
    /** self._properties_including_aliases. */
    var propertiesIncludingAliases: seq<Property>

    constructor()
      ensures properties == map[] && aliases == [] && propertiesIncludingAliases == []
    {
      properties, aliases, propertiesIncludingAliases := map[], [], [];
    }

    /** The body of __init__ run on the JSON5 entries: no failure exactly
        when Generate succeeds, and then the fields hold what it produced.
        After a failure the fields are unspecified, as the generator has
        stopped. */
    method Load(input: seq<Property>, utils: NameUtilities) returns (failure: Option<Failure>)
      modifies this
      ensures failure.None? <==> Generate(input, utils).Generated?
      ensures failure.Some? ==> failure.value == Generate(input, utils).failure
      ensures failure.None? ==>
                properties == Generate(input, utils).byId && aliases == Generate(input, utils).aliases
                && propertiesIncludingAliases == Generate(input, utils).properties + Generate(input, utils).aliases
    {
      ghost var outcome := Generate(input, utils);
      var keyed;
      keyed, failure := AssignSortingKeys(input);
      if failure.Some? {
        assert outcome == Failed(failure.value);
        return;
      }
      if !AsLargeAsItsSet(SortingKeys(keyed)) {
        assert outcome == Failed(SortingKeyCollision);
        return Some(SortingKeyCollision);
      }
      var sorted := SortByKey(keyed);
      aliases := Filter(sorted, true);
      var props := Filter(sorted, false);
      if FirstEnumValue + |props| >= AliasOffset {
        assert outcome == Failed(TooManyProperties);
        return Some(TooManyProperties);
      }
      var bad := FindNeitherPropertyNorDescriptor(props);
      if bad < |props| {
        assert outcome == Failed(NotPropertyOrDescriptor(props[bad].name));
        return Some(NotPropertyOrDescriptor(props[bad].name));
      }
      var numbered := AssignEnumValues(props, utils);
      propertiesIncludingAliases := numbered;
      properties := ById(numbered);
      if !AsLargeAsItsSet(AliasTargets(aliases)) {
        assert outcome == Failed(SeveralAliasesForOneProperty);
        return Some(SeveralAliasesForOneProperty);
      }
      var resolved;
      resolved, failure := ResolveAliases(aliases, properties, utils);
      if failure.Some? {
        assert outcome == Failed(failure.value);
        return;
      }
      assert outcome == Generated(numbered, resolved, properties);
      aliases := resolved;
      propertiesIncludingAliases := propertiesIncludingAliases + aliases;
    }
  }

  /** The first loop: each entry gets its sorting key; the first entry with
      an unknown priority stops it. */
  method AssignSortingKeys(input: seq<Property>) returns (keyed: seq<Property>, failure: Option<Failure>)
    ensures failure.None? <==> FirstIndex(input, HasUnknownPriority) == |input|
    ensures failure.Some? ==> failure == Some(UnknownPriority(input[FirstIndex(input, HasUnknownPriority)].name))
    ensures failure.None? ==> keyed == Keyed(input)
  {
    keyed := [];
    for i := 0 to |input|
      invariant |keyed| == i
      invariant forall k :: 0 <= k < i ==> !HasUnknownPriority(input[k]) && keyed[k] == WithSortingKey(input[k])
    {
      if PriorityNumber(input[i].priority).None? {
        return keyed, Some(UnknownPriority(input[i].name));
      }
      keyed := keyed + [WithSortingKey(input[i])];
    }
    failure := None;
  }

  /** The loop of assertions: the first entry that is neither a property
      nor a descriptor, or |properties|. */
  method FindNeitherPropertyNorDescriptor(properties: seq<Property>) returns (r: nat)
    ensures r == FirstIndex(properties, IsNeitherPropertyNorDescriptor)
  {
    for i := 0 to |properties|
      invariant forall k :: 0 <= k < i ==> !IsNeitherPropertyNorDescriptor(properties[k])
    {
      if !properties[i].isDescriptor && !properties[i].isProperty {
        return i;
      }
    }
    return |properties|;
  }

  /** The enumerate loop: ids, names and enum values 3, 4, … in order. */
  method AssignEnumValues(properties: seq<Property>, utils: NameUtilities) returns (numbered: seq<Property>)
    ensures numbered == Numbered(properties, utils)
  {
    numbered := [];
    for offset := 0 to |properties|
      invariant |numbered| == offset
      invariant forall k :: 0 <= k < offset ==> numbered[k] == WithEnumValue(properties[k], k, utils)
    {
      var p := properties[offset];
      p := p.(propertyId := utils.enumForCssProperty(p.name));
      p := p.(upperCamelName := utils.camelCase(p.name));
      p := p.(lowerCamelName := utils.lowerFirst(p.upperCamelName));
      p := p.(enumValue := FirstEnumValue + offset);
      p := p.(isInternal := StartsWith(p.name, "-internal-"));
      numbered := numbered + [p];
    }
  }

  /** The alias loop: each alias replaced by its target's copy; an alias
      whose target is not in the dictionary stops it (KeyError). */
  method ResolveAliases(aliases: seq<Property>, byId: map<string, Property>, utils: NameUtilities)
    returns (resolved: seq<Property>, failure: Option<Failure>)
    ensures failure.None? <==> FirstIndex(aliases, MissingTarget(byId, utils)) == |aliases|
    ensures failure.Some? ==>
              failure == Some(UnknownAliasTarget(aliases[FirstIndex(aliases, MissingTarget(byId, utils))].aliasFor))
    ensures failure.None? ==> resolved == Resolved(aliases, byId, utils)
  {
    resolved := aliases;
    for i := 0 to |aliases|
      invariant |resolved| == |aliases|
      invariant forall k :: 0 <= k < i ==> !MissingTarget(byId, utils)(aliases[k])
      invariant forall k :: 0 <= k < i ==>
                  resolved[k] == ResolvedAlias(aliases[k], byId[utils.enumForCssProperty(aliases[k].aliasFor)], utils)
      invariant resolved[i..] == aliases[i..]
    {
      var alias := resolved[i];
      assert alias == aliases[i] by {
        assert resolved[i..][0] == aliases[i..][0];
      }
      var id := utils.enumForCssProperty(alias.aliasFor);
      if id !in byId {
        return resolved, Some(UnknownAliasTarget(alias.aliasFor));
      }
      var aliasedProperty := byId[id];
      var updatedAlias := aliasedProperty;
      updatedAlias := updatedAlias.(name := alias.name);
      updatedAlias := updatedAlias.(aliasFor := alias.aliasFor);
      updatedAlias := updatedAlias.(propertyId := utils.enumForCssPropertyAlias(alias.name));
      updatedAlias := updatedAlias.(enumValue := aliasedProperty.enumValue + AliasOffset);
      updatedAlias := updatedAlias.(upperCamelName := utils.camelCase(alias.name));
      updatedAlias := updatedAlias.(lowerCamelName := utils.lowerFirst(updatedAlias.upperCamelName));
      resolved := resolved[i := updatedAlias];
    }
    failure := None;
  }
}
