/** The validation of a schema finds no problem exactly when the schema is valid. */
module SchemaValidation {
  import opened Names
  import opened Options
  import opened Schemas

  datatype Problem =
    | TypeAppearsTwice(objectName: string)
    | LinkingObjectsNotArray(objectName: string, property: string)
    | CannotBeNullable(objectName: string, property: string)
    | ObjectMustBeNullable(objectName: string, property: string)
    | CannotBePrimaryKey(objectName: string, property: string)
    | TwoPrimaryKeys(objectName: string, property: string, other: string)
    | CannotBeIndexed(objectName: string, property: string)
    | CannotHaveOrigin(objectName: string, property: string)
    | MustHaveOrigin(objectName: string, property: string)
    | CannotHaveObjectType(objectName: string, property: string)
    | UnknownObjectType(objectName: string, property: string)
    | OriginDoesNotExist(objectName: string, property: string)
    | OriginIsNotLink(objectName: string, property: string)
    | OriginLinksElsewhere(objectName: string, property: string)
    | PrimaryKeyDoesNotExist(objectName: string)

  /** What is said about a property's flags, and why; key is the primary key found before it. */
  predicate FlagProblem(x: Problem, objectName: string, p: Property, key: Option<Property>) {
    match x
    case LinkingObjectsNotArray(o, n) => o == objectName && n == p.name && p.typ.base == LinkingObjects && !p.typ.isArray
    case CannotBeNullable(o, n) =>
      o == objectName && n == p.name && p.typ.nullable && (p.typ.base == LinkingObjects || (p.typ.base == Object && p.typ.isArray))
    case ObjectMustBeNullable(o, n) => o == objectName && n == p.name && p.typ.base == Object && !p.typ.nullable && !p.typ.isArray
    case CannotBePrimaryKey(o, n) => o == objectName && n == p.name && p.isPrimary && p.typ.base != Int && p.typ.base != String
    case TwoPrimaryKeys(o, n, m) => o == objectName && n == p.name && p.isPrimary && key.Some? && m == key.value.name
    case CannotBeIndexed(o, n) => o == objectName && n == p.name && p.isIndexed && p.typ.base !in {Int, Bool, Date, String}
    case _ => false
  }

  /** What is said about the classes and properties it refers to. */
  ghost predicate ReferenceProblem(x: Problem, s: Schema, objectName: string, p: Property) {
    var refers := p.typ.base == Object || p.typ.base == LinkingObjects;
    match x
    case CannotHaveOrigin(o, n) => o == objectName && n == p.name && p.typ.base != LinkingObjects && p.origin != ""
    case MustHaveOrigin(o, n) => o == objectName && n == p.name && p.typ.base == LinkingObjects && p.origin == ""
    case CannotHaveObjectType(o, n) => o == objectName && n == p.name && !refers && p.objectType != ""
    case UnknownObjectType(o, n) => o == objectName && n == p.name && refers && !HasClass(s, p.objectType)
    case OriginDoesNotExist(o, n) => o == objectName && n == p.name && LooksForOrigin(s, p) && OriginOf(s, p).None?
    case OriginIsNotLink(o, n) =>
      && o == objectName && n == p.name && LooksForOrigin(s, p)
      && OriginOf(s, p).Some? && OriginOf(s, p).value.typ.base != Object
    case OriginLinksElsewhere(o, n) =>
      && o == objectName && n == p.name && LooksForOrigin(s, p)
      && OriginOf(s, p).Some? && OriginOf(s, p).value.typ.base == Object && OriginOf(s, p).value.objectType != objectName
    case _ => false
  }

  predicate LooksForOrigin(s: Schema, p: Property) {
    p.typ.base == LinkingObjects && ClassNamed(s, p.objectType).Some?
  }

  function OriginOf(s: Schema, p: Property): Option<Property>
    requires LooksForOrigin(s, p)
  {
    ClassNamed(s, p.objectType).value.PropertyForName(p.origin)
  }

  function When(wrong: bool, x: Problem): seq<Problem> {
    if wrong then [x] else []
  }

  /** The problems in the order of the checks. */
  function FlagProblems(objectName: string, p: Property, key: Option<Property>): seq<Problem> {
    TypeProblems(objectName, p) + KeyProblems(objectName, p, key)
  }

  function TypeProblems(objectName: string, p: Property): seq<Problem> {
    When(p.typ.base == LinkingObjects && !p.typ.isArray, LinkingObjectsNotArray(objectName, p.name))
    + When(p.typ.nullable && !p.TypeIsNullable(), CannotBeNullable(objectName, p.name))
    + When(p.typ.base == Object && !p.typ.nullable && !p.typ.isArray, ObjectMustBeNullable(objectName, p.name))
  }

  function KeyProblems(objectName: string, p: Property, key: Option<Property>): seq<Problem> {
    When(p.isPrimary && p.typ.base != Int && p.typ.base != String, CannotBePrimaryKey(objectName, p.name))
    + (if p.isPrimary && key.Some? then [TwoPrimaryKeys(objectName, p.name, key.value.name)] else [])
    + When(p.isIndexed && !p.TypeIsIndexable(), CannotBeIndexed(objectName, p.name))
  }

  function ReferenceProblems(s: Schema, objectName: string, p: Property): seq<Problem> {
    When(p.typ.base != LinkingObjects && p.origin != "", CannotHaveOrigin(objectName, p.name))
    + When(p.typ.base == LinkingObjects && p.origin == "", MustHaveOrigin(objectName, p.name))
    + if p.typ.base != Object && p.typ.base != LinkingObjects then
        When(p.objectType != "", CannotHaveObjectType(objectName, p.name))
      else if ClassNamed(s, p.objectType).None? then [UnknownObjectType(objectName, p.name)]
      else if p.typ.base != LinkingObjects then []
      else OriginProblems(objectName, p, OriginOf(s, p))
  }

  function OriginProblems(objectName: string, p: Property, origin: Option<Property>): seq<Problem> {
    if origin.None? then [OriginDoesNotExist(objectName, p.name)]
    else if origin.value.typ.base != Object then [OriginIsNotLink(objectName, p.name)]
    else When(origin.value.objectType != objectName, OriginLinksElsewhere(objectName, p.name))
  }

  lemma FlagProblemsAre(objectName: string, p: Property, key: Option<Property>)
    ensures forall x :: x in FlagProblems(objectName, p, key) <==> FlagProblem(x, objectName, p, key)
  {
    TypeProblemsAre(objectName, p, key);
    KeyProblemsAre(objectName, p, key);
    hide TypeProblems, KeyProblems, FlagProblem;
  }

  predicate IsTypeProblem(x: Problem) {
    x.LinkingObjectsNotArray? || x.CannotBeNullable? || x.ObjectMustBeNullable?
  }

  lemma TypeProblemsAre(objectName: string, p: Property, key: Option<Property>)
    ensures forall x :: x in TypeProblems(objectName, p) <==> IsTypeProblem(x) && FlagProblem(x, objectName, p, key)
  {
  }

  lemma KeyProblemsAre(objectName: string, p: Property, key: Option<Property>)
    ensures forall x :: x in KeyProblems(objectName, p, key) <==> !IsTypeProblem(x) && FlagProblem(x, objectName, p, key)
  {
  }

  lemma ReferenceProblemsAre(s: Schema, objectName: string, p: Property)
    ensures forall x :: x in ReferenceProblems(s, objectName, p) <==> ReferenceProblem(x, s, objectName, p)
  {
    hide ObjectSchema.PropertyForName, ClassNamed;
    assert ClassNamed(s, p.objectType).Some? ==> HasClass(s, p.objectType);
    forall x
      ensures x in ReferenceProblems(s, objectName, p) <==> ReferenceProblem(x, s, objectName, p)
    {
      if p.typ.base == LinkingObjects && ClassNamed(s, p.objectType).Some? {
        OriginProblemsAre(objectName, p, OriginOf(s, p), x);
      }
      hide OriginProblems, OriginOf, HasClass;
    }
  }

  lemma OriginProblemsAre(objectName: string, p: Property, origin: Option<Property>, x: Problem)
    ensures x in OriginProblems(objectName, p, origin) <==>
              || (x == OriginDoesNotExist(objectName, p.name) && origin.None?)
              || (x == OriginIsNotLink(objectName, p.name) && origin.Some? && origin.value.typ.base != Object)
              || (x == OriginLinksElsewhere(objectName, p.name) && origin.Some? && origin.value.typ.base == Object
                  && origin.value.objectType != objectName)
  {
  }

  /** There is none exactly when the property is fine and no second primary key. */
  lemma NoProblemWhenOk(s: Schema, objectName: string, p: Property, key: Option<Property>)
    ensures FlagProblems(objectName, p, key) + ReferenceProblems(s, objectName, p) == []
            <==> PropertyOk(s, objectName, p) && !(p.isPrimary && key.Some?)
  {
    assert ClassNamed(s, p.objectType).Some? ==> HasClass(s, p.objectType);
  }

  method ValidateType(objectName: string, p: Property, found: seq<Problem>) returns (problems: seq<Problem>)
    ensures problems == found + TypeProblems(objectName, p)
  {
    problems := found;
    if p.typ.base == LinkingObjects && !p.typ.isArray {
      problems := problems + [LinkingObjectsNotArray(objectName, p.name)];
    }
    if p.typ.nullable && !p.TypeIsNullable() {
      problems := problems + [CannotBeNullable(objectName, p.name)];
    } else if p.typ.base == Object && !p.typ.nullable && !p.typ.isArray {
      problems := problems + [ObjectMustBeNullable(objectName, p.name)];
    }
  }

  method ValidateKeys(objectName: string, p: Property, primary: Option<Property>, found: seq<Problem>)
    returns (problems: seq<Problem>, key: Option<Property>)
    ensures problems == found + KeyProblems(objectName, p, primary)
    ensures key == if p.isPrimary then Some(p) else primary
  {
    problems, key := found, primary;
    if p.isPrimary {
      if p.typ.base != Int && p.typ.base != String {
        problems := problems + [CannotBePrimaryKey(objectName, p.name)];
      }
      if primary.Some? {
        problems := problems + [TwoPrimaryKeys(objectName, p.name, primary.value.name)];
      }
      key := Some(p);
    }
    if p.isIndexed && !p.TypeIsIndexable() {
      problems := problems + [CannotBeIndexed(objectName, p.name)];
    }
  }

  method ValidateReferences(s: Schema, objectName: string, p: Property, found: seq<Problem>) returns (problems: seq<Problem>)
    ensures problems == found + ReferenceProblems(s, objectName, p)
  {
    hide ObjectSchema.PropertyForName;
    problems := found;
    if p.typ.base != LinkingObjects && p.origin != "" {
      problems := problems + [CannotHaveOrigin(objectName, p.name)];
    } else if p.typ.base == LinkingObjects && p.origin == "" {
      problems := problems + [MustHaveOrigin(objectName, p.name)];
    }
    if p.typ.base != Object && p.typ.base != LinkingObjects {
      if p.objectType != "" {
        problems := problems + [CannotHaveObjectType(objectName, p.name)];
      }
      return;
    }
    var o := ClassNamed(s, p.objectType);
    if o.None? {
      problems := problems + [UnknownObjectType(objectName, p.name)];
      return;
    }
    if p.typ.base != LinkingObjects {
      return;
    }
    var origin := o.value.PropertyForName(p.origin);
    if origin.None? {
      problems := problems + [OriginDoesNotExist(objectName, p.name)];
    } else if origin.value.typ.base != Object {
      problems := problems + [OriginIsNotLink(objectName, p.name)];
    } else if origin.value.objectType != objectName {
      problems := problems + [OriginLinksElsewhere(objectName, p.name)];
    }
  }

  /** Each problem is reported for its reason, none is missed, and there is none exactly when the property is fine. */
  method ValidateProperty(s: Schema, objectName: string, p: Property, primary: Option<Property>, found: seq<Problem>)
    returns (problems: seq<Problem>, key: Option<Property>)
    ensures found <= problems
    ensures forall x :: x in problems <==> x in found || FlagProblem(x, objectName, p, primary) || ReferenceProblem(x, s, objectName, p)
    ensures problems == found <==> PropertyOk(s, objectName, p) && !(p.isPrimary && primary.Some?)
    ensures key == if p.isPrimary then Some(p) else primary
  {
    hide TypeProblems, KeyProblems, ReferenceProblems, FlagProblem, ReferenceProblem, PropertyOk;
    problems := ValidateType(objectName, p, found);
    problems, key := ValidateKeys(objectName, p, primary, problems);
    problems := ValidateReferences(s, objectName, p, problems);
    FlagProblemsAre(objectName, p, primary);
    ReferenceProblemsAre(s, objectName, p);
    NoProblemWhenOk(s, objectName, p, primary);
    assert problems == found + (FlagProblems(objectName, p, primary) + ReferenceProblems(s, objectName, p));
  }

  /** The property that is flagged as the primary key last. */
  function LastPrimary(ps: seq<Property>): (r: Option<Property>)
    ensures r.None? <==> forall p :: p in ps ==> !p.isPrimary
  {
    if ps == [] then None
    else if ps[|ps| - 1].isPrimary then Some(ps[|ps| - 1])
    else LastPrimary(ps[..|ps| - 1])
  }

  ghost predicate OnePrimary(ps: seq<Property>) {
    forall i, j :: 0 <= i < j < |ps| ==> !(ps[i].isPrimary && ps[j].isPrimary)
  }

  /** The properties so far are fine, and at most one of them is the primary key. */
  ghost predicate PropertiesOk(s: Schema, objectName: string, ps: seq<Property>) {
    (forall p :: p in ps ==> PropertyOk(s, objectName, p)) && OnePrimary(ps)
  }

  lemma OneMoreProperty(s: Schema, objectName: string, ps: seq<Property>, p: Property)
    ensures PropertiesOk(s, objectName, ps + [p]) <==>
              PropertiesOk(s, objectName, ps) && PropertyOk(s, objectName, p) && !(p.isPrimary && LastPrimary(ps).Some?)
    ensures LastPrimary(ps + [p]) == if p.isPrimary then Some(p) else LastPrimary(ps)
  {
    var more := ps + [p];
    assert more[..|more| - 1] == ps;
    hide PropertyOk;
    if PropertiesOk(s, objectName, more) {
      forall x | x in ps
        ensures x in more
      {
      }
      assert OnePrimary(ps) by {
        assert forall i :: 0 <= i < |ps| ==> ps[i] == more[i];
      }
      assert p in more;
      forall i | 0 <= i < |ps|
        ensures !(ps[i].isPrimary && p.isPrimary)
      {
        assert more[i] == ps[i] && more[|ps|] == p;
      }
    }
  }

  method ValidateClass(s: Schema, o: ObjectSchema, found: seq<Problem>) returns (problems: seq<Problem>)
    ensures found <= problems
    ensures problems == found <==> ClassOk(s, o)
  {
    hide PropertyOk, PropertiesOk, LastPrimary, PrimaryKeyOk;
    problems := found;
    var all := o.persisted + o.computed;
    var primary: Option<Property> := None;
    var k := 0;
    NoPropertiesYet(s, o.name);
    while k < |all|
      invariant k <= |all| && found <= problems
      invariant problems == found <==> PropertiesOk(s, o.name, all[..k])
      invariant primary == LastPrimary(all[..k])
    {
      OneMoreProperty(s, o.name, all[..k], all[k]);
      assert all[..k] + [all[k]] == all[..k + 1];
      problems, primary := ValidateProperty(s, o.name, all[k], primary, problems);
      k := k + 1;
    }
    assert all[..k] == all;
    if o.primaryKey != "" && primary.None? && o.PrimaryKeyProperty().None? {
      problems := problems + [PrimaryKeyDoesNotExist(o.name)];
    }
    ClassOkMeans(s, o);
  }

  lemma NoPropertiesYet(s: Schema, objectName: string)
    ensures PropertiesOk(s, objectName, []) && LastPrimary([]).None?
  {
  }

  lemma ClassOkMeans(s: Schema, o: ObjectSchema)
    ensures var all := o.persisted + o.computed;
            ClassOk(s, o) <==>
              && PropertiesOk(s, o.name, all)
              && !(o.primaryKey != "" && LastPrimary(all).None? && o.PrimaryKeyProperty().None?)
  {
    hide PropertyOk, ObjectSchema.PropertyForName;
    var all := o.persisted + o.computed;
    assert forall p :: p in all <==> p in o.persisted || p in o.computed;
    assert (forall i :: 0 <= i < |all| ==> !all[i].isPrimary) <==> forall p :: p in all ==> !p.isPrimary;
  }

  /** The classes are in the order of their names, as a schema is built; equal names are possible. */
  ghost predicate Ordered(s: Schema) {
    forall i, j :: 0 <= i < j < |s| ==> !Less(s[j].name, s[i].name)
  }

  /** Equal names would be next to each other. */
  lemma {:induction false} AdjacentNamesDecide(s: Schema)
    requires Ordered(s)
    ensures Sorted(s) <==> forall i :: 0 < i < |s| ==> s[i - 1].name != s[i].name
  {
    if Sorted(s) {
      forall i | 0 < i < |s|
        ensures s[i - 1].name != s[i].name
      {
        LessIsIrreflexive(s[i].name);
      }
    }
    if forall i :: 0 < i < |s| ==> s[i - 1].name != s[i].name {
      forall i, j | 0 <= i < j < |s|
        ensures Less(s[i].name, s[j].name)
      {
        NamesIncrease(s, i, j);
      }
    }
  }

  lemma {:induction false} NamesIncrease(s: Schema, i: nat, j: nat)
    requires Ordered(s) && i < j < |s| && forall k :: 0 < k < |s| ==> s[k - 1].name != s[k].name
    ensures Less(s[i].name, s[j].name)
    decreases j
  {
    LessIsTotal(s[j - 1].name, s[j].name);
    if i < j - 1 {
      NamesIncrease(s, i, j - 1);
      LessIsTransitive(s[i].name, s[j - 1].name, s[j].name);
    }
  }

  /** Validation reports nothing exactly for the valid schemas. */
  method Validate(s: Schema) returns (problems: seq<Problem>)
    requires Ordered(s)
    ensures problems == [] <==> Valid(s)
  {
    problems := [];
    var i := 1;
    while i < |s|
      invariant 1 <= i && (s == [] || i <= |s|)
      invariant problems == [] <==> forall k :: 0 < k < i && k < |s| ==> s[k - 1].name != s[k].name
    {
      if s[i - 1].name == s[i].name {
        problems := problems + [TypeAppearsTwice(s[i].name)];
      }
      i := i + 1;
    }
    AdjacentNamesDecide(s);
    var k := 0;
    while k < |s|
      invariant k <= |s|
      invariant problems == [] <==> Sorted(s) && forall o :: o in s[..k] ==> ClassOk(s, o)
    {
      assert s[..k + 1] == s[..k] + [s[k]];
      hide ClassOk, Sorted;
      problems := ValidateClass(s, s[k], problems);
      k := k + 1;
    }
    assert s[..k] == s;
  }
}
