/** Key paths for sorting: dotted names that follow to-one links and end in a sortable property. */
module KeyPaths {
  import opened Names
  import opened Options
  import opened Schemas

  // ----- splitting at dots -----

  /** The first dot, or the length of the string. */
  function FirstDot(s: string): (i: nat)
    ensures i <= |s| && (i < |s| ==> s[i] == '.') && forall k :: 0 <= k < i ==> s[k] != '.'
  {
    if s == "" || s[0] == '.' then 0 else FirstDot(s[1..]) + 1
  }

  function Split(s: string): (r: seq<string>)
    ensures |r| > 0
  {
    var i := FirstDot(s);
    if i == |s| then [s] else [s[..i]] + Split(s[i + 1..])
  }

  function Join(parts: seq<string>): string
    requires |parts| > 0
  {
    if |parts| == 1 then parts[0] else parts[0] + "." + Join(parts[1..])
  }

  predicate Dotless(s: string) {
    forall k :: 0 <= k < |s| ==> s[k] != '.'
  }

  lemma {:induction false} JoinSplit(s: string)
    ensures Join(Split(s)) == s && forall k :: 0 <= k < |Split(s)| ==> Dotless(Split(s)[k])
  {
    var i := FirstDot(s);
    if i < |s| {
      JoinSplit(s[i + 1..]);
      assert s == s[..i] + "." + s[i + 1..];
    }
  }

  lemma {:induction false} SplitJoin(parts: seq<string>)
    requires |parts| > 0 && forall k :: 0 <= k < |parts| ==> Dotless(parts[k])
    ensures Split(Join(parts)) == parts
  {
    var s := Join(parts);
    if |parts| == 1 {
      assert FirstDot(s) == |s|;
    } else {
      SplitJoin(parts[1..]);
      assert s[|parts[0]|] == '.' && s[..|parts[0]|] == parts[0] && s[|parts[0]| + 1..] == Join(parts[1..]);
      FirstDotIs(s, |parts[0]|);
      assert Split(s) == [parts[0]] + Split(s[|parts[0]| + 1..]);
    }
  }

  lemma FirstDotIs(s: string, i: nat)
    requires i < |s| && s[i] == '.' && forall k :: 0 <= k < i ==> s[k] != '.'
    ensures FirstDot(s) == i
  {
    var j := FirstDot(s);
    assert j < |s| ==> s[j] == '.';
  }

  // ----- what a key path means -----

  predicate Sortable(t: PropertyType) {
    !t.isArray && t.base != LinkingObjects && t.base != Data
  }

  /** The same by listing what can be sorted by or followed. */
  predicate StoresOneValue(t: PropertyType) {
    t.base in {Int, Bool, String, Date, Float, Double, Object, Any} && !t.isArray
  }

  /** Each class of the chain has the next part as a property; all but the last are to-one links to the next class. */
  ghost predicate IsPath(s: Schema, parts: seq<string>, chain: seq<ObjectSchema>, indices: seq<int>) {
    && |parts| == |chain| == |indices| > 0
    && (forall i :: 0 <= i < |parts| ==> parts[i] != "" && IsStep(chain[i], parts[i], indices[i]))
    && (forall i :: 0 <= i < |parts| - 1 ==> IsLink(s, chain[i], parts[i], chain[i + 1]))
    && chain[|parts| - 1].PropertyForName(parts[|parts| - 1]).value.typ.base != Object
  }

  predicate IsStep(o: ObjectSchema, part: string, index: int) {
    var p := o.PropertyForName(part);
    p.Some? && StoresOneValue(p.value.typ) && p.value.tableColumn == index
  }

  predicate IsLink(s: Schema, o: ObjectSchema, part: string, next: ObjectSchema) {
    var p := o.PropertyForName(part);
    p.Some? && p.value.typ.base == Object && !p.value.typ.isArray && ClassNamed(s, p.value.objectType) == Some(next)
  }

  datatype Parsed =
    | Indices(columns: seq<int>)
    | MissingName
    | NoSuchProperty
    | UnsupportedType
    | LinkAtTheEnd
    | NotALink

  /** In a valid schema every link leads to a class. */
  lemma LinkLeadsOn(s: Schema, o: ObjectSchema, part: string)
    requires Valid(s) && o in s && o.PropertyForName(part).Some? && o.PropertyForName(part).value.typ.base == Object
    ensures ClassNamed(s, o.PropertyForName(part).value.objectType).Some?
    ensures HasClass(s, o.PropertyForName(part).value.objectType)
  {
    var p := o.PropertyForName(part).value;
    assert ClassOk(s, o);
    assert PropertyOk(s, o.name, p);
  }

  /** The parts from left to right; a missing name is found before the property in front of it is looked at. */
  function Parse(s: Schema, o: ObjectSchema, parts: seq<string>): Parsed
    requires |parts| > 0 && Valid(s) && o in s
    decreases |parts|
  {
    if parts[0] == "" || (|parts| == 2 && parts[1] == "") then MissingName
    else
      var p := o.PropertyForName(parts[0]);
      if p.None? then NoSuchProperty
      else if !Sortable(p.value.typ) then UnsupportedType
      else if p.value.typ.base == Object then
        if |parts| == 1 then LinkAtTheEnd
        else
          LinkLeadsOn(s, o, parts[0]);
          var rest := Parse(s, ClassNamed(s, p.value.objectType).value, parts[1..]);
          if rest.Indices? then Indices([p.value.tableColumn] + rest.columns) else rest
      else if |parts| > 1 then NotALink
      else Indices([p.value.tableColumn])
  }

  lemma FirstStep(s: Schema, o: ObjectSchema, parts: seq<string>)
    requires |parts| > 0 && Valid(s) && o in s && Parse(s, o, parts).Indices?
    ensures o.PropertyForName(parts[0]).Some? && parts[0] != ""
    ensures Parse(s, o, parts).columns != [] && IsStep(o, parts[0], Parse(s, o, parts).columns[0])
    ensures var p := o.PropertyForName(parts[0]).value;
            if |parts| == 1 then Parse(s, o, parts) == Indices([p.tableColumn]) && p.typ.base != Object
            else && ClassNamed(s, p.objectType).Some? && ClassNamed(s, p.objectType).value in s
                 && var next := ClassNamed(s, p.objectType).value;
                    && IsLink(s, o, parts[0], next) && Parse(s, next, parts[1..]).Indices?
                    && Parse(s, o, parts) == Indices([p.tableColumn] + Parse(s, next, parts[1..]).columns)
  {
    if |parts| > 1 {
      LinkLeadsOn(s, o, parts[0]);
    }
    hide Valid, ObjectSchema.PropertyForName;
  }

  /** What is accepted is a path, and its columns are those of the path, in order. */
  lemma {:induction false} AcceptedIsPath(s: Schema, o: ObjectSchema, parts: seq<string>) returns (chain: seq<ObjectSchema>)
    requires |parts| > 0 && Valid(s) && o in s && Parse(s, o, parts).Indices?
    ensures IsPath(s, parts, chain, Parse(s, o, parts).columns) && chain[0] == o
    decreases |parts|
  {
    hide Parse, ObjectSchema.PropertyForName, Valid, IsStep, IsLink;
    FirstStep(s, o, parts);
    var p := o.PropertyForName(parts[0]).value;
    if |parts| == 1 {
      chain := [o];
    } else {
      var next := ClassNamed(s, p.objectType).value;
      var rest := AcceptedIsPath(s, next, parts[1..]);
      chain := [o] + rest;
      var columns := Parse(s, next, parts[1..]).columns;
      forall i | 0 <= i < |parts|
        ensures parts[i] != "" && IsStep(chain[i], parts[i], ([p.tableColumn] + columns)[i])
      {
        if i > 0 {
          assert parts[i] == parts[1..][i - 1] && chain[i] == rest[i - 1];
        }
      }
      forall i | 0 <= i < |parts| - 1
        ensures IsLink(s, chain[i], parts[i], chain[i + 1])
      {
        if i > 0 {
          assert parts[i] == parts[1..][i - 1] && chain[i] == rest[i - 1] && chain[i + 1] == rest[i];
        }
      }
      assert parts[|parts| - 1] == parts[1..][|parts| - 2];
    }
  }

  /** Every path is accepted. */
  lemma {:induction false} PathIsAccepted(s: Schema, parts: seq<string>, chain: seq<ObjectSchema>, indices: seq<int>)
    requires Valid(s) && IsPath(s, parts, chain, indices) && chain[0] in s
    ensures Parse(s, chain[0], parts) == Indices(indices)
    decreases |parts|
  {
    assert IsStep(chain[0], parts[0], indices[0]);
    if |parts| > 1 {
      assert IsLink(s, chain[0], parts[0], chain[1]);
      assert parts[1] != "";
      PathIsAccepted(s, parts[1..], chain[1..], indices[1..]);
      assert [indices[0]] + indices[1..] == indices;
    } else {
      assert indices == [indices[0]];
    }
  }

  /** The first k parts are to-one links, which lead from one class to the other. */
  ghost predicate LeadsTo(s: Schema, o: ObjectSchema, parts: seq<string>, k: nat, c: ObjectSchema)
    requires k <= |parts|
    decreases k
  {
    if k == 0 then o == c
    else exists next :: parts[0] != "" && IsLink(s, o, parts[0], next) && LeadsTo(s, next, parts[1..], k - 1, c)
  }

  /** Why the class that is reached does not let the path go on with its k-th part. */
  predicate Explains(r: Parsed, c: ObjectSchema, parts: seq<string>, k: nat)
    requires k < |parts|
  {
    var p := c.PropertyForName(parts[k]);
    match r
    case Indices(_) => false
    case MissingName => parts[k] == "" || (k + 2 == |parts| && parts[k + 1] == "")
    case NoSuchProperty => p.None?
    case UnsupportedType => p.Some? && !StoresOneValue(p.value.typ)
    case LinkAtTheEnd => p.Some? && p.value.typ.base == Object && k + 1 == |parts|
    case NotALink => p.Some? && p.value.typ.base != Object && k + 1 < |parts|
  }

  /** The first part is a link, and the rest decides. */
  predicate Follows(o: ObjectSchema, parts: seq<string>)
    requires |parts| > 0
  {
    var p := o.PropertyForName(parts[0]);
    && |parts| > 1 && parts[0] != "" && !(|parts| == 2 && parts[1] == "")
    && p.Some? && Sortable(p.value.typ) && p.value.typ.base == Object
  }

  lemma RefusedHere(s: Schema, o: ObjectSchema, parts: seq<string>)
    requires |parts| > 0 && Valid(s) && o in s && !Parse(s, o, parts).Indices? && !Follows(o, parts)
    ensures Explains(Parse(s, o, parts), o, parts, 0)
  {
    hide ObjectSchema.PropertyForName;
  }

  lemma RefusedLater(s: Schema, o: ObjectSchema, parts: seq<string>)
    requires |parts| > 0 && Valid(s) && o in s && !Parse(s, o, parts).Indices? && Follows(o, parts)
    ensures ClassNamed(s, o.PropertyForName(parts[0]).value.objectType).Some?
    ensures var next := ClassNamed(s, o.PropertyForName(parts[0]).value.objectType).value;
            next in s && Parse(s, o, parts) == Parse(s, next, parts[1..]) && IsLink(s, o, parts[0], next)
  {
    LinkLeadsOn(s, o, parts[0]);
    hide Valid;
  }

  /** What is refused has a part, reached by links from class to class, at which the reason that is given holds. */
  lemma {:induction false} RefusalIsExplained(s: Schema, o: ObjectSchema, parts: seq<string>) returns (k: nat, c: ObjectSchema)
    requires |parts| > 0 && Valid(s) && o in s && !Parse(s, o, parts).Indices?
    ensures k < |parts| && LeadsTo(s, o, parts, k, c) && Explains(Parse(s, o, parts), c, parts, k)
    decreases |parts|
  {
    hide Valid, Parse, IsLink, ObjectSchema.PropertyForName;
    if Follows(o, parts) {
      RefusedLater(s, o, parts);
      var next := ClassNamed(s, o.PropertyForName(parts[0]).value.objectType).value;
      k, c := RefusalIsExplained(s, next, parts[1..]);
      k := k + 1;
    } else {
      RefusedHere(s, o, parts);
      k, c := 0, o;
    }
  }

  // ----- the parser -----

  lemma SplitFrom(s: string, begin: nat, sep: nat)
    requires begin <= sep <= |s| && sep == begin + FirstDot(s[begin..])
    ensures Split(s[begin..]) == if sep == |s| then [s[begin..sep]] else [s[begin..sep]] + Split(s[sep + 1..])
  {
    if sep < |s| {
      assert s[begin..][..sep - begin] == s[begin..sep];
      assert s[begin..][sep - begin + 1..] == s[sep + 1..];
    } else {
      assert s[begin..sep] == s[begin..];
    }
  }

  lemma SplitIsEmpty(s: string)
    ensures Split(s) == [""] <==> s == ""
    ensures Split(s)[0] == "" <==> s == "" || s[0] == '.'
  {
  }

  method FindDot(s: string, begin: nat) returns (sep: nat)
    requires begin <= |s|
    ensures begin <= sep <= |s| && sep == begin + FirstDot(s[begin..])
  {
    sep := begin;
    while sep < |s| && s[sep] != '.'
      invariant begin <= sep <= |s| && forall k :: begin <= k < sep ==> s[k] != '.'
    {
      sep := sep + 1;
    }
    if sep < |s| {
      FirstDotIs(s[begin..], sep - begin);
    } else {
      assert forall k :: 0 <= k < |s[begin..]| ==> s[begin..][k] != '.';
    }
  }

  /** What is wrong with one part of the path, if anything. */
  method CheckPart(o: ObjectSchema, key: string, last: bool) returns (error: Option<Parsed>)
    ensures error == PartError(o, key, last)
  {
    var p := o.PropertyForName(key);
    if p.None? {
      return Some(NoSuchProperty);
    }
    if !Sortable(p.value.typ) {
      return Some(UnsupportedType);
    }
    if p.value.typ.base == Object {
      if last {
        return Some(LinkAtTheEnd);
      }
    } else if !last {
      return Some(NotALink);
    }
    error := None;
  }

  function PartError(o: ObjectSchema, key: string, last: bool): Option<Parsed> {
    var p := o.PropertyForName(key);
    if p.None? then Some(NoSuchProperty)
    else if !Sortable(p.value.typ) then Some(UnsupportedType)
    else if p.value.typ.base == Object then (if last then Some(LinkAtTheEnd) else None)
    else if last then None
    else Some(NotALink)
  }

  lemma ParseStep(s: Schema, o: ObjectSchema, parts: seq<string>)
    requires |parts| > 0 && Valid(s) && o in s && parts[0] != "" && !(|parts| == 2 && parts[1] == "")
    ensures var error, p := PartError(o, parts[0], |parts| == 1), o.PropertyForName(parts[0]);
            if error.Some? then Parse(s, o, parts) == error.value && !error.value.Indices?
            else && p.Some?
                 && if |parts| == 1 then Parse(s, o, parts) == Indices([p.value.tableColumn]) && p.value.typ.base != Object
                    else && p.value.typ.base == Object && ClassNamed(s, p.value.objectType).Some? && HasClass(s, p.value.objectType)
                         && Parse(s, o, parts) == After([p.value.tableColumn], Parse(s, ClassNamed(s, p.value.objectType).value, parts[1..]))
  {
    if |parts| > 1 && PartError(o, parts[0], false).None? {
      LinkLeadsOn(s, o, parts[0]);
    }
  }

  lemma AfterAfter(a: seq<int>, b: seq<int>, rest: Parsed)
    ensures After(a, After(b, rest)) == After(a + b, rest)
  {
    if rest.Indices? {
      assert a + (b + rest.columns) == a + b + rest.columns;
    }
  }

  /** Splitting goes on behind the separator; a path that ends in a separator has an empty last part. */
  lemma PartsAt(s: string, begin: nat, sep: nat)
    requires begin < |s| && begin <= sep <= |s| && sep == begin + FirstDot(s[begin..])
    ensures var parts := Split(s[begin..]);
            && parts[0] == s[begin..sep] && (|parts| == 1 <==> sep == |s|)
            && (sep < |s| ==> parts[1..] == Split(s[sep + 1..]))
            && (parts[0] == "" <==> sep == begin)
            && (|parts| == 2 && parts[1] == "" <==> sep + 1 == |s|)
  {
    SplitFrom(s, begin, sep);
    if sep < |s| {
      SplitIsEmpty(s[sep + 1..]);
      var parts := Split(s[begin..]);
      assert parts[1..] == Split(s[sep + 1..]);
      assert |parts| == 2 && parts[1] == "" <==> Split(s[sep + 1..]) == [""];
    }
  }

  method ParseKeyPath(keyPath: string, s: Schema, start: ObjectSchema) returns (r: Parsed)
    requires Valid(s) && start in s
    ensures r == Parse(s, start, Split(keyPath))
  {
    var begin, end := 0, |keyPath|;
    assert keyPath[0..] == keyPath;
    SplitIsEmpty(keyPath);
    if begin == end {
      return MissingName;
    }
    ghost var all := Split(keyPath);
    var indices, o := [], start;
    NothingBefore(Parse(s, start, all));
    while begin != end
      invariant begin <= end == |keyPath| && o in s
      invariant begin < end ==> Parse(s, start, all) == After(indices, Parse(s, o, Split(keyPath[begin..])))
      invariant begin == end ==> Parse(s, start, all) == Indices(indices)
      decreases end - begin
    {
      hide Parse, Split, Valid, PartError, Less, ClassNamed;
      var sep := FindDot(keyPath, begin);
      PartsAt(keyPath, begin, sep);
      ghost var parts := Split(keyPath[begin..]);
      if sep == begin || sep + 1 == end {
        MissingPart(s, o, parts);
        return MissingName;
      }
      ParseStep(s, o, parts);
      var key := keyPath[begin..sep];
      begin := if sep != end then sep + 1 else sep;
      var error := CheckPart(o, key, begin == end);
      if error.Some? {
        return error.value;
      }
      var p := o.PropertyForName(key).value;
      if p.typ.base == Object {
        var k := Find(s, p.objectType);
        ClassIsNamed(s, k);
        o := s[k];
        AfterAfter(indices, [p.tableColumn], Parse(s, o, parts[1..]));
      }
      indices := indices + [p.tableColumn];
    }
    r := Indices(indices);
  }

  lemma MissingPart(s: Schema, o: ObjectSchema, parts: seq<string>)
    requires |parts| > 0 && Valid(s) && o in s && (parts[0] == "" || (|parts| == 2 && parts[1] == ""))
    ensures Parse(s, o, parts) == MissingName
  {
  }

  lemma NothingBefore(rest: Parsed)
    ensures After([], rest) == rest
  {
    if rest.Indices? {
      assert [] + rest.columns == rest.columns;
    }
  }

  /** What has been collected, followed by what the rest gives. */
  function After(indices: seq<int>, rest: Parsed): Parsed {
    if rest.Indices? then Indices(indices + rest.columns) else rest
  }
}
