/** The schema-guided redaction of validation error locations. */
module Redaction {
  import opened Common

  /** One element of an error location. */
  datatype Segment = Index(index: int) | Name(text: string)

  const PLACEHOLDER := Name("<unknown field>")

  /** A type annotation; a model class is named by its number, so models may be recursive. */
  datatype Annotation =
    | Annotated(inner: Annotation)
    | Union(variants: seq<Annotation>)
    | Sequence(args: seq<Annotation>)
    | Dict(args: seq<Annotation>)
    | Model(id: nat)
    | AnyType
    | Other

  /** A model field; an alias that is not a plain string is absent here, for it equals no segment. */
  datatype Field = Field(name: string, alias: Option<string>, validationAlias: Option<string>,
                         annotation: Option<Annotation>)

  /** The fields of each model class, in declaration order. */
  type Schema = map<nat, seq<Field>>

  datatype Source = Body | Path | Query | Header | Cookie

  datatype Parameter = Parameter(alias: string, annotation: Option<Annotation>)

  datatype Dependant = Dependant(path: seq<Parameter>, query: seq<Parameter>, header: seq<Parameter>,
                                 cookie: seq<Parameter>, dependencies: seq<Dependant>)

  datatype Route = Route(body: Option<Annotation>, dependant: Dependant)

  function FieldsOf(schema: Schema, id: nat): seq<Field> {
    if id in schema then schema[id] else []
  }

  predicate Named(field: Field, s: Segment) {
    s == Name(field.name)
    || (field.alias.Some? && s == Name(field.alias.value))
    || (field.validationAlias.Some? && s == Name(field.validationAlias.value))
  }

  function FirstNamed(fields: seq<Field>, s: Segment): Option<Field> {
    if fields == [] then None
    else if Named(fields[0], s) then Some(fields[0])
    else FirstNamed(fields[1..], s)
  }

  /** `args[k]`, or `Any` when there are not that many. */
  function Argument(args: seq<Annotation>, k: nat): Annotation {
    if k < |args| then args[k] else AnyType
  }

  // ----- One segment

  datatype Safe = Safe(segment: Segment, next: Option<Annotation>)

  const UNKNOWN := Safe(PLACEHOLDER, None)

  /** `_safe_validation_segment`. */
  function SafeSegment(schema: Schema, annotation: Annotation, s: Segment): Safe
    decreases annotation
  {
    match annotation
    case Annotated(inner) => SafeSegment(schema, inner, s)
    case Union(variants) => SafeVariant(schema, variants, s)
    case Sequence(args) => if s.Index? && s.index >= 0 then Safe(s, Some(Argument(args, 0))) else UNKNOWN
    case Dict(args) => Safe(PLACEHOLDER, Some(Argument(args, 1)))
    case Model(id) =>
      (match FirstNamed(FieldsOf(schema, id), s)
       case Some(field) => Safe(s, field.annotation)
       case None => UNKNOWN)
    case _ => UNKNOWN
  }

  /** The loop over the variants of a union. */
  function SafeVariant(schema: Schema, variants: seq<Annotation>, s: Segment): Safe
    decreases variants
  {
    if variants == [] then UNKNOWN else
    var safe := SafeSegment(schema, variants[0], s);
    if safe.segment == s || safe.next.Some? then safe else SafeVariant(schema, variants[1..], s)
  }

  /** The annotation may be missing. */
  function SafeStep(schema: Schema, annotation: Option<Annotation>, s: Segment): Safe {
    match annotation
    case Some(a) => SafeSegment(schema, a, s)
    case None => UNKNOWN
  }

  // ----- What one segment means

  /** The alternatives of an annotation, through `Annotated` and nested unions, in order. */
  function Leaves(annotation: Annotation): seq<Annotation>
    decreases annotation
  {
    match annotation
    case Annotated(inner) => Leaves(inner)
    case Union(variants) => AllLeaves(variants)
    case _ => [annotation]
  }

  function AllLeaves(variants: seq<Annotation>): seq<Annotation>
    decreases variants
  {
    if variants == [] then [] else Leaves(variants[0]) + AllLeaves(variants[1..])
  }

  /** A non-negative index into a list or tuple, or a field of a model, and where it leads. */
  ghost predicate Declares(schema: Schema, leaf: Annotation, s: Segment, next: Option<Annotation>) {
    match leaf
    case Sequence(args) => s.Index? && s.index >= 0 && next == Some(Argument(args, 0))
    case Model(id) => exists f | f in FieldsOf(schema, id) :: Named(f, s) && f.annotation == next
    case _ => false
  }

  /** A leaf settles the segment if it declares it, or is a dictionary, which hides its keys. */
  predicate Settles(schema: Schema, leaf: Annotation, s: Segment) {
    match leaf
    case Sequence(_) => s.Index? && s.index >= 0
    case Dict(_) => true
    case Model(id) => exists f | f in FieldsOf(schema, id) :: Named(f, s)
    case _ => false
  }

  lemma {:induction false} FirstNamedIsField(fields: seq<Field>, s: Segment)
    ensures match FirstNamed(fields, s)
            case Some(f) => f in fields && Named(f, s)
            case None => forall f | f in fields :: !Named(f, s)
  {
    if fields != [] && !Named(fields[0], s) {
      FirstNamedIsField(fields[1..], s);
    }
  }

  predicate IsLeaf(annotation: Annotation) {
    !annotation.Annotated? && !annotation.Union?
  }

  /** On a leaf: a settled segment is shown where declared and hidden in a dictionary. */
  lemma LeafStep(schema: Schema, leaf: Annotation, s: Segment)
    requires IsLeaf(leaf)
    ensures var safe := SafeSegment(schema, leaf, s);
            && (!Settles(schema, leaf, s) ==> safe == UNKNOWN)
            && (Settles(schema, leaf, s) && leaf.Dict? ==>
                  safe == Safe(PLACEHOLDER, Some(Argument(leaf.args, 1))))
            && (Settles(schema, leaf, s) && !leaf.Dict? ==>
                  safe.segment == s && Declares(schema, leaf, s, safe.next))
  {
    if leaf.Model? {
      FirstNamedIsField(FieldsOf(schema, leaf.id), s);
    }
  }

  /** The first leaf that settles the segment, or none of them does. */
  ghost predicate FirstSettling(schema: Schema, leaves: seq<Annotation>, s: Segment, k: nat) {
    && k <= |leaves|
    && (forall i | 0 <= i < k :: !Settles(schema, leaves[i], s))
    && (k < |leaves| ==> Settles(schema, leaves[k], s))
  }

  lemma {:induction false} LeavesAreLeaves(annotation: Annotation)
    ensures forall i | 0 <= i < |Leaves(annotation)| :: IsLeaf(Leaves(annotation)[i])
    decreases annotation
  {
    match annotation
    case Annotated(inner) => LeavesAreLeaves(inner);
    case Union(variants) => AllLeavesAreLeaves(variants);
    case _ =>
  }

  lemma {:induction false} AllLeavesAreLeaves(variants: seq<Annotation>)
    ensures forall i | 0 <= i < |AllLeaves(variants)| :: IsLeaf(AllLeaves(variants)[i])
    decreases variants
  {
    if variants != [] {
      LeavesAreLeaves(variants[0]);
      AllLeavesAreLeaves(variants[1..]);
    }
  }

  /** The result of leaf `k`, or unknown past the end. */
  function Settled(schema: Schema, leaves: seq<Annotation>, s: Segment, k: nat): Safe {
    if k < |leaves| then SafeSegment(schema, leaves[k], s) else UNKNOWN
  }

  /** The alternative reached by always taking the first variant. */
  function Leftmost(annotation: Annotation): Option<Annotation>
    decreases annotation
  {
    match annotation
    case Annotated(inner) => Leftmost(inner)
    case Union(variants) => if variants == [] then None else Leftmost(variants[0])
    case _ => Some(annotation)
  }

  lemma {:induction false} LeftmostIsFirst(annotation: Annotation)
    ensures var leaf := Leftmost(annotation);
            leaf.Some? ==> IsLeaf(leaf.value) && Leaves(annotation) != [] && Leaves(annotation)[0] == leaf.value
    decreases annotation
  {
    match annotation
    case Annotated(inner) => LeftmostIsFirst(inner);
    case Union(variants) => if variants != [] { LeftmostIsFirst(variants[0]); }
    case _ =>
  }

  /**
    The alternatives that get a say. A segment that is literally the placeholder agrees with
    any answer, so a union stops at its first variant.
   */
  function Consulted(annotation: Annotation, s: Segment): seq<Annotation> {
    if s != PLACEHOLDER then Leaves(annotation)
    else match Leftmost(annotation) case Some(leaf) => [leaf] case None => []
  }

  lemma {:induction false} PlaceholderTakesLeftmost(schema: Schema, annotation: Annotation)
    ensures SafeSegment(schema, annotation, PLACEHOLDER).segment == PLACEHOLDER
    ensures SafeSegment(schema, annotation, PLACEHOLDER)
         == match Leftmost(annotation)
            case Some(leaf) => SafeSegment(schema, leaf, PLACEHOLDER)
            case None => UNKNOWN
    decreases annotation
  {
    if annotation.Annotated? {
      PlaceholderTakesLeftmost(schema, annotation.inner);
    } else if annotation.Union? && annotation.variants != [] {
      PlaceholderTakesLeftmost(schema, annotation.variants[0]);
    }
  }

  lemma LeafDecides(schema: Schema, leaf: Annotation, s: Segment) returns (k: nat)
    requires IsLeaf(leaf)
    ensures FirstSettling(schema, [leaf], s, k)
    ensures SafeSegment(schema, leaf, s) == Settled(schema, [leaf], s, k)
  {
    LeafStep(schema, leaf, s);
    k := if Settles(schema, leaf, s) then 0 else 1;
  }

  /**
    Nested unions and `Annotated` wrappers amount to one linear search: of the alternatives
    consulted, the first that settles the segment decides.
   */
  lemma SegmentIsFirstMatch(schema: Schema, annotation: Annotation, s: Segment) returns (k: nat)
    ensures FirstSettling(schema, Consulted(annotation, s), s, k)
    ensures SafeSegment(schema, annotation, s) == Settled(schema, Consulted(annotation, s), s, k)
  {
    if s != PLACEHOLDER {
      k := NamedIsFirstMatch(schema, annotation, s);
    } else {
      PlaceholderTakesLeftmost(schema, annotation);
      LeftmostIsFirst(annotation);
      if Leftmost(annotation).Some? {
        k := LeafDecides(schema, Leftmost(annotation).value, s);
      } else {
        k := 0;
      }
    }
  }

  lemma {:induction false} NamedIsFirstMatch(schema: Schema, annotation: Annotation, s: Segment) returns (k: nat)
    requires s != PLACEHOLDER
    ensures FirstSettling(schema, Leaves(annotation), s, k)
    ensures SafeSegment(schema, annotation, s) == Settled(schema, Leaves(annotation), s, k)
    decreases annotation
  {
    if annotation.Annotated? {
      k := NamedIsFirstMatch(schema, annotation.inner, s);
    } else if annotation.Union? {
      k := VariantIsFirstMatch(schema, annotation.variants, s);
    } else {
      k := LeafDecides(schema, annotation, s);
    }
  }

  lemma {:induction false} VariantIsFirstMatch(schema: Schema, variants: seq<Annotation>, s: Segment)
    returns (k: nat)
    requires s != PLACEHOLDER
    ensures FirstSettling(schema, AllLeaves(variants), s, k)
    ensures SafeVariant(schema, variants, s) == Settled(schema, AllLeaves(variants), s, k)
    decreases variants
  {
    if variants == [] {
      k := 0;
    } else {
      hide Settles, Leaves;
      var first := Leaves(variants[0]);
      k := NamedIsFirstMatch(schema, variants[0], s);
      if k < |first| {
        LeavesAreLeaves(variants[0]);
        LeafStep(schema, first[k], s);
        assert AllLeaves(variants)[k] == first[k];
      } else {
        var rest := AllLeaves(variants[1..]);
        var j := VariantIsFirstMatch(schema, variants[1..], s);
        k := |first| + j;
        assert AllLeaves(variants) == first + rest;
      }
    }
  }

  lemma ConsultedAreLeaves(annotation: Annotation, s: Segment)
    ensures forall i | 0 <= i < |Consulted(annotation, s)| ::
              IsLeaf(Consulted(annotation, s)[i]) && Consulted(annotation, s)[i] in Leaves(annotation)
  {
    LeavesAreLeaves(annotation);
    LeftmostIsFirst(annotation);
  }

  /**
    Shown exactly when the first consulted leaf that settles the segment is not a dictionary,
    or when the segment is the placeholder anyway.
   */
  lemma ShownIffDeclaredFirst(schema: Schema, annotation: Annotation, s: Segment)
    ensures SafeSegment(schema, annotation, s).segment == s
       <==> s == PLACEHOLDER
            || exists k: nat :: FirstSettling(schema, Consulted(annotation, s), s, k)
                                && k < |Consulted(annotation, s)| && !Consulted(annotation, s)[k].Dict?
  {
    hide FirstSettling, Leaves, Leftmost;
    var leaves := Consulted(annotation, s);
    var k := SegmentIsFirstMatch(schema, annotation, s);
    ConsultedAreLeaves(annotation, s);
    SettlingIsUnique(schema, leaves, s, k);
    if k < |leaves| {
      LeafStep(schema, leaves[k], s);
    }
    if s == PLACEHOLDER {
      PlaceholderTakesLeftmost(schema, annotation);
    }
  }

  lemma SettlingIsUnique(schema: Schema, leaves: seq<Annotation>, s: Segment, k: nat)
    requires FirstSettling(schema, leaves, s, k)
    ensures k < |leaves| ==> Settles(schema, leaves[k], s)
    ensures forall j: nat | FirstSettling(schema, leaves, s, j) :: j == k
  {
  }

  /** One step of a redacted location, as the leaves of the annotation explain it. */
  ghost predicate Explained(schema: Schema, annotation: Option<Annotation>, s: Segment, safe: Safe) {
    || safe == UNKNOWN
    || (annotation.Some? && exists leaf | leaf in Leaves(annotation.value) :: LeafExplains(schema, leaf, s, safe))
  }

  ghost predicate LeafExplains(schema: Schema, leaf: Annotation, s: Segment, safe: Safe) {
    || (safe.segment == s && Declares(schema, leaf, s, safe.next))
    || (leaf.Dict? && safe == Safe(PLACEHOLDER, Some(Argument(leaf.args, 1))))
  }

  lemma {:induction false} SegmentIsExplained(schema: Schema, annotation: Annotation, s: Segment)
    ensures Explained(schema, Some(annotation), s, SafeSegment(schema, annotation, s))
    decreases annotation
  {
    if annotation.Annotated? {
      SegmentIsExplained(schema, annotation.inner, s);
    } else if annotation.Union? {
      VariantIsExplained(schema, annotation.variants, s);
    } else {
      LeafStep(schema, annotation, s);
      assert annotation in Leaves(annotation);
    }
  }

  lemma {:induction false} VariantIsExplained(schema: Schema, variants: seq<Annotation>, s: Segment)
    ensures var safe := SafeVariant(schema, variants, s);
            safe == UNKNOWN || exists leaf | leaf in AllLeaves(variants) :: LeafExplains(schema, leaf, s, safe)
    decreases variants
  {
    if variants != [] {
      SegmentIsExplained(schema, variants[0], s);
      VariantIsExplained(schema, variants[1..], s);
    }
  }

  /** A segment that no leaf declares. */
  predicate Undeclared(schema: Schema, annotation: Option<Annotation>, s: Segment) {
    annotation.Some? ==>
      forall i | 0 <= i < |Leaves(annotation.value)| ::
        Leaves(annotation.value)[i].Dict? || !Settles(schema, Leaves(annotation.value)[i], s)
  }

  /** Some alternative is a dictionary, but not the one the placeholder is looked up in. */
  predicate HidesDictionary(annotation: Option<Annotation>) {
    && annotation.Some?
    && (exists i | 0 <= i < |Leaves(annotation.value)| :: Leaves(annotation.value)[i].Dict?)
    && !(Leftmost(annotation.value).Some? && Leftmost(annotation.value).value.Dict?)
  }

  /** The answer to an undeclared segment: the first dictionary consulted, if any, hides it. */
  lemma UndeclaredAnswer(schema: Schema, annotation: Annotation, s: Segment) returns (k: nat)
    requires Undeclared(schema, Some(annotation), s)
    ensures k <= |Consulted(annotation, s)| && forall i | 0 <= i < k :: !Consulted(annotation, s)[i].Dict?
    ensures k < |Consulted(annotation, s)| ==> Consulted(annotation, s)[k].Dict?
    ensures SafeSegment(schema, annotation, s)
         == if k < |Consulted(annotation, s)| then Safe(PLACEHOLDER, Some(Argument(Consulted(annotation, s)[k].args, 1)))
            else UNKNOWN
  {
    hide Leaves, Leftmost;
    var leaves := Consulted(annotation, s);
    k := SegmentIsFirstMatch(schema, annotation, s);
    ConsultedAreLeaves(annotation, s);
    if k < |leaves| {
      LeafStep(schema, leaves[k], s);
    }
  }

  /**
    What is redacted does not matter: two undeclared segments give the placeholder, and the
    same next annotation, unless one of them is literally the placeholder and a dictionary
    hides behind another first variant.
   */
  lemma UndeclaredIsHidden(schema: Schema, annotation: Option<Annotation>, s: Segment, t: Segment)
    requires Undeclared(schema, annotation, s) && Undeclared(schema, annotation, t)
    ensures SafeStep(schema, annotation, s).segment == PLACEHOLDER
    ensures SafeStep(schema, annotation, s) == SafeStep(schema, annotation, t)
       <==> (s == PLACEHOLDER <==> t == PLACEHOLDER) || !HidesDictionary(annotation)
  {
    if annotation.Some? {
      var a := annotation.value;
      var j := UndeclaredAnswer(schema, a, s);
      var k := UndeclaredAnswer(schema, a, t);
      if s == PLACEHOLDER && t != PLACEHOLDER {
        PlaceholderAnswer(schema, a, t);
      } else if s != PLACEHOLDER && t == PLACEHOLDER {
        PlaceholderAnswer(schema, a, s);
      } else {
        assert j == k;
      }
    }
  }

  lemma PlaceholderAnswer(schema: Schema, annotation: Annotation, s: Segment)
    requires Undeclared(schema, Some(annotation), s) && Undeclared(schema, Some(annotation), PLACEHOLDER)
    requires s != PLACEHOLDER
    ensures SafeSegment(schema, annotation, s) == SafeSegment(schema, annotation, PLACEHOLDER)
       <==> !HidesDictionary(Some(annotation))
  {
    var leaves, leftmost := Leaves(annotation), Leftmost(annotation);
    var n := UndeclaredAnswer(schema, annotation, s);
    var p := UndeclaredAnswer(schema, annotation, PLACEHOLDER);
    LeftmostIsFirst(annotation);
    assert Consulted(annotation, s) == leaves;
    if leftmost.Some? && leftmost.value.Dict? {
      assert n == 0;
      assert Consulted(annotation, PLACEHOLDER)[0].Dict?;
      assert p == 0;
    } else {
      assert SafeSegment(schema, annotation, PLACEHOLDER) == UNKNOWN;
      assert n < |leaves| <==> exists i | 0 <= i < |leaves| :: leaves[i].Dict?;
    }
  }

  /** Such an annotation: a plain variant before a dictionary. */
  lemma PlaceholderKeyEndsUnion(schema: Schema, s: string)
    requires Name(s) != PLACEHOLDER
    ensures var annotation := Union([Other, Dict([Other, AnyType])]);
            && HidesDictionary(Some(annotation))
            && SafeSegment(schema, annotation, Name(s)) == Safe(PLACEHOLDER, Some(AnyType))
            && SafeSegment(schema, annotation, PLACEHOLDER) == UNKNOWN
  {
    var d := Dict([Other, AnyType]);
    assert [Other, d][1..] == [d] && [d][1..] == [];
    assert AllLeaves([d]) == [d] + [];
    assert AllLeaves([Other, d]) == [Other] + [d];
    assert Leaves(Union([Other, d]))[1].Dict?;
  }

  // ----- Parameters

  function ParametersOf(dependant: Dependant, source: Source): seq<Parameter> {
    match source
    case Body => []
    case Path => dependant.path
    case Query => dependant.query
    case Header => dependant.header
    case Cookie => dependant.cookie
  }

  function FirstParameter(parameters: seq<Parameter>, name: string): Option<Parameter> {
    if parameters == [] then None
    else if parameters[0].alias == name then Some(parameters[0])
    else FirstParameter(parameters[1..], name)
  }

  /** `_validation_parameter_annotation`. */
  function ParameterAnnotation(dependant: Dependant, source: Source, name: string): Option<Annotation>
    decreases dependant
  {
    match FirstParameter(ParametersOf(dependant, source), name)
    case Some(parameter) => parameter.annotation
    case None => DependencyAnnotation(dependant.dependencies, source, name)
  }

  function DependencyAnnotation(dependencies: seq<Dependant>, source: Source, name: string): Option<Annotation>
    decreases dependencies
  {
    if dependencies == [] then None else
    match ParameterAnnotation(dependencies[0], source, name)
    case Some(a) => Some(a)
    case None => DependencyAnnotation(dependencies[1..], source, name)
  }

  /** Some dependant in the tree has a parameter with this alias and annotation. */
  predicate HasParameter(dependant: Dependant, source: Source, name: string, annotation: Option<Annotation>)
    decreases dependant
  {
    || Parameter(name, annotation) in ParametersOf(dependant, source)
    || exists i | 0 <= i < |dependant.dependencies| ::
         HasParameter(dependant.dependencies[i], source, name, annotation)
  }

  lemma {:induction false} FirstParameterIsParameter(parameters: seq<Parameter>, name: string)
    ensures match FirstParameter(parameters, name)
            case Some(p) => p in parameters && p.alias == name
            case None => forall p | p in parameters :: p.alias != name
  {
    if parameters != [] && parameters[0].alias != name {
      FirstParameterIsParameter(parameters[1..], name);
    }
  }

  /** An annotation that is found belongs to a declared parameter of that name. */
  lemma {:induction false} FoundIsDeclared(dependant: Dependant, source: Source, name: string)
    ensures ParameterAnnotation(dependant, source, name).Some? ==>
              HasParameter(dependant, source, name, ParameterAnnotation(dependant, source, name))
    decreases dependant
  {
    FirstParameterIsParameter(ParametersOf(dependant, source), name);
    FoundInDependency(dependant.dependencies, source, name);
  }

  lemma {:induction false} FoundInDependency(dependencies: seq<Dependant>, source: Source, name: string)
    ensures var found := DependencyAnnotation(dependencies, source, name);
            found.Some? ==>
              exists i | 0 <= i < |dependencies| :: HasParameter(dependencies[i], source, name, found)
    decreases dependencies
  {
    if dependencies != [] {
      FoundIsDeclared(dependencies[0], source, name);
      FoundInDependency(dependencies[1..], source, name);
      var found := DependencyAnnotation(dependencies, source, name);
      if found.Some? && ParameterAnnotation(dependencies[0], source, name).None? {
        var i :| 0 <= i < |dependencies[1..]| && HasParameter(dependencies[1..][i], source, name, found);
        assert HasParameter(dependencies[i + 1], source, name, found);
      }
    }
  }

  /** Every parameter of the tree carries an annotation. */
  predicate AllAnnotated(dependant: Dependant, source: Source)
    decreases dependant
  {
    && (forall p | p in ParametersOf(dependant, source) :: p.annotation.Some?)
    && forall i | 0 <= i < |dependant.dependencies| :: AllAnnotated(dependant.dependencies[i], source)
  }

  /** With annotations everywhere, no declared parameter is missed, however deep. */
  lemma {:induction false} DeclaredIsFound(dependant: Dependant, source: Source, name: string,
                                           annotation: Option<Annotation>)
    requires AllAnnotated(dependant, source) && HasParameter(dependant, source, name, annotation)
    ensures ParameterAnnotation(dependant, source, name).Some?
    decreases dependant
  {
    FirstParameterIsParameter(ParametersOf(dependant, source), name);
    if FirstParameter(ParametersOf(dependant, source), name).None? {
      assert Parameter(name, annotation) !in ParametersOf(dependant, source);
      var i :| 0 <= i < |dependant.dependencies|
               && HasParameter(dependant.dependencies[i], source, name, annotation);
      DeclaredIsFound(dependant.dependencies[i], source, name, annotation);
      DependencyIsFound(dependant.dependencies, source, name, i);
    }
  }

  lemma {:induction false} DependencyIsFound(dependencies: seq<Dependant>, source: Source, name: string, i: nat)
    requires i < |dependencies| && ParameterAnnotation(dependencies[i], source, name).Some?
    ensures DependencyAnnotation(dependencies, source, name).Some?
  {
    if i != 0 && ParameterAnnotation(dependencies[0], source, name).None? {
      assert dependencies[1..][i - 1] == dependencies[i];
      DependencyIsFound(dependencies[1..], source, name, i - 1);
    }
  }

  // ----- Locations

  function SourceOf(s: Segment): Option<Source> {
    if s == Name("body") then Some(Body)
    else if s == Name("path") then Some(Path)
    else if s == Name("query") then Some(Query)
    else if s == Name("header") then Some(Header)
    else if s == Name("cookie") then Some(Cookie)
    else None
  }

  /** The annotation the walk starts from. */
  function Start(route: Route, source: Source): Option<Annotation> {
    if source == Body then route.body else None
  }

  /** The name of a declared parameter, which the first segment after the source may be. */
  function ParameterStep(route: Route, source: Source, s: Segment): Option<Annotation> {
    if source != Body && s.Name? then ParameterAnnotation(route.dependant, source, s.text) else None
  }

  /** The step for the segment at position `k` after the source. */
  function Step(schema: Schema, route: Route, source: Source, k: nat, annotation: Option<Annotation>,
                s: Segment): Safe
  {
    if k == 0 && ParameterStep(route, source, s).Some? then Safe(s, ParameterStep(route, source, s))
    else SafeStep(schema, annotation, s)
  }

  /** The annotation reached after `segments`. */
  function Reached(schema: Schema, route: Route, source: Source, segments: seq<Segment>): Option<Annotation> {
    if segments == [] then Start(route, source) else
    var k := |segments| - 1;
    Step(schema, route, source, k, Reached(schema, route, source, segments[..k]), segments[k]).next
  }

  /** The redacted form of `segments`. */
  function Redacted(schema: Schema, route: Route, source: Source, segments: seq<Segment>): (r: seq<Segment>)
    ensures |r| == |segments|
  {
    if segments == [] then [] else
    var k := |segments| - 1;
    Redacted(schema, route, source, segments[..k])
    + [Step(schema, route, source, k, Reached(schema, route, source, segments[..k]), segments[k]).segment]
  }

  /** A segment is allowed out: as a declared parameter, as its annotation explains, or redacted. */
  ghost predicate Allowed(schema: Schema, route: Route, source: Source, k: nat, annotation: Option<Annotation>,
                          s: Segment, safe: Safe)
  {
    || (k == 0 && source != Body && s.Name? && safe.segment == s && safe.next.Some?
        && HasParameter(route.dependant, source, s.text, safe.next))
    || Explained(schema, annotation, s, safe)
  }

  /**
    `types` follows the schema from the start of the walk, and each step of the output is
    explained by the annotation reached there.
   */
  ghost predicate Justified(schema: Schema, route: Route, source: Source, segments: seq<Segment>,
                            safe: seq<Segment>, types: seq<Option<Annotation>>)
  {
    && |safe| == |segments| && |types| == |segments| + 1
    && types[0] == Start(route, source)
    && forall k | 0 <= k < |segments| ::
         Allowed(schema, route, source, k, types[k], segments[k], Safe(safe[k], types[k + 1]))
  }

  lemma StepIsAllowed(schema: Schema, route: Route, source: Source, k: nat, annotation: Option<Annotation>,
                      s: Segment)
    ensures Allowed(schema, route, source, k, annotation, s, Step(schema, route, source, k, annotation, s))
  {
    if k == 0 && ParameterStep(route, source, s).Some? {
      FoundIsDeclared(route.dependant, source, s.text);
    } else if annotation.Some? {
      SegmentIsExplained(schema, annotation.value, s);
    }
  }

  lemma {:induction false} StepOfRedacted(schema: Schema, route: Route, source: Source, segments: seq<Segment>,
                                          k: nat)
    requires k < |segments|
    ensures Safe(Redacted(schema, route, source, segments)[k],
                 Reached(schema, route, source, segments[..k + 1]))
         == Step(schema, route, source, k, Reached(schema, route, source, segments[..k]), segments[k])
  {
    if k == |segments| - 1 {
      assert segments[..k + 1] == segments;
    } else {
      var front := segments[..|segments| - 1];
      StepOfRedacted(schema, route, source, front, k);
      assert front[..k] == segments[..k] && front[..k + 1] == segments[..k + 1];
    }
  }

  /** Everything a redacted location shows was declared by the schema along its own path. */
  lemma RedactedIsJustified(schema: Schema, route: Route, source: Source, segments: seq<Segment>)
    ensures exists types ::
              Justified(schema, route, source, segments, Redacted(schema, route, source, segments), types)
  {
    var safe := Redacted(schema, route, source, segments);
    var types := seq(|segments| + 1, k requires 0 <= k <= |segments| =>
                       Reached(schema, route, source, segments[..k]));
    forall k | 0 <= k < |segments|
      ensures Allowed(schema, route, source, k, types[k], segments[k], Safe(safe[k], types[k + 1]))
    {
      StepOfRedacted(schema, route, source, segments, k);
      StepIsAllowed(schema, route, source, k, types[k], segments[k]);
    }
    assert Justified(schema, route, source, segments, safe, types);
  }

  /** After `before`, the schema knows nothing of `s`. */
  predicate Hidden(schema: Schema, route: Route, source: Source, before: seq<Segment>, s: Segment) {
    && Undeclared(schema, Reached(schema, route, source, before), s)
    && (before == [] ==> ParameterStep(route, source, s).None?)
  }

  /**
    Replacing one hidden segment by another changes nothing in the output, here or later;
    the placeholder is as good as any, except where it would miss a dictionary.
   */
  lemma {:induction false} HiddenSegmentLeavesNoTrace(schema: Schema, route: Route, source: Source,
                                                      before: seq<Segment>, s: Segment, t: Segment,
                                                      after: seq<Segment>)
    requires Hidden(schema, route, source, before, s) && Hidden(schema, route, source, before, t)
    requires (s == PLACEHOLDER <==> t == PLACEHOLDER) || !HidesDictionary(Reached(schema, route, source, before))
    ensures Redacted(schema, route, source, before + [s] + after)
         == Redacted(schema, route, source, before + [t] + after)
    ensures Reached(schema, route, source, before + [s] + after)
         == Reached(schema, route, source, before + [t] + after)
    decreases |after|
  {
    var a, b := before + [s] + after, before + [t] + after;
    if after == [] {
      assert a == before + [s] && b == before + [t];
      assert a[..|a| - 1] == before && b[..|b| - 1] == before;
      UndeclaredIsHidden(schema, Reached(schema, route, source, before), s, t);
    } else {
      var front := after[..|after| - 1];
      HiddenSegmentLeavesNoTrace(schema, route, source, before, s, t, front);
      assert a[..|a| - 1] == before + [s] + front && b[..|b| - 1] == before + [t] + front;
    }
  }

  lemma RedactedGrows(schema: Schema, route: Route, source: Source, segments: seq<Segment>, k: nat)
    requires k <= |segments|
    ensures Redacted(schema, route, source, segments[..0]) == []
    ensures Reached(schema, route, source, segments[..0]) == Start(route, source)
    ensures k < |segments| ==>
              var step := Step(schema, route, source, k, Reached(schema, route, source, segments[..k]), segments[k]);
              && Redacted(schema, route, source, segments[..k + 1])
                 == Redacted(schema, route, source, segments[..k]) + [step.segment]
              && Reached(schema, route, source, segments[..k + 1]) == step.next
  {
    assert k < |segments| ==> segments[..k + 1][..k] == segments[..k];
  }

  /** The source of a location, if it has a known one. */
  function Located(location: Option<seq<Segment>>): Option<Source> {
    if location.Some? && location.value != [] then SourceOf(location.value[0]) else None
  }

  /** The list declares the name, with an annotation wherever it does. */
  predicate Lists(parameters: seq<Parameter>, name: string) {
    && (exists p | p in parameters :: p.alias == name)
    && forall p | p in parameters && p.alias == name :: p.annotation.Some?
  }

  lemma ListedIsShown(schema: Schema, route: Route, source: Source, name: string)
    requires source != Body && Lists(ParametersOf(route.dependant, source), name)
    ensures Redacted(schema, route, source, [Name(name)]) == [Name(name)]
  {
    FirstParameterIsParameter(ParametersOf(route.dependant, source), name);
    assert [Name(name)][..0] == [];
    assert Redacted(schema, route, source, []) == [];
  }

  /** What the containers lead to: the first argument of a list, the second of a dictionary, anything if missing. */
  lemma ContainersLead(schema: Schema, k: Annotation, v: Annotation, rest: seq<Annotation>, i: nat, s: Segment)
    ensures SafeSegment(schema, Sequence([v] + rest), Index(i)) == Safe(Index(i), Some(v))
    ensures SafeSegment(schema, Sequence([]), Index(i)) == Safe(Index(i), Some(AnyType))
    ensures SafeSegment(schema, Sequence([v] + rest), Index(-1 - i)) == UNKNOWN
    ensures SafeSegment(schema, Dict([k, v] + rest), s) == Safe(PLACEHOLDER, Some(v))
    ensures SafeSegment(schema, Dict([]), s) == Safe(PLACEHOLDER, Some(AnyType))
    ensures SafeSegment(schema, Dict([k]), s) == Safe(PLACEHOLDER, Some(AnyType))
  {
  }

  /** The three names of a field. */
  predicate GoesBy(field: Field, name: string) {
    field.name == name || field.alias == Some(name) || field.validationAlias == Some(name)
  }

  /** The first field that goes by the name is shown and followed. */
  lemma {:induction false} FieldIsShown(schema: Schema, id: nat, i: nat, name: string)
    requires id in schema && i < |schema[id]| && GoesBy(schema[id][i], name)
    requires forall j | 0 <= j < i :: !GoesBy(schema[id][j], name)
    ensures SafeSegment(schema, Model(id), Name(name)) == Safe(Name(name), schema[id][i].annotation)
  {
    FirstIsFound(schema[id], i, name);
  }

  lemma {:induction false} FirstIsFound(fields: seq<Field>, i: nat, name: string)
    requires i < |fields| && GoesBy(fields[i], name) && forall j | 0 <= j < i :: !GoesBy(fields[j], name)
    ensures FirstNamed(fields, Name(name)) == Some(fields[i])
  {
    if i > 0 {
      assert !GoesBy(fields[0], name);
      FirstIsFound(fields[1..], i - 1, name);
    }
  }

  /** The walk of a body starts at its annotation; that of an unknown parameter shows nothing at all. */
  lemma {:induction false} WalksStart(schema: Schema, route: Route, source: Source, s: Segment, rest: seq<Segment>)
    ensures Redacted(schema, route, Body, [s]) == [SafeStep(schema, route.body, s).segment]
    ensures source != Body && (s.Name? ==> ParameterAnnotation(route.dependant, source, s.text).None?) ==>
              Reached(schema, route, source, [s] + rest) == None
              && forall t | t in Redacted(schema, route, source, [s] + rest) :: t == PLACEHOLDER
    decreases |rest|
  {
    var all := [s] + rest;
    var n := |all| - 1;
    assert [s][..0] == [];
    assert Redacted(schema, route, Body, []) == [];
    if rest == [] {
      assert all == [s];
      assert Redacted(schema, route, source, []) == [];
    } else {
      WalksStart(schema, route, source, s, rest[..|rest| - 1]);
      assert all[..n] == [s] + rest[..|rest| - 1];
    }
  }

  /** A declared parameter of the route is shown under its own source. */
  lemma ParametersAreShown(schema: Schema, route: Route, name: string)
    ensures Located(Some([Name("path"), Name(name)])) == Some(Path)
    ensures Located(Some([Name("query"), Name(name)])) == Some(Query)
    ensures Located(Some([Name("header"), Name(name)])) == Some(Header)
    ensures Located(Some([Name("cookie"), Name(name)])) == Some(Cookie)
    ensures Located(Some([Name("body"), Name(name)])) == Some(Body)
    ensures Lists(route.dependant.path, name) ==> Redacted(schema, route, Path, [Name(name)]) == [Name(name)]
    ensures Lists(route.dependant.query, name) ==> Redacted(schema, route, Query, [Name(name)]) == [Name(name)]
    ensures Lists(route.dependant.header, name) ==> Redacted(schema, route, Header, [Name(name)]) == [Name(name)]
    ensures Lists(route.dependant.cookie, name) ==> Redacted(schema, route, Cookie, [Name(name)]) == [Name(name)]
  {
    hide Redacted, Lists;
    var d := route.dependant;
    if Lists(d.path, name) { ListedIsShown(schema, route, Path, name); }
    if Lists(d.query, name) { ListedIsShown(schema, route, Query, name); }
    if Lists(d.header, name) { ListedIsShown(schema, route, Header, name); }
    if Lists(d.cookie, name) { ListedIsShown(schema, route, Cookie, name); }
  }

  /** `_safe_validation_location`; the route is absent when the request matched no API route. */
  method SafeValidationLocation(schema: Schema, route: Option<Route>, location: Option<seq<Segment>>)
    returns (safe: seq<Segment>)
    ensures Located(location).None? ==> safe == [Name("body")]
    ensures Located(location).Some? && route.None? ==> safe == [location.value[0]]
    ensures Located(location).Some? && route.Some? ==>
              var source, segments := Located(location).value, location.value[1..];
              && safe == [location.value[0]] + Redacted(schema, route.value, source, segments)
              && exists types :: Justified(schema, route.value, source, segments, safe[1..], types)
  {
    hide SourceOf, Justified, ParameterAnnotation, SafeSegment, Redacted, Reached;
    if location.None? || location.value == [] {
      return [Name("body")];
    }
    var found := SourceOf(location.value[0]);
    if found.None? {
      return [Name("body")];
    }
    var source := found.value;
    safe := [location.value[0]];
    if route.None? {
      return;
    }
    var annotation := if source == Body then route.value.body else None;
    var segments := location.value[1..];
    RedactedGrows(schema, route.value, source, segments, 0);
    for i := 0 to |segments|
      invariant |safe| == i + 1
      invariant safe == [location.value[0]] + Redacted(schema, route.value, source, segments[..i])
      invariant annotation == Reached(schema, route.value, source, segments[..i])
    {
      var s := segments[i];
      RedactedGrows(schema, route.value, source, segments, i);
      if source != Body && |safe| == 1 && s.Name? {
        annotation := ParameterAnnotation(route.value.dependant, source, s.text);
        if annotation.Some? {
          safe := safe + [s];
          continue;
        }
      }
      var step := SafeStep(schema, annotation, s);
      safe, annotation := safe + [step.segment], step.next;
    }
    assert segments[..|segments|] == segments;
    RedactedIsJustified(schema, route.value, source, segments);
    assert safe[1..] == Redacted(schema, route.value, source, segments);
  }
}
