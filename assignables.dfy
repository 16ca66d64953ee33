/** crates/target_process/src/models/v1/assignable/assignables.rs: the v1
    ticket record, the branch name and link derived from it, its entity-type
    tests, and the conversion from the v2 record. */
module Assignables {
  import opened Wrappers
  import opened Text
  import V1 = TpV1Models
  import V2 = TpV2

  datatype Assignable = Assignable(
    resourceType: string,
    id: nat,
    name: string,
    description: Option<string>,
    entityState: V1.IdAndName,
    entityType: V1.IdAndName,
    project: Option<V1.Project>)

  /** `get_link`, with the TARGET_PROCESS_API_BASE_URL value passed in: the
      base, then "/entity/", then the decimal id and nothing else. */
  function GetLink(a: Assignable, base: string): (link: string)
    ensures link == base + "/entity/" + Decimal(a.id)
    ensures StartsWith(link, base + "/entity/")
    ensures var n := link[|base| + 8..]; AllDigits(n) && n != [] && DigitsValue(n) == a.id
  {
    var link := base + "/entity/" + Decimal(a.id);
    assert link[..|base| + 8] == base + "/entity/";
    assert link[|base| + 8..] == Decimal(a.id);
    link
  }

  // ---------------------------------------------------------------------
  // get_branch

  /** The characters `get_branch` removes from the lower-cased name. */
  predicate IsStripped(c: char) {
    c in "()[]{},\"/.;:'-_"
  }

  /** `String::retain(|x| !stripped(x))`: the kept characters, in order. */
  function Retained(s: string): string
    decreases |s|
  {
    if s == [] then []
    else Retained(s[..|s| - 1]) + (if IsStripped(s[|s| - 1]) then [] else [s[|s| - 1]])
  }

  /** The slug of a ticket name as the source builds it: lower-case, drop the
      stripped characters, then spaces become '_'. */
  function Slug(name: string): string {
    ReplaceAll(Retained(Lower(name)), " ", "_")
  }

  /** The branch name `get_branch` returns: decimal id, '_', slug. */
  function BranchName(a: Assignable): string {
    Decimal(a.id) + "_" + Slug(a.name)
  }

  /** `get_branch`: lower-case into a local buffer, filter it in place with
      `retain`, then replace spaces and prefix the id. */
  method GetBranch(a: Assignable) returns (branch: string)
    ensures branch == BranchName(a)
    ensures StartsWith(branch, Decimal(a.id) + "_")
  {
    var name := Lower(a.name);
    var kept := "";
    var i := 0;
    while i < |name|
      invariant 0 <= i <= |name|
      invariant kept == Retained(name[..i])
    {
      assert name[..i + 1][..i] == name[..i];
      if !IsStripped(name[i]) {
        kept := kept + [name[i]];
      }
      i := i + 1;
    }
    assert name[..|name|] == name;
    branch := Decimal(a.id) + "_" + ReplaceAll(kept, " ", "_");
    assert branch[..|Decimal(a.id) + "_"|] == Decimal(a.id) + "_";
  }

  /** Reference definition of the slug, one character at a time: a stripped
      character vanishes, a space becomes '_', any other character is kept
      lower-cased. */
  function SlugOfChar(c: char): string {
    var l := LowerChar(c);
    if IsStripped(l) then [] else if l == ' ' then "_" else [l]
  }

  function SlugByChar(name: string): string
    decreases |name|
  {
    if name == [] then [] else SlugOfChar(name[0]) + SlugByChar(name[1..])
  }

  /** Filtering distributes over concatenation: it keeps order and looks at
      each character on its own. */
  lemma {:induction false} RetainedConcat(x: string, y: string)
    ensures Retained(x + y) == Retained(x) + Retained(y)
    decreases |y|
  {
    if y == [] {
      assert x + y == x;
    } else {
      var y' := y[..|y| - 1];
      RetainedConcat(x, y');
      assert (x + y)[..|x + y| - 1] == x + y';
    }
  }

  lemma RetainedOne(c: char)
    ensures Retained([c]) == if IsStripped(c) then [] else [c]
  {
    assert [c][..0] == [];
  }

  lemma {:induction false} SpacesToUnderscoresConcat(x: string, y: string)
    ensures ReplaceAll(x + y, " ", "_") == ReplaceAll(x, " ", "_") + ReplaceAll(y, " ", "_")
  {
    ReplaceCharPointwise(x + y, ' ', '_');
    ReplaceCharPointwise(x, ' ', '_');
    ReplaceCharPointwise(y, ' ', '_');
    var l := ReplaceAll(x + y, " ", "_");
    var r := ReplaceAll(x, " ", "_") + ReplaceAll(y, " ", "_");
    assert |l| == |r|;
    forall i | 0 <= i < |l| ensures l[i] == r[i] {
      if i < |x| {
        assert (x + y)[i] == x[i];
      } else {
        assert (x + y)[i] == y[i - |x|];
      }
    }
  }

  /** The three-stage pipeline of the source agrees with the
      character-by-character rule, so the slug keeps the order of the kept
      characters and every '_' in it stands for a space. */
  lemma {:induction false} SlugIsCharacterwise(name: string)
    ensures Slug(name) == SlugByChar(name)
    decreases |name|
  {
    if name == [] {
      assert Lower(name) == [];
    } else {
      var c, rest := name[0], name[1..];
      assert Lower(name) == [LowerChar(c)] + Lower(rest);
      RetainedConcat([LowerChar(c)], Lower(rest));
      RetainedOne(LowerChar(c));
      SpacesToUnderscoresConcat(Retained([LowerChar(c)]), Retained(Lower(rest)));
      SlugIsCharacterwise(rest);
      var l := LowerChar(c);
      if !IsStripped(l) {
        ReplaceCharPointwise([l], ' ', '_');
        assert ReplaceAll([l], " ", "_") == SlugOfChar(c);
      }
    }
  }

  lemma {:induction false} SlugByCharAlphabet(name: string)
    ensures forall i :: 0 <= i < |SlugByChar(name)| ==>
              var c := SlugByChar(name)[i];
              c != ' ' && !('A' <= c <= 'Z') && (IsStripped(c) ==> c == '_')
    decreases |name|
  {
    if name != [] {
      SlugByCharAlphabet(name[1..]);
    }
  }

  /** No slug character is one of the stripped characters other than '_',
      none is a space and none is an upper-case ASCII letter. */
  lemma SlugAlphabet(name: string)
    ensures forall i :: 0 <= i < |Slug(name)| ==>
              var c := Slug(name)[i];
              c != ' ' && !('A' <= c <= 'Z') && (IsStripped(c) ==> c == '_')
  {
    SlugIsCharacterwise(name);
    SlugByCharAlphabet(name);
  }

  /** Every '_' of the slug comes from a space: turning them back into spaces
      gives exactly the filtered, lower-cased name. */
  lemma SlugUnderscoresAreSpaces(name: string)
    ensures ReplaceAll(Slug(name), "_", " ") == Retained(Lower(name))
  {
    var kept := Retained(Lower(name));
    RetainedHasNoUnderscore(Lower(name));
    ReplaceCharPointwise(kept, ' ', '_');
    ReplaceCharPointwise(Slug(name), '_', ' ');
  }

  lemma {:induction false} RetainedHasNoUnderscore(s: string)
    ensures '_' !in Retained(s)
    decreases |s|
  {
    if s != [] {
      RetainedHasNoUnderscore(s[..|s| - 1]);
    }
  }

  // ---------------------------------------------------------------------
  // entity types

  /** `is_bug`: the entity type's name lower-cased is "bug". */
  predicate IsBug(a: Assignable) {
    Lower(a.entityType.name) == "bug"
  }

  /** `is_user_story`: the entity type's name lower-cased is "userstory". */
  predicate IsUserStory(a: Assignable) {
    Lower(a.entityType.name) == "userstory"
  }

  ghost predicate EqualIgnoringCase(x: string, y: string) {
    |x| == |y| && forall i :: 0 <= i < |x| ==> LowerChar(x[i]) == LowerChar(y[i])
  }

  /** Both tests are ASCII case-insensitive comparisons of the type name. */
  lemma EntityTypeTestsIgnoreCase(a: Assignable)
    ensures IsBug(a) <==> EqualIgnoringCase(a.entityType.name, "bug")
    ensures IsUserStory(a) <==> EqualIgnoringCase(a.entityType.name, "userstory")
  {
    var n := a.entityType.name;
    if EqualIgnoringCase(n, "bug") {
      assert Lower(n) == "bug";
    }
    if EqualIgnoringCase(n, "userstory") {
      assert Lower(n) == "userstory";
    }
  }

  /** No ticket is both a bug and a user story. */
  lemma NeverBothBugAndStory(a: Assignable)
    ensures !(IsBug(a) && IsUserStory(a))
  {
  }

  // ---------------------------------------------------------------------
  // From<AssignableV2>

  /** `From<AssignableV2> for Assignable`: every field is carried over; the
      project keeps its id, resource type and name. */
  function FromV2(v: V2.Assignable): (a: Assignable)
    ensures a.id == v.id && a.name == v.name && a.description == v.description
    ensures a.resourceType == v.resourceType
    ensures a.entityState == V1.IdAndName(v.entityState.id, v.entityState.name)
    ensures a.entityType == V1.IdAndName(v.entityType.id, v.entityType.name)
    ensures a.project.Some? <==> v.project.Some?
    ensures a.project.Some? ==> a.project.value == V1.Project(v.project.value.id, v.project.value.resourceType, v.project.value.name)
  {
    Assignable(
      v.resourceType,
      v.id,
      v.name,
      v.description,
      V2.ToV1(v.entityState),
      V2.ToV1(v.entityType),
      match v.project
      case Some(p) => Some(V1.Project(p.id, p.resourceType, p.name))
      case None => None)
  }

  /** The project abbreviation is the only thing the conversion forgets. */
  lemma FromV2DropsOnlyAbbreviation(v: V2.Assignable, w: V2.Assignable)
    requires v.project.Some? && w.project.Some?
    requires w == v.(project := Some(v.project.value.(abbreviation := w.project.value.abbreviation)))
    ensures FromV2(v) == FromV2(w)
  {
  }
}
