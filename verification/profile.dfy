/** A person's profile: its presence validations, the validity of its
    assessment answers, and the merge that replaces the answers of one category
    with a freshly imported set while keeping the manually created ones. */
module Profiles {
  import opened Common

  /** One assessment answer, as far as the merge looks at it. `title` stands for
      the rest of the answer's content. */
  datatype AssessmentAnswer = AssessmentAnswer(title: string, category: string, importedFromNomis: bool)

  // ---------------------------------------------------------------------------
  // The three selections the merge is built from, each keeping order.

  /** The answers outside category `c`. */
  function OtherCategories(s: seq<AssessmentAnswer>, c: string): (r: seq<AssessmentAnswer>)
    ensures |r| <= |s|
  {
    if s == [] then []
    else OtherCategories(s[..|s| - 1], c) + (if s[|s| - 1].category != c then [s[|s| - 1]] else [])
  }

  /** The answers that were not imported from NOMIS. */
  function ManuallyCreated(s: seq<AssessmentAnswer>): (r: seq<AssessmentAnswer>)
    ensures |r| <= |s|
  {
    if s == [] then []
    else ManuallyCreated(s[..|s| - 1]) + (if !s[|s| - 1].importedFromNomis then [s[|s| - 1]] else [])
  }

  /** The answers in category `c`. */
  function InCategory(s: seq<AssessmentAnswer>, c: string): (r: seq<AssessmentAnswer>)
    ensures |r| <= |s|
  {
    if s == [] then []
    else InCategory(s[..|s| - 1], c) + (if s[|s| - 1].category == c then [s[|s| - 1]] else [])
  }

  /** The answers after merging `incoming` into category `c`: the other categories,
      then the manually created answers of `c`, then the incoming answers. */
  function Merged(answers: seq<AssessmentAnswer>, incoming: seq<AssessmentAnswer>, c: string): seq<AssessmentAnswer> {
    OtherCategories(answers, c) + InCategory(ManuallyCreated(answers), c) + incoming
  }

  // ---------------------------------------------------------------------------
  // Membership: each selection keeps exactly the answers meeting its condition.

  lemma {:induction false} OtherCategoriesMembership(s: seq<AssessmentAnswer>, c: string, a: AssessmentAnswer)
    ensures a in OtherCategories(s, c) <==> a in s && a.category != c
  {
    if s != [] {
      OtherCategoriesMembership(s[..|s| - 1], c, a);
      assert s == s[..|s| - 1] + [s[|s| - 1]];
    }
  }

  lemma {:induction false} ManuallyCreatedMembership(s: seq<AssessmentAnswer>, a: AssessmentAnswer)
    ensures a in ManuallyCreated(s) <==> a in s && !a.importedFromNomis
  {
    if s != [] {
      ManuallyCreatedMembership(s[..|s| - 1], a);
      assert s == s[..|s| - 1] + [s[|s| - 1]];
    }
  }

  lemma {:induction false} InCategoryMembership(s: seq<AssessmentAnswer>, c: string, a: AssessmentAnswer)
    ensures a in InCategory(s, c) <==> a in s && a.category == c
  {
    if s != [] {
      InCategoryMembership(s[..|s| - 1], c, a);
      assert s == s[..|s| - 1] + [s[|s| - 1]];
    }
  }

  // ---------------------------------------------------------------------------
  // The selections distribute over concatenation, so each keeps relative order.

  lemma {:induction false} OtherCategoriesAppend(a: seq<AssessmentAnswer>, b: seq<AssessmentAnswer>, c: string)
    ensures OtherCategories(a + b, c) == OtherCategories(a, c) + OtherCategories(b, c)
    decreases |b|
  {
    if b == [] {
      assert a + b == a;
    } else {
      var init := b[..|b| - 1];
      OtherCategoriesAppend(a, init, c);
      assert (a + b)[..|a + b| - 1] == a + init;
      assert (a + b)[|a + b| - 1] == b[|b| - 1];
    }
  }

  lemma {:induction false} ManuallyCreatedAppend(a: seq<AssessmentAnswer>, b: seq<AssessmentAnswer>)
    ensures ManuallyCreated(a + b) == ManuallyCreated(a) + ManuallyCreated(b)
    decreases |b|
  {
    if b == [] {
      assert a + b == a;
    } else {
      var init := b[..|b| - 1];
      ManuallyCreatedAppend(a, init);
      assert (a + b)[..|a + b| - 1] == a + init;
      assert (a + b)[|a + b| - 1] == b[|b| - 1];
    }
  }

  lemma {:induction false} InCategoryAppend(a: seq<AssessmentAnswer>, b: seq<AssessmentAnswer>, c: string)
    ensures InCategory(a + b, c) == InCategory(a, c) + InCategory(b, c)
    decreases |b|
  {
    if b == [] {
      assert a + b == a;
    } else {
      var init := b[..|b| - 1];
      InCategoryAppend(a, init, c);
      assert (a + b)[..|a + b| - 1] == a + init;
      assert (a + b)[|a + b| - 1] == b[|b| - 1];
    }
  }

  /** A selection whose condition holds throughout keeps everything. */
  lemma {:induction false} OtherCategoriesOfOthers(s: seq<AssessmentAnswer>, c: string)
    requires forall i :: 0 <= i < |s| ==> s[i].category != c
    ensures OtherCategories(s, c) == s
  {
    if s != [] {
      OtherCategoriesOfOthers(s[..|s| - 1], c);
      assert s[..|s| - 1] + [s[|s| - 1]] == s;
    }
  }

  // ---------------------------------------------------------------------------
  // Counting: the positions an answer list holds of each kind.

  /** The positions of `s` that hold an answer outside category `c`. */
  function OtherPositions(s: seq<AssessmentAnswer>, c: string): set<nat> {
    set k: nat | k < |s| && s[k].category != c
  }

  /** The positions of `s` that hold a manually created answer in category `c`. */
  function ManualPositions(s: seq<AssessmentAnswer>, c: string): set<nat> {
    set k: nat | k < |s| && s[k].category == c && !s[k].importedFromNomis
  }

  lemma {:induction false} OtherCategoriesCount(s: seq<AssessmentAnswer>, c: string)
    ensures |OtherCategories(s, c)| == |OtherPositions(s, c)|
  {
    if s != [] {
      var n := |s| - 1;
      OtherCategoriesCount(s[..n], c);
      if s[n].category != c {
        assert OtherPositions(s, c) == OtherPositions(s[..n], c) + {n};
      } else {
        assert OtherPositions(s, c) == OtherPositions(s[..n], c);
      }
    }
  }

  lemma ManualPositionsStep(s: seq<AssessmentAnswer>, c: string)
    requires s != []
    ensures ManualPositions(s, c) ==
            ManualPositions(s[..|s| - 1], c) +
            (if s[|s| - 1].category == c && !s[|s| - 1].importedFromNomis then {|s| - 1} else {})
  {
  }

  lemma ManualInCategoryStep(s: seq<AssessmentAnswer>, c: string)
    requires s != []
    ensures InCategory(ManuallyCreated(s), c) ==
            InCategory(ManuallyCreated(s[..|s| - 1]), c) +
            (if s[|s| - 1].category == c && !s[|s| - 1].importedFromNomis then [s[|s| - 1]] else [])
  {
    var n := |s| - 1;
    assert ManuallyCreated(s) == ManuallyCreated(s[..n]) + (if !s[n].importedFromNomis then [s[n]] else []);
    InCategoryAppend(ManuallyCreated(s[..n]), if !s[n].importedFromNomis then [s[n]] else [], c);
  }

  lemma {:induction false} ManualInCategoryCount(s: seq<AssessmentAnswer>, c: string)
    ensures |InCategory(ManuallyCreated(s), c)| == |ManualPositions(s, c)|
  {
    if s != [] {
      var n := |s| - 1;
      ManualInCategoryCount(s[..n], c);
      ManualInCategoryStep(s, c);
      ManualPositionsStep(s, c);
      assert n !in ManualPositions(s[..n], c);
    }
  }

  // ---------------------------------------------------------------------------
  // Selections that keep everything or nothing.

  lemma {:induction false} OtherCategoriesNone(s: seq<AssessmentAnswer>, c: string)
    requires forall i :: 0 <= i < |s| ==> s[i].category == c
    ensures OtherCategories(s, c) == []
  {
    if s != [] {
      OtherCategoriesNone(s[..|s| - 1], c);
    }
  }

  lemma {:induction false} ManuallyCreatedAll(s: seq<AssessmentAnswer>)
    requires forall i :: 0 <= i < |s| ==> !s[i].importedFromNomis
    ensures ManuallyCreated(s) == s
  {
    if s != [] {
      ManuallyCreatedAll(s[..|s| - 1]);
      assert s[..|s| - 1] + [s[|s| - 1]] == s;
    }
  }

  lemma {:induction false} ManuallyCreatedNone(s: seq<AssessmentAnswer>)
    requires forall i :: 0 <= i < |s| ==> s[i].importedFromNomis
    ensures ManuallyCreated(s) == []
  {
    if s != [] {
      ManuallyCreatedNone(s[..|s| - 1]);
    }
  }

  lemma {:induction false} InCategoryAll(s: seq<AssessmentAnswer>, c: string)
    requires forall i :: 0 <= i < |s| ==> s[i].category == c
    ensures InCategory(s, c) == s
  {
    if s != [] {
      InCategoryAll(s[..|s| - 1], c);
      assert s[..|s| - 1] + [s[|s| - 1]] == s;
    }
  }

  lemma {:induction false} InCategoryNone(s: seq<AssessmentAnswer>, c: string)
    requires forall i :: 0 <= i < |s| ==> s[i].category != c
    ensures InCategory(s, c) == []
  {
    if s != [] {
      InCategoryNone(s[..|s| - 1], c);
    }
  }

  // ---------------------------------------------------------------------------
  // What the merge promises.

  /** The merged list: how long it is, and what it is made of, in order. */
  lemma MergedShape(answers: seq<AssessmentAnswer>, incoming: seq<AssessmentAnswer>, c: string)
    ensures |Merged(answers, incoming, c)| == |OtherPositions(answers, c)| + |ManualPositions(answers, c)| + |incoming|
    ensures Merged(answers, incoming, c)[..|OtherCategories(answers, c)|] == OtherCategories(answers, c)
    ensures Merged(answers, incoming, c)[|Merged(answers, incoming, c)| - |incoming|..] == incoming
  {
    OtherCategoriesCount(answers, c);
    ManualInCategoryCount(answers, c);
  }

  /** Which answers are in the merged list, in both directions: an answer of
      another category, a manually created answer of category `c`, or an incoming
      one. So NOMIS answers of `c` survive only if they come back among the incoming ones. */
  lemma MergedMembership(answers: seq<AssessmentAnswer>, incoming: seq<AssessmentAnswer>, c: string, a: AssessmentAnswer)
    ensures a in Merged(answers, incoming, c) <==>
              (a in answers && (a.category != c || !a.importedFromNomis)) || a in incoming
  {
    OtherCategoriesMembership(answers, c, a);
    ManuallyCreatedMembership(answers, a);
    InCategoryMembership(ManuallyCreated(answers), c, a);
  }

  /** An imported answer of category `c` that is not among the incoming answers is dropped. */
  lemma ImportedAnswersReplaced(answers: seq<AssessmentAnswer>, incoming: seq<AssessmentAnswer>, c: string, a: AssessmentAnswer)
    requires a.category == c && a.importedFromNomis && a !in incoming
    ensures a !in Merged(answers, incoming, c)
  {
    MergedMembership(answers, incoming, c, a);
  }

  /** Importing the same NOMIS answers of category `c` twice gives the same list as once. */
  lemma MergeIdempotent(answers: seq<AssessmentAnswer>, incoming: seq<AssessmentAnswer>, c: string)
    requires forall i :: 0 <= i < |incoming| ==> incoming[i].category == c && incoming[i].importedFromNomis
    ensures Merged(Merged(answers, incoming, c), incoming, c) == Merged(answers, incoming, c)
  {
    var other := OtherCategories(answers, c);
    var manual := InCategory(ManuallyCreated(answers), c);
    forall i | 0 <= i < |other| ensures other[i].category != c {
      OtherCategoriesMembership(answers, c, other[i]);
    }
    forall i | 0 <= i < |manual| ensures manual[i].category == c && !manual[i].importedFromNomis {
      InCategoryMembership(ManuallyCreated(answers), c, manual[i]);
      ManuallyCreatedMembership(answers, manual[i]);
    }
    var all := other + manual + incoming;
    OtherCategoriesAppend(other + manual, incoming, c);
    OtherCategoriesAppend(other, manual, c);
    OtherCategoriesOfOthers(other, c);
    OtherCategoriesNone(manual, c);
    OtherCategoriesNone(incoming, c);
    assert OtherCategories(all, c) == other;
    ManuallyCreatedAppend(other + manual, incoming);
    ManuallyCreatedAppend(other, manual);
    ManuallyCreatedAll(manual);
    ManuallyCreatedNone(incoming);
    var otherManual := ManuallyCreated(other);
    forall i | 0 <= i < |otherManual| ensures otherManual[i].category != c {
      ManuallyCreatedMembership(other, otherManual[i]);
    }
    InCategoryAppend(otherManual, manual, c);
    InCategoryNone(otherManual, c);
    InCategoryAll(manual, c);
    assert ManuallyCreated(all) == otherManual + manual;
    assert InCategory(ManuallyCreated(all), c) == manual;
  }

  // ---------------------------------------------------------------------------
  // The profile record.

  /** The attributes a validation error can be reported on. */
  datatype ProfileAttr = Person | LastName | FirstNames | AssessmentAnswers

  class Profile {
    var person: Option<nat>
    var lastName: Option<string>
    var firstNames: Option<string>
    var assessmentAnswers: seq<AssessmentAnswer>

    constructor (person: Option<nat>, lastName: Option<string>, firstNames: Option<string>,
                 assessmentAnswers: seq<AssessmentAnswer>)
      ensures this.person == person && this.lastName == lastName && this.firstNames == firstNames
      ensures this.assessmentAnswers == assessmentAnswers
    {
      this.person := person;
      this.lastName := lastName;
      this.firstNames := firstNames;
      this.assessmentAnswers := assessmentAnswers;
    }

    /** Replaces the answers of `category`: keeps the other categories and the
        manually created answers of `category`, and appends `incoming`. */
    method MergeAssessmentAnswers(incoming: seq<AssessmentAnswer>, category: string)
      modifies this
      ensures assessmentAnswers == Merged(old(assessmentAnswers), incoming, category)
      ensures person == old(person) && lastName == old(lastName) && firstNames == old(firstNames)
    {
      assessmentAnswers :=
        OtherCategories(assessmentAnswers, category) +
        InCategory(ManuallyCreated(assessmentAnswers), category) +
        incoming;
    }

    /** The validation errors, given the answers' own validity: `person`,
        `last_name` and `first_names` must be present, and every answer valid. */
    function Errors(answerValid: AssessmentAnswer -> bool): (errs: set<ProfileAttr>)
      reads this
      ensures Person in errs <==> person.None?
      ensures LastName in errs <==> !Present(lastName)
      ensures FirstNames in errs <==> !Present(firstNames)
      ensures AssessmentAnswers in errs <==> exists a :: a in assessmentAnswers && !answerValid(a)
    {
      (if person.None? then {Person} else {}) +
      (if !Present(lastName) then {LastName} else {}) +
      (if !Present(firstNames) then {FirstNames} else {}) +
      (if forall i :: 0 <= i < |assessmentAnswers| ==> answerValid(assessmentAnswers[i]) then {} else {AssessmentAnswers})
    }

    predicate IsValid(answerValid: AssessmentAnswer -> bool)
      reads this
    {
      Errors(answerValid) == {}
    }
  }

  /** A profile without a person, a last name or first names is invalid. */
  lemma MissingNameInvalid(p: Profile, answerValid: AssessmentAnswer -> bool)
    requires p.person.None? || !Present(p.lastName) || !Present(p.firstNames)
    ensures !p.IsValid(answerValid)
  {
    if p.person.None? {
      assert Person in p.Errors(answerValid);
    } else if !Present(p.lastName) {
      assert LastName in p.Errors(answerValid);
    } else {
      assert FirstNames in p.Errors(answerValid);
    }
  }

  /** Merging in answers that are all valid keeps a profile whose answers were valid so. */
  lemma MergePreservesAnswerValidity(answers: seq<AssessmentAnswer>, incoming: seq<AssessmentAnswer>, c: string,
                                     answerValid: AssessmentAnswer -> bool)
    requires forall a :: a in answers ==> answerValid(a)
    requires forall a :: a in incoming ==> answerValid(a)
    ensures forall a :: a in Merged(answers, incoming, c) ==> answerValid(a)
  {
    forall a | a in Merged(answers, incoming, c) ensures answerValid(a) {
      MergedMembership(answers, incoming, c, a);
    }
  }
}
