/** An allocation of prisoners between two locations: the stored values of its
    two enumerations and its validations. */
module Allocations {
  import opened Common

  datatype PrisonerCategory = B | C | D

  function PrisonerCategoryName(p: PrisonerCategory): string {
    match p
    case B => "b"
    case C => "c"
    case D => "d"
  }

  /** The value stored for each prisoner category. */
  function PrisonerCategoryValue(p: PrisonerCategory): string {
    match p
    case B => "B"
    case C => "C"
    case D => "D"
  }

  /** The category a name stands for, if any. */
  function PrisonerCategoryFromName(n: string): (r: Option<PrisonerCategory>)
    ensures r.Some? ==> PrisonerCategoryName(r.value) == n
    ensures r.None? ==> forall p :: PrisonerCategoryName(p) != n
  {
    if n == "b" then Some(B) else if n == "c" then Some(C) else if n == "d" then Some(D) else None
  }

  /** The category a stored value stands for, if any. */
  function PrisonerCategoryFromValue(v: string): (r: Option<PrisonerCategory>)
    ensures r.Some? ==> PrisonerCategoryValue(r.value) == v
    ensures r.None? ==> forall p :: PrisonerCategoryValue(p) != v
  {
    if v == "B" then Some(B) else if v == "C" then Some(C) else if v == "D" then Some(D) else None
  }

  datatype SentenceLength = Short | Long

  function SentenceLengthName(s: SentenceLength): string {
    match s
    case Short => "short"
    case Long => "long"
  }

  /** The value stored for each sentence length. */
  function SentenceLengthValue(s: SentenceLength): string {
    match s
    case Short => "16_or_less"
    case Long => "more_than_16"
  }

  function SentenceLengthFromName(n: string): (r: Option<SentenceLength>)
    ensures r.Some? ==> SentenceLengthName(r.value) == n
    ensures r.None? ==> forall s :: SentenceLengthName(s) != n
  {
    if n == "short" then Some(Short) else if n == "long" then Some(Long) else None
  }

  function SentenceLengthFromValue(v: string): (r: Option<SentenceLength>)
    ensures r.Some? ==> SentenceLengthValue(r.value) == v
    ensures r.None? ==> forall s :: SentenceLengthValue(s) != v
  {
    if v == "16_or_less" then Some(Short) else if v == "more_than_16" then Some(Long) else None
  }

  /** Both storage tables are bijections: the name and the stored value each
      determine the member, and each member's name and value lead back to it. */
  lemma EnumTablesAreBijections()
    ensures forall p :: PrisonerCategoryFromName(PrisonerCategoryName(p)) == Some(p)
    ensures forall p :: PrisonerCategoryFromValue(PrisonerCategoryValue(p)) == Some(p)
    ensures forall p, q :: PrisonerCategoryValue(p) == PrisonerCategoryValue(q) ==> p == q
    ensures forall s :: SentenceLengthFromName(SentenceLengthName(s)) == Some(s)
    ensures forall s :: SentenceLengthFromValue(SentenceLengthValue(s)) == Some(s)
    ensures forall s, t :: SentenceLengthValue(s) == SentenceLengthValue(t) ==> s == t
  {
    forall p ensures PrisonerCategoryFromName(PrisonerCategoryName(p)) == Some(p) {
      match p
      case B => assert PrisonerCategoryName(p) == "b";
      case C => assert PrisonerCategoryName(p) == "c";
      case D => assert PrisonerCategoryName(p) == "d";
    }
    forall p ensures PrisonerCategoryFromValue(PrisonerCategoryValue(p)) == Some(p) {
      match p
      case B => assert PrisonerCategoryValue(p) == "B";
      case C => assert PrisonerCategoryValue(p) == "C";
      case D => assert PrisonerCategoryValue(p) == "D";
    }
    forall s ensures SentenceLengthFromName(SentenceLengthName(s)) == Some(s) {
      match s
      case Short => assert SentenceLengthName(s) == "short";
      case Long => assert SentenceLengthName(s) == "long";
    }
    forall s ensures SentenceLengthFromValue(SentenceLengthValue(s)) == Some(s) {
      match s
      case Short => assert SentenceLengthValue(s) == "16_or_less";
      case Long => assert SentenceLengthValue(s) == "more_than_16";
    }
  }

  /** An allocation as validation sees it. The two enumerations are read back
      by name; locations are ids; the date is a day number. */
  datatype Allocation = Allocation(
    fromLocation: Option<nat>,
    toLocation: Option<nat>,
    prisonerCategory: Option<string>,
    sentenceLength: Option<string>,
    movesCount: Option<int>,
    date: Option<int>)

  datatype AllocationAttr = FromLocation | ToLocation | PrisonerCategoryAttr | SentenceLengthAttr | MovesCount | Date

  /** The attributes with a validation error. Both locations, the moves count
      and the date must be present; each enumeration may be absent, but when
      given must be one of its names. */
  function Errors(a: Allocation): (errs: set<AllocationAttr>)
    ensures FromLocation in errs <==> a.fromLocation.None?
    ensures ToLocation in errs <==> a.toLocation.None?
    ensures PrisonerCategoryAttr in errs <==>
              a.prisonerCategory.Some? && PrisonerCategoryFromName(a.prisonerCategory.value).None?
    ensures SentenceLengthAttr in errs <==>
              a.sentenceLength.Some? && SentenceLengthFromName(a.sentenceLength.value).None?
    ensures MovesCount in errs <==> a.movesCount.None?
    ensures Date in errs <==> a.date.None?
  {
    (if a.fromLocation.None? then {FromLocation} else {}) +
    (if a.toLocation.None? then {ToLocation} else {}) +
    (if a.prisonerCategory.Some? && a.prisonerCategory.value !in {"b", "c", "d"} then {PrisonerCategoryAttr} else {}) +
    (if a.sentenceLength.Some? && a.sentenceLength.value !in {"short", "long"} then {SentenceLengthAttr} else {}) +
    (if a.movesCount.None? then {MovesCount} else {}) +
    (if a.date.None? then {Date} else {})
  }

  predicate Valid(a: Allocation) {
    Errors(a) == {}
  }

  /** Validity stated outright: both locations, the moves count and the date
      are present, and each enumeration is absent or names one of its members. */
  lemma ValidIff(a: Allocation)
    ensures Valid(a) <==>
              a.fromLocation.Some? && a.toLocation.Some? && a.movesCount.Some? && a.date.Some? &&
              (a.prisonerCategory.None? || exists p :: PrisonerCategoryName(p) == a.prisonerCategory.value) &&
              (a.sentenceLength.None? || exists s :: SentenceLengthName(s) == a.sentenceLength.value)
  {
    var errs := Errors(a);
    if a.prisonerCategory.Some? && PrisonerCategoryFromName(a.prisonerCategory.value).Some? {
      assert PrisonerCategoryName(PrisonerCategoryFromName(a.prisonerCategory.value).value) == a.prisonerCategory.value;
    }
    if a.sentenceLength.Some? && SentenceLengthFromName(a.sentenceLength.value).Some? {
      assert SentenceLengthName(SentenceLengthFromName(a.sentenceLength.value).value) == a.sentenceLength.value;
    }
    if a.fromLocation.Some? && a.toLocation.Some? && a.movesCount.Some? && a.date.Some? &&
       PrisonerCategoryAttr !in errs && SentenceLengthAttr !in errs {
      forall e ensures e !in errs {
      }
    }
  }

  /** The stored value of an enumeration member, read back by name, is valid. */
  lemma ValueReadBackValid(a: Allocation, p: PrisonerCategory, s: SentenceLength)
    requires a.fromLocation.Some? && a.toLocation.Some? && a.movesCount.Some? && a.date.Some?
    requires a.prisonerCategory == Some(PrisonerCategoryName(p)) && a.sentenceLength == Some(SentenceLengthName(s))
    ensures Valid(a)
  {
    ValidIff(a);
  }
}
