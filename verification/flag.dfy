/** A flag raised by an answer to a framework question: its type enumeration
    and its validations. */
module Flags {
  import opened Common

  datatype FlagType = Information | Attention | Warning | Alert

  function FlagTypeName(f: FlagType): string {
    match f
    case Information => "information"
    case Attention => "attention"
    case Warning => "warning"
    case Alert => "alert"
  }

  /** The enum's hash, from each name to the value stored for it. */
  const FlagTypeEnum: map<string, string> :=
    map["information" := "information", "attention" := "attention", "warning" := "warning", "alert" := "alert"]

  /** The flag type a name stands for, if any. */
  function FlagTypeFromName(n: string): (r: Option<FlagType>)
    ensures r.Some? ==> FlagTypeName(r.value) == n
    ensures r.None? ==> forall f :: FlagTypeName(f) != n
  {
    if n == "information" then Some(Information)
    else if n == "attention" then Some(Attention)
    else if n == "warning" then Some(Warning)
    else if n == "alert" then Some(Alert)
    else None
  }

  /** Every flag type has an entry in the hash and is stored as its own name,
      and the hash has no other entries. */
  lemma ValueIsName(f: FlagType)
    ensures FlagTypeName(f) in FlagTypeEnum && FlagTypeEnum[FlagTypeName(f)] == FlagTypeName(f)
    ensures FlagTypeFromName(FlagTypeEnum[FlagTypeName(f)]) == Some(f)
    ensures forall n :: n in FlagTypeEnum <==> FlagTypeFromName(n).Some?
  {
    match f
    case Information => assert FlagTypeName(f) == "information";
    case Attention => assert FlagTypeName(f) == "attention";
    case Warning => assert FlagTypeName(f) == "warning";
    case Alert => assert FlagTypeName(f) == "alert";
  }

  /** A flag as validation sees it; the type is read back by name.
      `frameworkQuestion` is the id of the framework question the flag belongs
      to, when that row exists, and None when the foreign key is unset or
      names no row. */
  datatype Flag = Flag(flagType: Option<string>, name: Option<string>, questionValue: Option<string>,
                       frameworkQuestion: Option<nat>)

  datatype FlagAttr = FlagTypeAttr | Name | QuestionValue | FrameworkQuestion

  /** One validation failure: an attribute that is blank, one outside its
      list, or a required association whose row does not exist. */
  datatype FlagError = IsBlank(attr: FlagAttr) | NotIncluded(attr: FlagAttr) | MustExist(attr: FlagAttr)

  /** The validation failures. The type must be present and one of the four
      names; with no `allow_nil`, a missing type fails both checks. The name and
      the question value must be present, and the framework question, a
      required association, must exist. */
  function Errors(f: Flag): (errs: set<FlagError>)
    ensures IsBlank(FlagTypeAttr) in errs <==> !Present(f.flagType)
    ensures NotIncluded(FlagTypeAttr) in errs <==> f.flagType.None? || FlagTypeFromName(f.flagType.value).None?
    ensures IsBlank(Name) in errs <==> !Present(f.name)
    ensures IsBlank(QuestionValue) in errs <==> !Present(f.questionValue)
    ensures MustExist(FrameworkQuestion) in errs <==> f.frameworkQuestion.None?
    ensures NotIncluded(Name) !in errs && NotIncluded(QuestionValue) !in errs
    ensures forall e :: e in errs && e.MustExist? ==> e.attr == FrameworkQuestion
  {
    (if !Present(f.flagType) then {IsBlank(FlagTypeAttr)} else {}) +
    (if f.flagType.None? || f.flagType.value !in FlagTypeEnum then {NotIncluded(FlagTypeAttr)} else {}) +
    (if !Present(f.name) then {IsBlank(Name)} else {}) +
    (if !Present(f.questionValue) then {IsBlank(QuestionValue)} else {}) +
    (if f.frameworkQuestion.None? then {MustExist(FrameworkQuestion)} else {})
  }

  predicate Valid(f: Flag) {
    Errors(f) == {}
  }

  /** Validity stated outright: the type names a flag type, the name and
      question value are present, and the framework question exists. */
  lemma ValidIff(f: Flag)
    ensures Valid(f) <==>
              f.flagType.Some? && (exists t :: FlagTypeName(t) == f.flagType.value) &&
              Present(f.name) && Present(f.questionValue) && f.frameworkQuestion.Some?
  {
    var errs := Errors(f);
    if f.flagType.Some? && FlagTypeFromName(f.flagType.value).Some? {
      var t := FlagTypeFromName(f.flagType.value).value;
      assert FlagTypeName(t) == f.flagType.value;
      NamesArePresent(t);
      if Present(f.name) && Present(f.questionValue) && f.frameworkQuestion.Some? {
        forall e ensures e !in errs {
        }
      }
    }
  }

  /** No flag type's name is blank, so a known type also passes the presence check. */
  lemma NamesArePresent(t: FlagType)
    ensures !Blank(FlagTypeName(t))
  {
    assert !IsSpace(FlagTypeName(t)[0]);
  }
}
