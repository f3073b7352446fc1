/** The rules shared by every incident variant. They are installed by a hook
    that runs whenever a class is defined below the Incident class: they hold
    for each direct subclass of Incident but not for the Incident class itself,
    and a class one level further down cannot be defined at all. */
module Incidents {
  import opened Common
  import opened GenericEvents
  import IsoDateTime

  const IncidentClass: string := "GenericEvent::Incident"

  /** The members of the `fault_classification` enum. */
  datatype FaultClassification = NotSupplier | Supplier | Investigation

  function FaultClassificationName(f: FaultClassification): string {
    match f
    case NotSupplier => "not_supplier"
    case Supplier => "supplier"
    case Investigation => "investigation"
  }

  /** The enum's hash, from each name to the value stored for it. */
  const FaultClassificationEnum: map<string, string> :=
    map["not_supplier" := "not_supplier", "supplier" := "supplier", "investigation" := "investigation"]

  /** The hash has one entry per member, and each member is stored as its own name. */
  lemma FaultClassificationStoredAsName()
    ensures FaultClassificationEnum.Keys == set f | f in [NotSupplier, Supplier, Investigation] :: FaultClassificationName(f)
    ensures forall f: FaultClassification :: FaultClassificationName(f) in FaultClassificationEnum &&
              FaultClassificationEnum[FaultClassificationName(f)] == FaultClassificationName(f)
  {
    assert FaultClassificationName(NotSupplier) == "not_supplier";
    assert FaultClassificationName(Supplier) == "supplier";
    assert FaultClassificationName(Investigation) == "investigation";
  }

  /** Reading a stored value back: the enum member it stands for, if any. */
  function FaultClassificationFromValue(v: string): (r: Option<FaultClassification>)
    ensures r.Some? ==> FaultClassificationName(r.value) in FaultClassificationEnum &&
                        FaultClassificationEnum[FaultClassificationName(r.value)] == v
    ensures r.None? ==> forall f :: FaultClassificationName(f) != v
  {
    if v == "not_supplier" then Some(NotSupplier)
    else if v == "supplier" then Some(Supplier)
    else if v == "investigation" then Some(Investigation)
    else None
  }

  /** The inclusion list: the enum's names, in declaration order. */
  const FaultClassifications: seq<string> := ["not_supplier", "supplier", "investigation"]

  lemma FaultClassificationsAreEnumNames(v: string)
    ensures v in FaultClassifications <==> FaultClassificationFromValue(v).Some?
    ensures v in FaultClassifications <==> v in FaultClassificationEnum
  {
  }

  /** What the hook installs: the details keys, the `location_id` relationship,
      the Move and Person eventable kinds, the ISO 8601 check on `reported_at`
      and the presence-and-inclusion check on `fault_classification`. */
  const IncidentSchema: Schema := Schema(
    ["supplier_personnel_numbers", "vehicle_reg", "reported_at", "fault_classification"],
    ["location_id"],
    Some(["Move", "Person"]),
    [IsoDateTimeRule("reported_at"), EnumRule("fault_classification", FaultClassifications)])

  /** A class of the event hierarchy: its name, its superclasses (nearest
      first, up to the base event class) and the schema its own body declares. */
  datatype ClassDecl = ClassDecl(name: string, ancestors: seq<string>, declared: Schema)

  /** The class is defined directly below Incident. */
  predicate DirectIncidentSubclass(c: ClassDecl) {
    |c.ancestors| > 0 && c.ancestors[0] == IncidentClass
  }

  /** Defining a class: the schema it ends up with, or None when its
      definition fails. The hook is a class method of Incident, and class
      methods are inherited, so it fires for every class defined anywhere
      below Incident. On a direct subclass it installs the incident schema,
      and its first call leaves that subclass with a `details_attributes`
      reader that takes no arguments. A class one level further down inherits
      that reader, so the hook's call to it with the four keys fails and the
      class is never defined. */
  function DefineClass(c: ClassDecl): (r: Option<Schema>)
    ensures DirectIncidentSubclass(c) ==> r == Some(IncidentSchema)
    ensures r.None? <==> IncidentClass in c.ancestors && !DirectIncidentSubclass(c)
    ensures IncidentClass !in c.ancestors ==> r == Some(c.declared)
  {
    if DirectIncidentSubclass(c) then Some(IncidentSchema)
    else if IncidentClass in c.ancestors then None
    else Some(c.declared)
  }

  /** The Incident class itself: a direct subclass of the base event with nothing declared. */
  const IncidentDecl: ClassDecl := ClassDecl(IncidentClass, ["GenericEvent"], BaseSchema)

  /** The accessors every incident subclass gets: four details keys and one relationship. */
  lemma IncidentAccessors()
    ensures Accessors(IncidentSchema) ==
              {"supplier_personnel_numbers", "vehicle_reg", "reported_at", "fault_classification", "location_id"}
  {
    var s := IncidentSchema;
    assert s.detailsAttributes[0] == "supplier_personnel_numbers" && s.detailsAttributes[1] == "vehicle_reg";
    assert s.detailsAttributes[2] == "reported_at" && s.detailsAttributes[3] == "fault_classification";
    assert s.relationshipAttributes[0] == "location_id";
  }

  /** The rules on `details` that every incident event must satisfy. */
  predicate IncidentDetailsHold(d: Details) {
    ReadDetail(d, "reported_at").Str? && IsoDateTime.IsIsoDateTime(ReadDetail(d, "reported_at").s) &&
    !BlankValue(ReadDetail(d, "fault_classification")) &&
    ReadDetail(d, "fault_classification").Str? &&
    FaultClassificationFromValue(ReadDetail(d, "fault_classification").s).Some?
  }

  /** Validity of an incident subclass's event: the rules of the incident
      schema, and the verdict `mixinsAccept` of the location and
      supplier-personnel-number validation modules the hook mixes in. */
  predicate IncidentValid(e: Event, mixinsAccept: Event -> bool) {
    Valid(e, IncidentSchema) && mixinsAccept(e)
  }

  /** Validity of an incident event, stated outright: the four presence
      checks, an `eventable_type` that is Move or Person, an ISO 8601
      `reported_at`, a `fault_classification` that is one of the three names,
      and the mixed-in modules' verdict. */
  lemma {:induction false} IncidentValidity(e: Event, mixinsAccept: Event -> bool)
    ensures IncidentValid(e, mixinsAccept) <==>
              EventableLoads(e) && !Blank(e.eventType) && e.occurredAt.Some? && e.recordedAt.Some? &&
              e.eventableType.value in {"Move", "Person"} &&
              IncidentDetailsHold(e.details) && mixinsAccept(e)
  {
    IncidentSchemaValidity(e);
  }

  /** The incident schema on its own: everything but the mixed-in modules. */
  lemma {:induction false} IncidentSchemaValidity(e: Event)
    ensures Valid(e, IncidentSchema) <==>
              EventableLoads(e) && !Blank(e.eventType) && e.occurredAt.Some? && e.recordedAt.Some? &&
              e.eventableType.value in {"Move", "Person"} &&
              IncidentDetailsHold(e.details)
  {
    var s := IncidentSchema;
    var errs := Errors(e, s);
    var r0, r1 := s.rules[0], s.rules[1];
    assert r0 == IsoDateTimeRule("reported_at") && r1 == EnumRule("fault_classification", FaultClassifications);
    assert |s.rules| == 2;
    assert RuleHolds(e.details, r1) <==>
             !BlankValue(ReadDetail(e.details, "fault_classification")) &&
             ReadDetail(e.details, "fault_classification").Str? &&
             FaultClassificationFromValue(ReadDetail(e.details, "fault_classification").s).Some? by {
      if ReadDetail(e.details, "fault_classification").Str? {
        FaultClassificationsAreEnumNames(ReadDetail(e.details, "fault_classification").s);
      }
    }
    assert e.eventableType.Some? ==>
             (e.eventableType.value in s.eventableTypes.value <==> e.eventableType.value in {"Move", "Person"});
    if e.eventableType.None? {
      assert EventableType in errs;
    }
    if !RuleHolds(e.details, r0) {
      assert FailsOn(e.details, s.rules, "reported_at");
      assert Detail("reported_at") in errs;
    }
    if !RuleHolds(e.details, r1) {
      assert FailsOn(e.details, s.rules, "fault_classification");
      assert Detail("fault_classification") in errs;
    }
    if RuleHolds(e.details, r0) && RuleHolds(e.details, r1) {
      forall k ensures !FailsOn(e.details, s.rules, k) {
      }
      if EventableLoads(e) && !Blank(e.eventType) && e.occurredAt.Some? && e.recordedAt.Some? &&
         e.eventableType.value in {"Move", "Person"} {
        forall a ensures a !in errs {
        }
      }
    }
  }

  /** An incident subclass rejects every eventable kind other than Move and Person. */
  lemma IncidentRejectsOtherEventables(c: ClassDecl, e: Event)
    requires DirectIncidentSubclass(c)
    requires e.eventableType.None? || e.eventableType.value !in {"Move", "Person"}
    ensures DefineClass(c).Some? && !Valid(e, DefineClass(c).value)
  {
    IncidentSchemaValidity(e);
  }

  /** On an incident subclass, a missing, blank or unknown `fault_classification`
      makes the event invalid, and so does a `reported_at` that is not an ISO 8601 date-time. */
  lemma IncidentDetailRules(c: ClassDecl, e: Event)
    requires DirectIncidentSubclass(c)
    requires !IncidentDetailsHold(e.details)
    ensures DefineClass(c).Some? && !Valid(e, DefineClass(c).value)
  {
    IncidentSchemaValidity(e);
  }

  /** The rules are not installed on Incident itself: it accepts any eventable kind. */
  lemma IncidentClassItselfUnrestricted(e: Event)
    requires EventableLoads(e) && !Blank(e.eventType) && e.occurredAt.Some? && e.recordedAt.Some?
    ensures DefineClass(IncidentDecl).Some? && Valid(e, DefineClass(IncidentDecl).value)
  {
    assert IncidentClass !in IncidentDecl.ancestors;
    BaseSchemaValidity(e);
  }

  /** A class defined below a subclass of Incident, such as one of the incident
      variants, fails to load. */
  lemma BelowIncidentSubclassFails(c: ClassDecl, variant: string)
    requires |c.ancestors| > 1 && c.ancestors[0] == variant && c.ancestors[1] == IncidentClass
    requires variant != IncidentClass
    ensures DefineClass(c).None?
  {
  }
}
