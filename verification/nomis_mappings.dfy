/** Attaching imported NOMIS mappings to the answers of a person escort record.
    Each persisted mapping is attached to every NOMIS code of the record with
    the same code and code type, or, when there is none, to the first fallback
    code of its code type; each framework response then receives the mappings
    of its own codes. */
module FrameworkNomisMappings {
  import opened Common

  /** A NOMIS code a framework question can be answered from. */
  datatype NomisCode = NomisCode(id: nat, code: Option<string>, codeType: string, fallback: bool)

  /** A mapping persisted from NOMIS data. */
  datatype Mapping = Mapping(id: nat, code: Option<string>, codeType: string)

  /** The status each NOMIS source reports after its fetch; its content comes
      from the NOMIS clients. */
  datatype SyncStatus = SyncStatus(resourceType: string, status: string)

  /** Code id to the mappings attached to it, in attachment order. */
  type Table = map<nat, seq<Mapping>>

  /** The list stored under `id`, or the empty list. */
  function Lookup(t: Table, id: nat): seq<Mapping> {
    if id in t then t[id] else []
  }

  // ---------------------------------------------------------------------------
  // Selections over the record's codes.

  /** Does code `c` match mapping `m` exactly (a missing code matches a missing code)? */
  predicate Matches(c: NomisCode, m: Mapping) {
    c.code == m.code && c.codeType == m.codeType
  }

  /** The codes matching `m` exactly, in order. */
  function MatchingCodes(codes: seq<NomisCode>, m: Mapping): (r: seq<NomisCode>)
    ensures |r| <= |codes|
  {
    if codes == [] then []
    else MatchingCodes(codes[..|codes| - 1], m) +
         (if Matches(codes[|codes| - 1], m) then [codes[|codes| - 1]] else [])
  }

  lemma {:induction false} MatchingCodesMembership(codes: seq<NomisCode>, m: Mapping, c: NomisCode)
    ensures c in MatchingCodes(codes, m) <==> c in codes && Matches(c, m)
  {
    if codes != [] {
      MatchingCodesMembership(codes[..|codes| - 1], m, c);
      assert codes == codes[..|codes| - 1] + [codes[|codes| - 1]];
    }
  }

  /** The fallback codes, in order. */
  function FallbackCodes(codes: seq<NomisCode>): (r: seq<NomisCode>)
    ensures |r| <= |codes|
  {
    if codes == [] then []
    else FallbackCodes(codes[..|codes| - 1]) +
         (if codes[|codes| - 1].fallback then [codes[|codes| - 1]] else [])
  }

  /** The fallback codes are exactly the codes flagged as fallbacks. */
  lemma {:induction false} FallbackCodesMembership(codes: seq<NomisCode>, c: NomisCode)
    ensures c in FallbackCodes(codes) <==> c in codes && c.fallback
  {
    if codes != [] {
      FallbackCodesMembership(codes[..|codes| - 1], c);
      assert codes == codes[..|codes| - 1] + [codes[|codes| - 1]];
    }
  }

  /** The position of the first code of type `codeType`, if any. */
  function FindByType(codes: seq<NomisCode>, codeType: string): (r: Option<nat>)
    ensures r.Some? ==> r.value < |codes| && codes[r.value].codeType == codeType &&
                        forall j :: 0 <= j < r.value ==> codes[j].codeType != codeType
    ensures r.None? ==> forall j :: 0 <= j < |codes| ==> codes[j].codeType != codeType
  {
    if codes == [] then None
    else if codes[0].codeType == codeType then Some(0)
    else match FindByType(codes[1..], codeType)
      case None => None
      case Some(i) => Some(i + 1)
  }

  /** The first fallback code of type `codeType`, if any. */
  function FirstFallback(codes: seq<NomisCode>, codeType: string): Option<NomisCode> {
    var fallbacks := FallbackCodes(codes);
    match FindByType(fallbacks, codeType)
    case None => None
    case Some(i) => Some(fallbacks[i])
  }

  /** The codes of one code type, in order. */
  function OfType(codes: seq<NomisCode>, codeType: string): (r: seq<NomisCode>)
    ensures |r| <= |codes|
  {
    if codes == [] then []
    else OfType(codes[..|codes| - 1], codeType) +
         (if codes[|codes| - 1].codeType == codeType then [codes[|codes| - 1]] else [])
  }

  /** The codes grouped by code type, each group in order. */
  function GroupByCodeType(codes: seq<NomisCode>): map<string, seq<NomisCode>> {
    if codes == [] then map[]
    else
      var g := GroupByCodeType(codes[..|codes| - 1]);
      var c := codes[|codes| - 1];
      g[c.codeType := (if c.codeType in g then g[c.codeType] else []) + [c]]
  }

  /** Grouping partitions the codes: the groups are keyed by exactly the code
      types that occur, and each group holds the codes of its type, in order. */
  lemma {:induction false} GroupByCodeTypePartition(codes: seq<NomisCode>)
    ensures GroupByCodeType(codes).Keys == set i | 0 <= i < |codes| :: codes[i].codeType
    ensures forall t :: t in GroupByCodeType(codes) ==> GroupByCodeType(codes)[t] == OfType(codes, t)
  {
    if codes != [] {
      var init := codes[..|codes| - 1];
      GroupByCodeTypePartition(init);
      var g := GroupByCodeType(init);
      forall t | t !in g
        ensures OfType(init, t) == []
      {
        OfTypeAbsent(init, t);
      }
      assert (set i | 0 <= i < |codes| :: codes[i].codeType) ==
             (set i | 0 <= i < |init| :: init[i].codeType) + {codes[|codes| - 1].codeType} by {
        forall i | 0 <= i < |init| ensures init[i] == codes[i] { }
      }
    }
  }

  lemma {:induction false} OfTypeAbsent(codes: seq<NomisCode>, t: string)
    requires t !in (set i | 0 <= i < |codes| :: codes[i].codeType)
    ensures OfType(codes, t) == []
  {
    if codes != [] {
      var init := codes[..|codes| - 1];
      assert codes[|codes| - 1].codeType in (set i | 0 <= i < |codes| :: codes[i].codeType);
      assert t !in (set i | 0 <= i < |init| :: init[i].codeType) by {
        forall i | 0 <= i < |init| ensures init[i] == codes[i] { }
      }
      OfTypeAbsent(init, t);
    }
  }

  // ---------------------------------------------------------------------------
  // Building the code-id table.

  /** Appends `m` to the list of `id`. */
  function Append(t: Table, id: nat, m: Mapping): Table {
    t[id := Lookup(t, id) + [m]]
  }

  /** Appends `m` to the list of each code of `cs`, in order. */
  function AppendEach(t: Table, cs: seq<NomisCode>, m: Mapping): Table {
    if cs == [] then t
    else Append(AppendEach(t, cs[..|cs| - 1], m), cs[|cs| - 1].id, m)
  }

  /** Attaches one mapping: to every exactly matching code, else to the first
      fallback code of its type, else nowhere. */
  function AddMapping(t: Table, codes: seq<NomisCode>, m: Mapping): Table {
    var exact := MatchingCodes(codes, m);
    if exact != [] then AppendEach(t, exact, m)
    else match FirstFallback(codes, m.codeType)
      case None => t
      case Some(f) => Append(t, f.id, m)
  }

  /** The table after attaching the mappings in order. */
  function BuildTable(codes: seq<NomisCode>, ms: seq<Mapping>): Table {
    if ms == [] then map[]
    else AddMapping(BuildTable(codes, ms[..|ms| - 1]), codes, ms[|ms| - 1])
  }

  // ---------------------------------------------------------------------------
  // A per-code reference for the table.

  /** How many codes of `cs` carry `id`. */
  function CountId(cs: seq<NomisCode>, id: nat): nat {
    if cs == [] then 0
    else CountId(cs[..|cs| - 1], id) + (if cs[|cs| - 1].id == id then 1 else 0)
  }

  /** `m`, `n` times. */
  function Repeat(m: Mapping, n: nat): (r: seq<Mapping>)
    ensures |r| == n
    ensures forall k :: 0 <= k < n ==> r[k] == m
  {
    if n == 0 then [] else Repeat(m, n - 1) + [m]
  }

  lemma {:induction false} RepeatAdd(m: Mapping, a: nat, b: nat)
    ensures Repeat(m, a + b) == Repeat(m, a) + Repeat(m, b)
  {
  }

  /** What one mapping adds to the list of `id`. */
  function Contribution(codes: seq<NomisCode>, m: Mapping, id: nat): seq<Mapping> {
    var exact := MatchingCodes(codes, m);
    if exact != [] then Repeat(m, CountId(exact, id))
    else match FirstFallback(codes, m.codeType)
      case None => []
      case Some(f) => if f.id == id then [m] else []
  }

  /** Lists joined in order. */
  function Flatten(xss: seq<seq<Mapping>>): seq<Mapping> {
    if xss == [] then [] else Flatten(xss[..|xss| - 1]) + xss[|xss| - 1]
  }

  lemma {:induction false} FlattenAppend(a: seq<seq<Mapping>>, b: seq<seq<Mapping>>)
    ensures Flatten(a + b) == Flatten(a) + Flatten(b)
    decreases |b|
  {
    if b == [] {
      assert a + b == a;
    } else {
      var init := b[..|b| - 1];
      FlattenAppend(a, init);
      assert (a + b)[..|a + b| - 1] == a + init;
      assert (a + b)[|a + b| - 1] == b[|b| - 1];
    }
  }

  lemma {:induction false} FlattenMembership(xss: seq<seq<Mapping>>, m: Mapping)
    ensures m in Flatten(xss) <==> exists k :: 0 <= k < |xss| && m in xss[k]
  {
    if xss != [] {
      var init := xss[..|xss| - 1];
      FlattenMembership(init, m);
      if exists k :: 0 <= k < |xss| && m in xss[k] {
        var k :| 0 <= k < |xss| && m in xss[k];
        if k < |init| {
          assert init[k] == xss[k];
        }
      }
      if m in Flatten(init) {
        var k :| 0 <= k < |init| && m in init[k];
        assert xss[k] == init[k];
      }
    }
  }

  /** What each mapping adds to the list of `id`, mapping by mapping. */
  function ContributionList(codes: seq<NomisCode>, ms: seq<Mapping>, id: nat): (r: seq<seq<Mapping>>)
    ensures |r| == |ms| && forall k :: 0 <= k < |ms| ==> r[k] == Contribution(codes, ms[k], id)
  {
    seq(|ms|, k requires 0 <= k < |ms| => Contribution(codes, ms[k], id))
  }

  /** What the mappings add to the list of `id`, in order. */
  function Contributions(codes: seq<NomisCode>, ms: seq<Mapping>, id: nat): seq<Mapping> {
    Flatten(ContributionList(codes, ms, id))
  }

  lemma ContributionListAppend(codes: seq<NomisCode>, a: seq<Mapping>, b: seq<Mapping>, id: nat)
    ensures ContributionList(codes, a + b, id) == ContributionList(codes, a, id) + ContributionList(codes, b, id)
  {
  }

  lemma {:induction false} AppendEachLookup(t: Table, cs: seq<NomisCode>, m: Mapping, id: nat)
    ensures Lookup(AppendEach(t, cs, m), id) == Lookup(t, id) + Repeat(m, CountId(cs, id))
  {
    if cs != [] {
      var init := cs[..|cs| - 1];
      AppendEachLookup(t, init, m, id);
      if cs[|cs| - 1].id == id {
        RepeatAdd(m, CountId(init, id), 1);
      }
    }
  }

  lemma AddMappingLookup(t: Table, codes: seq<NomisCode>, m: Mapping, id: nat)
    ensures Lookup(AddMapping(t, codes, m), id) == Lookup(t, id) + Contribution(codes, m, id)
  {
    if MatchingCodes(codes, m) != [] {
      AppendEachLookup(t, MatchingCodes(codes, m), m, id);
    }
  }

  /** The table, read one code id at a time: the list of `id` is what each
      mapping adds to it, in mapping order. */
  lemma {:induction false} BuildTableLookup(codes: seq<NomisCode>, ms: seq<Mapping>, id: nat)
    ensures Lookup(BuildTable(codes, ms), id) == Contributions(codes, ms, id)
  {
    if ms != [] {
      var init, m := ms[..|ms| - 1], ms[|ms| - 1];
      BuildTableLookup(codes, init, id);
      AddMappingLookup(BuildTable(codes, init), codes, m, id);
      ContributionsSnoc(codes, ms, id);
    } else {
      assert ContributionList(codes, ms, id) == [];
    }
  }

  /** The last mapping's contribution comes after the others'. */
  lemma ContributionsSnoc(codes: seq<NomisCode>, ms: seq<Mapping>, id: nat)
    requires ms != []
    ensures Contributions(codes, ms, id) ==
              Contributions(codes, ms[..|ms| - 1], id) + Contribution(codes, ms[|ms| - 1], id)
  {
    var init, m := ms[..|ms| - 1], ms[|ms| - 1];
    assert ms == init + [m];
    ContributionsAppend(codes, init, [m], id);
    SingleContribution(codes, m, id);
  }

  lemma SingleContribution(codes: seq<NomisCode>, m: Mapping, id: nat)
    ensures Contributions(codes, [m], id) == Contribution(codes, m, id)
  {
    var last := Contribution(codes, m, id);
    assert ContributionList(codes, [m], id) == [last];
    assert [last][..0] == [];
    assert Flatten([last]) == Flatten([last][..0]) + last;
  }

  lemma ContributionsAppend(codes: seq<NomisCode>, a: seq<Mapping>, b: seq<Mapping>, id: nat)
    ensures Contributions(codes, a + b, id) == Contributions(codes, a, id) + Contributions(codes, b, id)
  {
    ContributionListAppend(codes, a, b, id);
    FlattenAppend(ContributionList(codes, a, id), ContributionList(codes, b, id));
  }

  lemma ContributionsMembership(codes: seq<NomisCode>, ms: seq<Mapping>, id: nat, m: Mapping)
    ensures m in Contributions(codes, ms, id) <==>
              exists k :: 0 <= k < |ms| && m in Contribution(codes, ms[k], id)
  {
    FlattenMembership(ContributionList(codes, ms, id), m);
  }

  lemma {:induction false} CountIdPositive(cs: seq<NomisCode>, c: NomisCode)
    requires c in cs
    ensures CountId(cs, c.id) >= 1
  {
    var init := cs[..|cs| - 1];
    if cs[|cs| - 1] != c {
      assert c in init by {
        assert cs == init + [cs[|cs| - 1]];
      }
      CountIdPositive(init, c);
    }
  }

  // ---------------------------------------------------------------------------
  // What the table promises.

  /** A persisted mapping is attached to every code with the same code and code type. */
  lemma ExactMatchAttached(codes: seq<NomisCode>, ms: seq<Mapping>, k: nat, c: NomisCode)
    requires k < |ms| && c in codes && Matches(c, ms[k])
    ensures ms[k] in Lookup(BuildTable(codes, ms), c.id)
  {
    MatchingCodesMembership(codes, ms[k], c);
    CountIdPositive(MatchingCodes(codes, ms[k]), c);
    assert ms[k] in Contribution(codes, ms[k], c.id);
    ContributionsMembership(codes, ms, c.id, ms[k]);
    BuildTableLookup(codes, ms, c.id);
  }

  /** A mapping no code matches exactly is attached to the first fallback code
      of its code type and to no other code; with no such fallback it is
      attached to nothing. */
  lemma FallbackOnly(codes: seq<NomisCode>, ms: seq<Mapping>, k: nat, id: nat)
    requires k < |ms| && MatchingCodes(codes, ms[k]) == []
    requires forall j :: 0 <= j < |ms| && j != k ==> ms[j] != ms[k]
    ensures ms[k] in Lookup(BuildTable(codes, ms), id) <==>
              FirstFallback(codes, ms[k].codeType).Some? && FirstFallback(codes, ms[k].codeType).value.id == id
  {
    var m := ms[k];
    BuildTableLookup(codes, ms, id);
    ContributionsMembership(codes, ms, id, m);
    forall j | 0 <= j < |ms| && j != k
      ensures m !in Contribution(codes, ms[j], id)
    {
      ContributionOnlyOwn(codes, ms[j], id, m);
    }
  }

  lemma ContributionOnlyOwn(codes: seq<NomisCode>, m: Mapping, id: nat, other: Mapping)
    requires other != m
    ensures other !in Contribution(codes, m, id)
  {
  }

  /** Lists only grow: the list of a code id after the first mappings is a
      prefix of its list after all of them. */
  lemma TableGrowsOnly(codes: seq<NomisCode>, ms: seq<Mapping>, k: nat, id: nat)
    requires k <= |ms|
    ensures Lookup(BuildTable(codes, ms[..k]), id) <= Lookup(BuildTable(codes, ms), id)
  {
    BuildTableLookup(codes, ms[..k], id);
    BuildTableLookup(codes, ms, id);
    assert ms == ms[..k] + ms[k..];
    ContributionsAppend(codes, ms[..k], ms[k..], id);
  }

  // ---------------------------------------------------------------------------
  // Reading a response's mappings out of the table.

  /** The ids in order of first occurrence, each once. */
  function Distinct(ids: seq<nat>): seq<nat> {
    if ids == [] then []
    else
      var d := Distinct(ids[..|ids| - 1]);
      if ids[|ids| - 1] in d then d else d + [ids[|ids| - 1]]
  }

  lemma {:induction false} DistinctProperties(ids: seq<nat>)
    ensures forall x :: x in Distinct(ids) <==> x in ids
    ensures forall i, j :: 0 <= i < j < |Distinct(ids)| ==> Distinct(ids)[i] != Distinct(ids)[j]
  {
    if ids != [] {
      DistinctProperties(ids[..|ids| - 1]);
      assert ids == ids[..|ids| - 1] + [ids[|ids| - 1]];
    }
  }

  /** Without repetitions, keeping first occurrences changes nothing. */
  lemma {:induction false} DistinctOfDistinct(ids: seq<nat>)
    requires forall i, j :: 0 <= i < j < |ids| ==> ids[i] != ids[j]
    ensures Distinct(ids) == ids
  {
    if ids != [] {
      var init := ids[..|ids| - 1];
      DistinctOfDistinct(init);
      DistinctProperties(init);
      assert ids == init + [ids[|ids| - 1]];
    }
  }

  /** The lists of `ids`, joined in order. */
  function Concat(t: Table, ids: seq<nat>): seq<Mapping> {
    if ids == [] then [] else Concat(t, ids[..|ids| - 1]) + Lookup(t, ids[|ids| - 1])
  }

  /** The flattened values of the table restricted to `ids`: each present key
      once, in order of its first occurrence among `ids`. */
  function SliceValues(t: Table, ids: seq<nat>): seq<Mapping> {
    Concat(t, Distinct(ids))
  }

  /** A response with no codes ends up with no mappings. */
  lemma SliceValuesEmpty(t: Table)
    ensures SliceValues(t, []) == []
  {
  }

  /** With no repeated code ids, a response's mappings are its codes' lists
      joined in the order of its codes; ids absent from the table add nothing. */
  lemma SliceValuesOfDistinct(t: Table, ids: seq<nat>)
    requires forall i, j :: 0 <= i < j < |ids| ==> ids[i] != ids[j]
    ensures forall k :: 0 <= k < |ids| ==>
              SliceValues(t, ids) == Concat(t, ids[..k]) + Lookup(t, ids[k]) + Concat(t, ids[k + 1..])
  {
    DistinctOfDistinct(ids);
    forall k | 0 <= k < |ids|
      ensures Concat(t, ids) == Concat(t, ids[..k]) + Lookup(t, ids[k]) + Concat(t, ids[k + 1..])
    {
      ConcatAppend(t, ids[..k + 1], ids[k + 1..]);
      assert ids[..k + 1] + ids[k + 1..] == ids;
      assert ids[..k + 1][..k] == ids[..k];
    }
  }

  lemma {:induction false} ConcatAppend(t: Table, a: seq<nat>, b: seq<nat>)
    ensures Concat(t, a + b) == Concat(t, a) + Concat(t, b)
    decreases |b|
  {
    if b == [] {
      assert a + b == a;
    } else {
      var init := b[..|b| - 1];
      ConcatAppend(t, a, init);
      assert (a + b)[..|a + b| - 1] == a + init;
      assert (a + b)[|a + b| - 1] == b[|b| - 1];
    }
  }

  // ---------------------------------------------------------------------------
  // The importer.

  /** The code ids of a list of codes, in order. */
  function CodeIds(cs: seq<NomisCode>): (r: seq<nat>)
    ensures |r| == |cs| && forall k :: 0 <= k < |cs| ==> r[k] == cs[k].id
  {
    seq(|cs|, k requires 0 <= k < |cs| => cs[k].id)
  }

  /** One framework response of the record, with the NOMIS codes of its question. */
  class FrameworkResponse {
    const id: nat
    const nomisCodes: seq<NomisCode>
    var nomisMappings: seq<Mapping>

    constructor (id: nat, nomisCodes: seq<NomisCode>)
      ensures this.id == id && this.nomisCodes == nomisCodes && nomisMappings == []
    {
      this.id := id;
      this.nomisCodes := nomisCodes;
      nomisMappings := [];
    }
  }

  class PersonEscortRecord {
    const frameworkResponses: seq<FrameworkResponse>
    var nomisSyncStatus: seq<SyncStatus>

    constructor (frameworkResponses: seq<FrameworkResponse>)
      ensures this.frameworkResponses == frameworkResponses && nomisSyncStatus == []
    {
      this.frameworkResponses := frameworkResponses;
      nomisSyncStatus := [];
    }
  }

  /** All codes of the responses, response by response. */
  function AllCodes(responses: seq<FrameworkResponse>): seq<NomisCode> {
    if responses == [] then []
    else AllCodes(responses[..|responses| - 1]) + responses[|responses| - 1].nomisCodes
  }

  /** The mappings a response receives from the table built for the record. */
  function ResponseMappings(table: Table, r: FrameworkResponse): seq<Mapping> {
    SliceValues(table, CodeIds(r.nomisCodes))
  }

  /** Builds the table by walking the mappings and, for each, the codes it goes to. */
  method BuildTableLoop(codes: seq<NomisCode>, ms: seq<Mapping>) returns (table: Table)
    ensures table == BuildTable(codes, ms)
  {
    table := map[];
    var i := 0;
    while i < |ms|
      invariant 0 <= i <= |ms|
      invariant table == BuildTable(codes, ms[..i])
    {
      var m := ms[i];
      var exact := MatchingCodes(codes, m);
      assert ms[..i + 1][..i] == ms[..i];
      if exact != [] {
        ghost var start := table;
        var j := 0;
        while j < |exact|
          invariant 0 <= j <= |exact|
          invariant table == AppendEach(start, exact[..j], m)
        {
          assert exact[..j + 1][..j] == exact[..j];
          table := table[exact[j].id := Lookup(table, exact[j].id) + [m]];
          j := j + 1;
        }
        assert exact[..j] == exact;
      } else {
        var fallback := FirstFallback(codes, m.codeType);
        if fallback.Some? {
          table := table[fallback.value.id := Lookup(table, fallback.value.id) + [m]];
        }
      }
      i := i + 1;
    }
    assert ms[..i] == ms;
  }

  /** Gives each response the mappings of its codes. */
  method AssignMappings(responses: seq<FrameworkResponse>, table: Table)
    modifies responses
    ensures forall r :: r in responses ==> r.nomisMappings == ResponseMappings(table, r)
  {
    var i := 0;
    while i < |responses|
      invariant 0 <= i <= |responses|
      invariant forall k :: 0 <= k < i ==> responses[k].nomisMappings == ResponseMappings(table, responses[k])
    {
      responses[i].nomisMappings := SliceValues(table, CodeIds(responses[i].nomisCodes));
      i := i + 1;
    }
  }

  datatype Outcome = Skipped | NothingPersisted | Updated

  /** The import for one record. `persisted` are the mappings persisted from
      the alerts, personal care needs and reasonable adjustments fetched from
      NOMIS, and the three statuses are those sources' reports. Nothing is done
      without a record, responses or codes, nor when nothing was persisted;
      otherwise every response receives its codes' mappings and the record the
      three statuses in source order. */
  method Call(per: PersonEscortRecord?, persisted: seq<Mapping>,
              alertsStatus: SyncStatus, personalCareNeedsStatus: SyncStatus, reasonableAdjustmentsStatus: SyncStatus)
    returns (outcome: Outcome)
    modifies per, if per == null then [] else per.frameworkResponses
    ensures per == null || per.frameworkResponses == [] || AllCodes(per.frameworkResponses) == [] <==> outcome == Skipped
    ensures outcome == NothingPersisted <==> outcome != Skipped && persisted == []
    ensures outcome != Updated ==>
              per == null || (per.nomisSyncStatus == old(per.nomisSyncStatus) &&
                              forall r :: r in per.frameworkResponses ==> r.nomisMappings == old(r.nomisMappings))
    ensures outcome == Updated ==>
              per != null &&
              per.nomisSyncStatus == [alertsStatus, personalCareNeedsStatus, reasonableAdjustmentsStatus] &&
              forall r :: r in per.frameworkResponses ==>
                r.nomisMappings == ResponseMappings(BuildTable(AllCodes(per.frameworkResponses), persisted), r)
  {
    if per == null || per.frameworkResponses == [] || AllCodes(per.frameworkResponses) == [] {
      return Skipped;
    }
    if persisted == [] {
      return NothingPersisted;
    }
    var table := BuildTableLoop(AllCodes(per.frameworkResponses), persisted);
    AssignMappings(per.frameworkResponses, table);
    per.nomisSyncStatus := [alertsStatus, personalCareNeedsStatus, reasonableAdjustmentsStatus];
    outcome := Updated;
  }
}
