/** Compiling Mission outputs into Airtable record proposals, and batching them. */
module RecordProposals {
  import opened Wrappers
  import opened Machine
  import opened Sequences
  import opened StringOrder

  const MAX_BATCH := 10

  datatype StableField =
    | MissionId | ProjectId | WorkProductId | OutcomeCandidateId | OutputKind
    | Revision | Title | Summary | ContentFingerprint | IdempotencyKey

  /** Where the field stands in the declaration, which is the order of the allowlist. */
  function Position(f: StableField): nat {
    match f
    case MissionId => 0
    case ProjectId => 1
    case WorkProductId => 2
    case OutcomeCandidateId => 3
    case OutputKind => 4
    case Revision => 5
    case Title => 6
    case Summary => 7
    case ContentFingerprint => 8
    case IdempotencyKey => 9
  }

  datatype FieldType =
    | SingleLineText | MultilineText | Number | Checkbox | DateTimeType | UrlType | EmailType | SingleSelect
        | MultipleSelect | UnknownType

  datatype Value = Text(text: string) | Integer(n: int) | Boolean(b: bool) | DateTime(t: string) | Url(u: string)
        | Email(e: string)

  predicate Accepts(t: FieldType, v: Value) {
    match v
    case Text(_) => t.SingleLineText? || t.MultilineText? || t.SingleSelect? || t.MultipleSelect?
    case Integer(_) => t.Number?
    case Boolean(_) => t.Checkbox?
    case DateTime(_) => t.DateTimeType?
    case Url(_) => t.UrlType?
    case Email(_) => t.EmailType?
  }

  datatype FieldDefinition = FieldDefinition(id: string, name: string, fieldType: FieldType, writable: bool)

  /** A table schema; `sealed` says that both stored fingerprints match its content. */
  datatype Schema = Schema(scope: string, fields: seq<FieldDefinition>, sealed: bool)

  predicate ValidSchema(s: Schema) {
    s.sealed && forall i :: 0 < i < |s.fields| ==> Less(s.fields[i - 1].id, s.fields[i].id)
  }

  /** `AirtableTableSchema::field`: the first definition with the id. */
  function FindField(fields: seq<FieldDefinition>, id: string): (r: Option<FieldDefinition>)
    ensures r.Some? ==> r.value in fields && r.value.id == id
    ensures r.None? ==> forall d :: d in fields ==> d.id != id
  {
    if fields == [] then None
    else if fields[0].id == id then Some(fields[0])
    else FindField(fields[1..], id)
  }

  datatype Binding = Binding(stable: StableField, fieldId: string, fieldName: string, fieldType: FieldType)

  datatype Entry = Entry(key: StableField, binding: Binding)

  predicate InKeyOrder(entries: seq<Entry>) {
    forall i, j :: 0 <= i < j < |entries| ==> Position(entries[i].key) < Position(entries[j].key)
  }

  /** An ordered map from stable fields to bindings, as the list of its entries. */
  type Allowlist = entries: seq<Entry> | InKeyOrder(entries) witness []

  /** The entry names a writable field of the schema as it is today. */
  predicate Binds(e: Entry, s: Schema) {
    var d := FindField(s.fields, e.binding.fieldId);
    && e.key == e.binding.stable && d.Some?
    && d.value.name == e.binding.fieldName && d.value.fieldType == e.binding.fieldType && d.value.writable
  }

  ghost predicate ValidAllowlist(a: Allowlist, s: Schema) {
    ValidSchema(s) && AllBind(a, s, |a|) && DistinctNames(a, |a|)
  }

  ghost predicate AllBind(a: seq<Entry>, s: Schema, n: nat)
    requires n <= |a|
  {
    forall i :: 0 <= i < n ==> Binds(a[i], s)
  }

  /** `names` are the names of the first `n` entries. */
  ghost predicate AreNames(a: seq<Entry>, n: nat, names: set<string>)
    requires n <= |a|
  {
    forall name :: name in names <==> exists i :: 0 <= i < n && a[i].binding.fieldName == name
  }

  ghost predicate DistinctNames(a: seq<Entry>, n: nat)
    requires n <= |a|
  {
    forall i, j :: 0 <= i < j < n ==> a[i].binding.fieldName != a[j].binding.fieldName
  }

  lemma NamesSnoc(a: seq<Entry>, n: nat, names: set<string>)
    requires n < |a| && AreNames(a, n, names)
    ensures AreNames(a, n + 1, names + {a[n].binding.fieldName})
  {
    forall name ensures name in names + {a[n].binding.fieldName} <==>
        exists i :: 0 <= i < n + 1 && a[i].binding.fieldName == name
    {
      if name in names {
        var i :| 0 <= i < n && a[i].binding.fieldName == name;
        assert 0 <= i < n + 1;
      }
    }
  }

  lemma DistinctSnoc(a: seq<Entry>, n: nat, names: set<string>)
    requires n < |a| && AreNames(a, n, names) && DistinctNames(a, n)
    ensures DistinctNames(a, n + 1) <==> a[n].binding.fieldName !in names
  {
    if a[n].binding.fieldName in names {
      var i :| 0 <= i < n && a[i].binding.fieldName == a[n].binding.fieldName;
    }
  }

  /** `AirtableFieldAllowlist::validate`. */
  method ValidateAllowlist(a: Allowlist, s: Schema) returns (ok: bool)
    ensures ok <==> ValidAllowlist(a, s)
  {
    if !ValidSchema(s) {
      return false;
    }
    var names: set<string> := {};
    for n := 0 to |a|
      invariant AllBind(a, s, n) && AreNames(a, n, names) && DistinctNames(a, n)
    {
      DistinctSnoc(a, n, names);
      NamesSnoc(a, n, names);
      if !Binds(a[n], s) || a[n].binding.fieldName in names {
        return false;
      }
      names := names + {a[n].binding.fieldName};
    }
    return true;
  }

  /** Unique names already make the targets distinct, because the id fixes the name. */
  lemma TargetsAreDistinct(a: Allowlist, s: Schema, i: nat, j: nat)
    requires ValidAllowlist(a, s) && i < j < |a|
    ensures a[i].binding.fieldId != a[j].binding.fieldId
  {
    assert Binds(a[i], s) && Binds(a[j], s);
  }

  predicate Allows(a: Allowlist, f: StableField) {
    exists i :: 0 <= i < |a| && a[i].key == f
  }

  datatype Kind = WorkProduct | OutcomeCandidate

  datatype Output = Output(kind: Kind, mission: string, project: string, id: string, revision: nat, title: string,
        summary: string)

  /** `stable_value`. */
  function StableValue(f: StableField, o: Output, content: string, idempotency: string): Option<Value> {
    match f
    case MissionId => Some(Text(o.mission))
    case ProjectId => Some(Text(o.project))
    case WorkProductId => if o.kind.WorkProduct? then Some(Text(o.id)) else None
    case OutcomeCandidateId => if o.kind.OutcomeCandidate? then Some(Text(o.id)) else None
    case OutputKind => Some(Text(if o.kind.WorkProduct? then "work_product" else "outcome_candidate"))
    case Revision => if o.revision <= I64_MAX then Some(Integer(o.revision)) else None
    case Title => Some(Text(o.title))
    case Summary => Some(Text(o.summary))
    case ContentFingerprint => Some(Text(content))
    case IdempotencyKey => Some(Text(idempotency))
  }

  /** The fields every proposal must be allowed to carry. */
  function RequiredList(kind: Kind): seq<StableField> {
    [ MissionId, ProjectId, Revision, ContentFingerprint, IdempotencyKey,
      if kind.WorkProduct? then WorkProductId else OutcomeCandidateId ]
  }

  function RequiredFields(kind: Kind): set<StableField> {
    {MissionId, ProjectId, Revision, ContentFingerprint, IdempotencyKey}
    + (if kind.WorkProduct? then {WorkProductId} else {OutcomeCandidateId})
  }

  datatype ProposedField = ProposedField(stable: StableField, fieldId: string, fieldName: string, fieldType: FieldType,
        value: Value)

  datatype CompileError = ScopeMismatch | InvalidAllowlist | MissingIdentity | TypeMismatch

  /** `p` proposes the value of entry `e` to the field that `e` binds. */
  predicate Proposes(e: Entry, o: Output, content: string, key: string, p: ProposedField) {
    && p == ProposedField(e.key, e.binding.fieldId, e.binding.fieldName, e.binding.fieldType, p.value)
    && StableValue(e.key, o, content, key) == Some(p.value)
    && Accepts(p.fieldType, p.value)
  }

  predicate AllowsAll(a: Allowlist, fs: set<StableField>) {
    forall f :: f in fs ==> Allows(a, f)
  }

  ghost predicate CarriesAll(fields: seq<ProposedField>, fs: set<StableField>) {
    forall f :: f in fs ==> Carries(fields, f)
  }

  ghost predicate Carries(fields: seq<ProposedField>, f: StableField) {
    exists i :: 0 <= i < |fields| && fields[i].stable == f
  }

  ghost predicate Backed(a: Allowlist, o: Output, content: string, key: string, p: ProposedField) {
    exists i :: 0 <= i < |a| && Proposes(a[i], o, content, key, p)
  }

  /** `fields` proposes, in order, every allowed stable field that has a value. */
  ghost predicate IsProposal(a: Allowlist, o: Output, content: string, key: string, fields: seq<ProposedField>) {
    && (forall i, j :: 0 <= i < j < |fields| ==> Position(fields[i].stable) < Position(fields[j].stable))
    && (forall i :: 0 <= i < |fields| ==> Backed(a, o, content, key, fields[i]))
    && forall i :: 0 <= i < |a| && StableValue(a[i].key, o, content, key).Some? ==> Carries(fields, a[i].key)
  }

  predicate Fits(e: Entry, o: Output, content: string, key: string) {
    match StableValue(e.key, o, content, key) case None => true case Some(v) => Accepts(e.binding.fieldType, v)
  }

  ghost predicate Compiles(scope: string, s: Schema, a: Allowlist, o: Output, content: string, key: string) {
    && s.scope == scope && ValidAllowlist(a, s)
    && AllowsAll(a, RequiredFields(o.kind))
    && forall i :: 0 <= i < |a| ==> Fits(a[i], o, content, key)
  }

  /** `fields` is the proposal of the first `n` entries. */
  ghost predicate ProposedSoFar(a: Allowlist, o: Output, content: string, key: string, n: nat,
        fields: seq<ProposedField>) {
    && n <= |a|
    && (forall i :: 0 <= i < |fields| ==> Backed(a, o, content, key, fields[i]))
    && (forall i, j :: 0 <= i < |fields| && n <= j < |a| ==> Position(fields[i].stable) < Position(a[j].key))
    && (forall i, j :: 0 <= i < j < |fields| ==> Position(fields[i].stable) < Position(fields[j].stable))
    && forall i :: 0 <= i < n && StableValue(a[i].key, o, content, key).Some? ==> Carries(fields, a[i].key)
  }

  lemma ProposeNext(a: Allowlist, o: Output, content: string, key: string, n: nat, fields: seq<ProposedField>,
        p: ProposedField)
    requires ProposedSoFar(a, o, content, key, n, fields) && n < |a| && Proposes(a[n], o, content, key, p)
    ensures ProposedSoFar(a, o, content, key, n + 1, fields + [p])
  {
    CarriesMore(fields, p);
    var more := fields + [p];
    assert forall i :: 0 <= i < |fields| ==> more[i] == fields[i];
    assert more[|fields|] == p && Backed(a, o, content, key, p);
  }

  /** The loop of `compile_record_proposal`. */
  method ProposeFields(a: Allowlist, o: Output, content: string, key: string) returns (r: Option<seq<ProposedField>>)
    ensures r.Some? <==> forall i :: 0 <= i < |a| ==> Fits(a[i], o, content, key)
    ensures r.Some? ==> IsProposal(a, o, content, key, r.value)
  {
    var fields: seq<ProposedField> := [];
    for n := 0 to |a|
      invariant forall i :: 0 <= i < n ==> Fits(a[i], o, content, key)
      invariant ProposedSoFar(a, o, content, key, n, fields)
    {
      var e := a[n];
      if !Fits(e, o, content, key) {
        return None;
      }
      var value := StableValue(e.key, o, content, key);
      if value.Some? {
        var p := ProposedField(e.key, e.binding.fieldId, e.binding.fieldName, e.binding.fieldType, value.value);
        ProposeNext(a, o, content, key, n, fields, p);
        fields := fields + [p];
      }
    }
    return Some(fields);
  }

  lemma CarriesMore(fields: seq<ProposedField>, p: ProposedField)
    ensures Carries(fields + [p], p.stable)
    ensures forall f :: Carries(fields, f) ==> Carries(fields + [p], f)
  {
    assert (fields + [p])[|fields|] == p;
    forall f | Carries(fields, f) ensures Carries(fields + [p], f)
    {
      var i :| 0 <= i < |fields| && fields[i].stable == f;
      assert (fields + [p])[i] == fields[i];
    }
  }

  /** `require_identity_allowlist`. */
  method RequireIdentity(a: Allowlist, kind: Kind) returns (ok: bool)
    ensures ok <==> AllowsAll(a, RequiredFields(kind))
  {
    var required := RequiredList(kind);
    for n := 0 to |required|
      invariant forall k :: 0 <= k < n ==> Allows(a, required[k])
    {
      if !Allows(a, required[n]) {
        assert required[n] in RequiredFields(kind);
        return false;
      }
    }
    assert Allows(a, required[0]) && Allows(a, required[1]) && Allows(a, required[2]);
    assert Allows(a, required[3]) && Allows(a, required[4]) && Allows(a, required[5]);
    return true;
  }

  /** `compile_record_proposal`, with the content fingerprint and idempotency key given. */
  method CompileProposal(scope: string, s: Schema, a: Allowlist, o: Output, content: string, key: string)
    returns (r: Result<seq<ProposedField>, CompileError>)
    ensures r.Ok? <==> Compiles(scope, s, a, o, content, key)
    ensures r.Ok? ==> IsProposal(a, o, content, key, r.value)
  {
    if s.scope != scope {
      return Err(ScopeMismatch);
    }
    var valid := ValidateAllowlist(a, s);
    if !valid {
      return Err(InvalidAllowlist);
    }
    var identified := RequireIdentity(a, o.kind);
    if !identified {
      return Err(MissingIdentity);
    }
    var fields := ProposeFields(a, o, content, key);
    return if fields.None? then Err(TypeMismatch) else Ok(fields.value);
  }

  /** Every field of a compiled proposal is a writable, current field of the schema and accepts the value. */
  lemma TargetIsWritable(a: Allowlist, s: Schema, o: Output, content: string, key: string, fields: seq<ProposedField>,
        i: nat)
    requires ValidAllowlist(a, s) && IsProposal(a, o, content, key, fields) && i < |fields|
    ensures
      var p := fields[i];
      FindField(s.fields, p.fieldId) == Some(FieldDefinition(p.fieldId, p.fieldName, p.fieldType, true))
          && Accepts(p.fieldType, p.value)
  {
    assert Backed(a, o, content, key, fields[i]);
    var k :| 0 <= k < |a| && Proposes(a[k], o, content, key, fields[i]);
    assert Binds(a[k], s);
  }

  /** No two fields of a compiled proposal write to the same field. */
  lemma ProposalTargets(
      a: Allowlist, s: Schema, o: Output, content: string, key: string, fields: seq<ProposedField>, i: nat, j: nat)
    requires ValidAllowlist(a, s) && IsProposal(a, o, content, key, fields) && i < j < |fields|
    ensures fields[i].fieldId != fields[j].fieldId
  {
    var k := EntryOf(a, o, content, key, fields, i);
    var l := EntryOf(a, o, content, key, fields, j);
    assert Position(fields[i].stable) < Position(fields[j].stable);
    if k < l {
      TargetsAreDistinct(a, s, k, l);
    } else if l < k {
      TargetsAreDistinct(a, s, l, k);
    }
  }

  /** The entry that field `i` of a proposal comes from. */
  lemma EntryOf(a: Allowlist, o: Output, content: string, key: string, fields: seq<ProposedField>, i: nat)
        returns (k: nat)
    requires IsProposal(a, o, content, key, fields) && i < |fields|
    ensures k < |a| && fields[i].fieldId == a[k].binding.fieldId && fields[i].stable == a[k].key
  {
    assert Backed(a, o, content, key, fields[i]);
    k :| 0 <= k < |a| && Proposes(a[k], o, content, key, fields[i]);
  }

  /** Every required identity field is proposed exactly when the revision fits a signed 64-bit integer. */
  lemma IdentityIsCompleteIff(a: Allowlist, o: Output, content: string, key: string, fields: seq<ProposedField>)
    requires IsProposal(a, o, content, key, fields)
    requires AllowsAll(a, RequiredFields(o.kind))
    ensures CarriesAll(fields, RequiredFields(o.kind)) <==> o.revision <= I64_MAX
  {
    CompleteIff(a, o, content, key, fields, RequiredFields(o.kind));
  }

  lemma CompleteIff(a: Allowlist, o: Output, content: string, key: string, fields: seq<ProposedField>,
        fs: set<StableField>)
    requires IsProposal(a, o, content, key, fields) && AllowsAll(a, fs) && Revision in fs
    requires forall f :: f in fs ==> f == Revision || StableValue(f, o, content, key).Some?
    ensures CarriesAll(fields, fs) <==> o.revision <= I64_MAX
  {
    if o.revision > I64_MAX {
      RevisionIsDropped(a, o, content, key, fields);
    } else {
      forall f | f in fs ensures Carries(fields, f)
      {
        AllowedIsCarried(a, o, content, key, fields, f);
      }
    }
  }

  lemma AllowedIsCarried(a: Allowlist, o: Output, content: string, key: string, fields: seq<ProposedField>,
        f: StableField)
    requires IsProposal(a, o, content, key, fields) && Allows(a, f) && StableValue(f, o, content, key).Some?
    ensures Carries(fields, f)
  {
    var i :| 0 <= i < |a| && a[i].key == f;
  }

  lemma {:induction false} FindAt(fields: seq<FieldDefinition>, i: nat)
    requires i < |fields| && forall j :: 0 <= j < i ==> fields[j].id != fields[i].id
    ensures FindField(fields, fields[i].id) == Some(fields[i])
    decreases i
  {
    if i > 0 {
      FindAt(fields[1..], i - 1);
    }
  }

  /** The required fields of a work product, in order. */
  function SampleKeys(): (keys: seq<StableField>)
    ensures |keys| == 6 && forall i, j :: 0 <= i < j < 6 ==> Position(keys[i]) < Position(keys[j])
  {
    [MissionId, ProjectId, WorkProductId, Revision, ContentFingerprint, IdempotencyKey]
  }

  function SampleId(i: nat): (id: string)
    requires i < 6
    ensures |id| == 1 && id[0] == "123456"[i]
  {
    ["123456"[i]]
  }

  function SampleType(f: StableField): FieldType {
    if f.Revision? then Number else SingleLineText
  }

  function SampleAllowlist(): (a: Allowlist)
    ensures |a| == 6
    ensures forall i :: 0 <= i < 6 ==>
              a[i] == Entry(SampleKeys()[i],
                  Binding(SampleKeys()[i], SampleId(i), SampleId(i), SampleType(SampleKeys()[i])))
  {
    var entries := seq(6, i requires 0 <= i < 6 =>
      Entry(SampleKeys()[i], Binding(SampleKeys()[i], SampleId(i), SampleId(i), SampleType(SampleKeys()[i]))));
    assert InKeyOrder(entries);
    entries
  }

  function SampleSchema(): (s: Schema)
    ensures s.scope == "scope" && s.sealed && |s.fields| == 6
    ensures forall i :: 0 <= i < 6 ==>
        s.fields[i] == FieldDefinition(SampleId(i), SampleId(i), SampleType(SampleKeys()[i]), true)
  {
    Schema("scope",
           seq(6, i requires 0 <= i < 6 =>
               FieldDefinition(SampleId(i), SampleId(i), SampleType(SampleKeys()[i]), true)),
           true)
  }

  function LargeRevision(): Output {
    Output(WorkProduct, "m", "p", "w", I64_MAX + 1, "t", "s")
  }

  lemma SampleIdsInOrder(i: nat, j: nat)
    requires i < j < 6
    ensures Less(SampleId(i), SampleId(j)) && SampleId(i) != SampleId(j)
  {
    var digits := "123456";
    assert digits[i] < digits[j];
  }

  lemma SampleIdsDiffer(i: nat, j: nat)
    requires i < 6 && j < 6 && i != j
    ensures SampleId(i) != SampleId(j)
  {
    if i < j { SampleIdsInOrder(i, j); } else { SampleIdsInOrder(j, i); }
  }

  lemma SampleSchemaIsValid()
    ensures ValidSchema(SampleSchema())
  {
    var fields := SampleSchema().fields;
    forall i | 0 < i < 6 ensures Less(fields[i - 1].id, fields[i].id)
    {
      SampleIdsInOrder(i - 1, i);
    }
  }

  lemma SampleBinds(i: nat)
    requires i < 6
    ensures Binds(SampleAllowlist()[i], SampleSchema())
  {
    var fields := SampleSchema().fields;
    forall j | 0 <= j < i ensures fields[j].id != fields[i].id
    {
      SampleIdsDiffer(i, j);
    }
    FindAt(fields, i);
  }

  lemma SampleIsValid()
    ensures ValidAllowlist(SampleAllowlist(), SampleSchema())
  {
    var a := SampleAllowlist();
    SampleSchemaIsValid();
    forall i | 0 <= i < |a| ensures Binds(a[i], SampleSchema())
    {
      SampleBinds(i);
    }
    forall i, j | 0 <= i < j < |a| ensures a[i].binding.fieldName != a[j].binding.fieldName
    {
      SampleIdsDiffer(i, j);
    }
  }

  lemma SampleAllows()
    ensures AllowsAll(SampleAllowlist(), RequiredFields(WorkProduct))
  {
    var a := SampleAllowlist();
    assert a[0].key == MissionId && a[1].key == ProjectId && a[2].key == WorkProductId;
    assert a[3].key == Revision && a[4].key == ContentFingerprint && a[5].key == IdempotencyKey;
  }

  lemma SampleFits(content: string, key: string, i: nat)
    requires i < 6
    ensures Fits(SampleAllowlist()[i], LargeRevision(), content, key)
  {
    var e := SampleAllowlist()[i];
    assert e.binding.fieldType == SampleType(e.key);
  }

  /** A revision beyond the signed range is never proposed. */
  lemma RevisionIsDropped(a: Allowlist, o: Output, content: string, key: string, fields: seq<ProposedField>)
    requires IsProposal(a, o, content, key, fields) && o.revision > I64_MAX
    ensures !Carries(fields, Revision)
  {
    forall i | 0 <= i < |fields| ensures fields[i].stable != Revision
    {
      assert Backed(a, o, content, key, fields[i]);
    }
  }

  /** A revision of 2^63 compiles, although the proposal then says nothing about the revision. */
  lemma LargeRevisionCompiles(content: string, key: string)
    ensures Compiles("scope", SampleSchema(), SampleAllowlist(), LargeRevision(), content, key)
  {
    SampleIsValid();
    SampleAllows();
    forall i | 0 <= i < 6 ensures Fits(SampleAllowlist()[i], LargeRevision(), content, key)
    {
      SampleFits(content, key, i);
    }
  }

  /** What a proposal says about a stable field. */
  function ValueOf(fields: seq<ProposedField>, f: StableField): (r: Option<Value>)
    ensures r.Some? ==> exists i :: 0 <= i < |fields| && fields[i].stable == f && fields[i].value == r.value
    ensures r.None? ==> !Carries(fields, f)
  {
    if fields == [] then None
    else if fields[0].stable == f then Some(fields[0].value)
    else ValueOf(fields[1..], f)
  }

  datatype Identity = Identity(kind: Kind, mission: string, project: string, id: string, revision: int, content: string,
        key: string)

  predicate AreTexts(values: seq<Option<Value>>) {
    forall i :: 0 <= i < |values| ==> values[i].Some? && values[i].value.Text?
  }

  /** The identity of an output, from the value of each stable field. */
  ghost function IdentityFrom(value: StableField -> Option<Value>): Option<Identity> {
    var product, candidate, revision := value(WorkProductId), value(OutcomeCandidateId), value(Revision);
    var texts := [value(MissionId), value(ProjectId), value(ContentFingerprint), value(IdempotencyKey),
                  if product.Some? then product else candidate];
    if AreTexts(texts) && (product.None? || candidate.None?) && revision.Some? && revision.value.Integer? then
      Some(Identity(if product.Some? then WorkProduct else OutcomeCandidate, texts[0].value.text, texts[1].value.text,
                    texts[4].value.text, revision.value.n, texts[2].value.text, texts[3].value.text))
    else None
  }

  const IDENTITY_FIELDS := {MissionId, ProjectId, WorkProductId, OutcomeCandidateId, Revision, ContentFingerprint,
      IdempotencyKey}

  lemma SameIdentity(a: StableField -> Option<Value>, b: StableField -> Option<Value>)
    requires forall f :: f in IDENTITY_FIELDS ==> a(f) == b(f)
    ensures IdentityFrom(a) == IdentityFrom(b)
  {
    assert a(MissionId) == b(MissionId) && a(ProjectId) == b(ProjectId);
    assert a(WorkProductId) == b(WorkProductId) && a(OutcomeCandidateId) == b(OutcomeCandidateId);
    assert a(ContentFingerprint) == b(ContentFingerprint) && a(IdempotencyKey) == b(IdempotencyKey);
    assert a(Revision) == b(Revision);
  }

  lemma IdentityOfOutput(o: Output, content: string, key: string)
    ensures IdentityFrom(f => StableValue(f, o, content, key)) ==
            if o.revision <= I64_MAX then Some(Identity(o.kind, o.mission, o.project, o.id, o.revision, content, key))
                else None
  {
  }

  /** Read the identity of the output back from a record. */
  ghost function ReadIdentity(fields: seq<ProposedField>): Option<Identity> {
    IdentityFrom(f => ValueOf(fields, f))
  }

  lemma ProposedValue(a: Allowlist, o: Output, content: string, key: string, fields: seq<ProposedField>, f: StableField)
    requires IsProposal(a, o, content, key, fields)
    requires Allows(a, f) || StableValue(f, o, content, key).None?
    ensures ValueOf(fields, f) == StableValue(f, o, content, key)
  {
    if ValueOf(fields, f).Some? {
      var i :| 0 <= i < |fields| && fields[i].stable == f && fields[i].value == ValueOf(fields, f).value;
      assert Backed(a, o, content, key, fields[i]);
    }
  }

  /** The output can be told from its proposal exactly when the revision fits a signed 64-bit integer. */
  lemma IdentityRoundTripIff(a: Allowlist, o: Output, content: string, key: string, fields: seq<ProposedField>)
    requires IsProposal(a, o, content, key, fields)
    requires AllowsAll(a, RequiredFields(o.kind))
    ensures ReadIdentity(fields) ==
            if o.revision <= I64_MAX then Some(Identity(o.kind, o.mission, o.project, o.id, o.revision, content, key))
                else None
  {
    var proposed, meant := (f: StableField) => ValueOf(fields, f), (f: StableField) => StableValue(f, o, content, key);
    forall f | f in IDENTITY_FIELDS ensures proposed(f) == meant(f)
    {
      ProposedValue(a, o, content, key, fields, f);
    }
    SameIdentity(proposed, meant);
    IdentityOfOutput(o, content, key);
  }

  function Concat<T>(batches: seq<seq<T>>): seq<T> {
    if batches == [] then [] else Concat(batches[..|batches| - 1]) + batches[|batches| - 1]
  }

  /** Every batch but the last is full, and no batch is empty. */
  ghost predicate WellBatched<T>(batches: seq<seq<T>>) {
    && (forall i :: 0 <= i < |batches| ==> 1 <= |batches[i]| <= MAX_BATCH)
    && forall i :: 0 <= i < |batches| - 1 ==> |batches[i]| == MAX_BATCH
  }

  /** `AirtableRecordBatch::partition`. */
  method Partition<T>(proposals: seq<T>) returns (batches: seq<seq<T>>)
    ensures Concat(batches) == proposals && WellBatched(batches)
  {
    batches := [];
    for n := 0 to |proposals|
      invariant Concat(batches) == proposals[..n] && WellBatched(batches)
    {
      var last := |batches| - 1;
      if batches == [] || |batches[last]| == MAX_BATCH {
        ghost var before := batches;
        batches := batches + [[proposals[n]]];
        assert batches[..|before|] == before;
      } else {
        ghost var before := batches;
        batches := batches[last := batches[last] + [proposals[n]]];
        assert batches[..last] == before[..last];
        Associative(Concat(before[..last]), before[last], [proposals[n]]);
      }
      assert proposals[..n + 1] == proposals[..n] + [proposals[n]];
    }
    assert proposals[..|proposals|] == proposals;
  }

  /** The number of batches is the number of proposals over ten, rounded up. */
  lemma {:induction false} BatchCount<T>(batches: seq<seq<T>>)
    requires WellBatched(batches)
    ensures |batches| == (|Concat(batches)| + MAX_BATCH - 1) / MAX_BATCH
    decreases |batches|
  {
    if batches != [] {
      AllButLastFull(batches[..|batches| - 1]);
    }
  }

  lemma {:induction false} AllButLastFull<T>(batches: seq<seq<T>>)
    requires forall i :: 0 <= i < |batches| ==> |batches[i]| == MAX_BATCH
    ensures |Concat(batches)| == MAX_BATCH * |batches|
    decreases |batches|
  {
    if batches != [] {
      AllButLastFull(batches[..|batches| - 1]);
    }
  }
}
