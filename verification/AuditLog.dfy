/** The audit log entity: what a create builder writes and what a row scan reads back
    (internal/ent/auditlog.go, internal/ent/auditlog_create.go). Column names are constructors of
    Column; the zero time is 0; JSON values are opaque. */
module AuditLog {
  import opened Prelude

  type Time = int
  type Json = int

  const ZERO_TIME: Time := 0

  /** A Go map: nil, or made. */
  datatype JsonMap = NilMap | Made(entries: map<string, Json>)

  datatype Column =
    | ID | TenantID | OutletID | ActorUserID | ActorStaffID | ApproverUserID
    | Action | EntityType | EntityID | Reason | BeforeJSON | AfterJSON | Amount | Metadata | CreatedAt
    | Other(name: string)

  const COLUMNS: seq<Column> := [
    ID, TenantID, OutletID, ActorUserID, ActorStaffID, ApproverUserID,
    Action, EntityType, EntityID, Reason, BeforeJSON, AfterJSON, Amount, Metadata, CreatedAt]

  /** The fields that a mutation has set. */
  datatype Fields = Fields(
    id: Option<UUID>, tenantID: Option<UUID>, outletID: Option<UUID>, actorUserID: Option<UUID>,
    actorStaffID: Option<UUID>, approverUserID: Option<UUID>, action: Option<string>,
    entityType: Option<string>, entityID: Option<string>, reason: Option<string>,
    beforeJSON: Option<JsonMap>, afterJSON: Option<JsonMap>, amount: Option<real>,
    metadata: Option<JsonMap>, createdAt: Option<Time>)

  /** JSON text: nothing, the faithful encoding of a map (a nil map is "null"), or no JSON at all. */
  datatype JsonText = Blank | Encoded(value: JsonMap) | Garbled

  datatype DbValue =
    | Null | Uuid(id: UUID) | Text(text: string) | Number(number: real) | Instant(time: Time) | Bytes(json: JsonText)

  /** Destinations handed to the driver. */
  datatype Dest =
    | NullableUuid(valid: bool, id: UUID)
    | RawBytes(json: JsonText)
    | NullFloat(valid: bool, number: real)
    | NullString(valid: bool, text: string)
    | NullTime(valid: bool, time: Time)
    | PlainUuid(id: UUID)
    | Unknown(value: DbValue)

  /** The entity. A nillable field is an Option; the others have zero values. */
  datatype Node = Node(
    id: UUID, tenantID: UUID, outletID: Option<UUID>, actorUserID: UUID,
    actorStaffID: Option<UUID>, approverUserID: Option<UUID>, action: string,
    entityType: string, entityID: string, reason: string,
    beforeJSON: JsonMap, afterJSON: JsonMap, amount: Option<real>,
    metadata: JsonMap, createdAt: Time, selectValues: map<string, Dest>)

  const ZERO_NODE := Node(NIL_UUID, NIL_UUID, None, NIL_UUID, None, None, "", "", "", "",
                          NilMap, NilMap, None, NilMap, ZERO_TIME, map[])

  type Spec = map<Column, DbValue>

  // ---------------------------------------------------------------- creating

  datatype ValidationError = Missing(column: Column) | Invalid(column: Column)

  function Defaults(f: Fields, now: Time, newID: UUID): Fields {
    f.(createdAt := if f.createdAt.Some? then f.createdAt else Some(now),
       id := if f.id.Some? then f.id else Some(newID))
  }

  function Check(f: Fields): Option<ValidationError> {
    if f.tenantID.None? then Some(Missing(TenantID))
    else if f.actorUserID.None? then Some(Missing(ActorUserID))
    else if f.action.None? then Some(Missing(Action))
    else if f.action.value == "" then Some(Invalid(Action))
    else if f.createdAt.None? then Some(Missing(CreatedAt))
    else None
  }

  function UuidValue(v: Option<UUID>): Option<DbValue> { if v.Some? then Some(Uuid(v.value)) else None }
  function TextValue(v: Option<string>): Option<DbValue> { if v.Some? then Some(Text(v.value)) else None }
  function JsonValue(v: Option<JsonMap>): Option<DbValue> { if v.Some? then Some(Bytes(Encoded(v.value))) else None }
  function NumberValue(v: Option<real>): Option<DbValue> { if v.Some? then Some(Number(v.value)) else None }
  function TimeValue(v: Option<Time>): Option<DbValue> { if v.Some? then Some(Instant(v.value)) else None }

  /** The value a mutation gives a column. */
  function FieldValue(f: Fields, c: Column): Option<DbValue> {
    match c
    case ID => UuidValue(f.id)
    case TenantID => UuidValue(f.tenantID)
    case OutletID => UuidValue(f.outletID)
    case ActorUserID => UuidValue(f.actorUserID)
    case ActorStaffID => UuidValue(f.actorStaffID)
    case ApproverUserID => UuidValue(f.approverUserID)
    case Action => TextValue(f.action)
    case EntityType => TextValue(f.entityType)
    case EntityID => TextValue(f.entityID)
    case Reason => TextValue(f.reason)
    case BeforeJSON => JsonValue(f.beforeJSON)
    case AfterJSON => JsonValue(f.afterJSON)
    case Amount => NumberValue(f.amount)
    case Metadata => JsonValue(f.metadata)
    case CreatedAt => TimeValue(f.createdAt)
    case Other(_) => None
  }

  function Or<T>(v: Option<T>, zero: T): T { if v.Some? then v.value else zero }

  /** The columns of the insert: only fields that were set are listed. */
  function SpecOf(f: Fields): Spec {
    map c | c in COLUMNS && FieldValue(f, c).Some? :: FieldValue(f, c).value
  }

  /** The node handed back to the caller of a create. */
  function NodeOf(f: Fields): Node {
    Node(Or(f.id, NIL_UUID), Or(f.tenantID, NIL_UUID), f.outletID, Or(f.actorUserID, NIL_UUID),
         f.actorStaffID, f.approverUserID, Or(f.action, ""), Or(f.entityType, ""), Or(f.entityID, ""), Or(f.reason, ""),
         Or(f.beforeJSON, NilMap), Or(f.afterJSON, NilMap), f.amount, Or(f.metadata, NilMap),
         Or(f.createdAt, ZERO_TIME), map[])
  }

  lemma EveryColumnIsListed(c: Column)
    requires !c.Other?
    ensures c in COLUMNS
  {
    var i := match c
             case ID => 0 case TenantID => 1 case OutletID => 2 case ActorUserID => 3 case ActorStaffID => 4
             case ApproverUserID => 5 case Action => 6 case EntityType => 7 case EntityID => 8 case Reason => 9
             case BeforeJSON => 10 case AfterJSON => 11 case Amount => 12 case Metadata => 13 case CreatedAt => 14;
    assert COLUMNS[i] == c;
  }

  /** Column c of the insert: there exactly if the field was set, and then with this value. */
  predicate Writes(spec: Spec, c: Column, value: Option<DbValue>) {
    if value.None? then c !in spec else c in spec && spec[c] == value.value
  }

  lemma ListedIfSet(f: Fields)
    ensures forall c :: (c in SpecOf(f) <==> FieldValue(f, c).Some?)
    ensures forall c :: c in SpecOf(f) ==> SpecOf(f)[c] == FieldValue(f, c).value
  {
    forall c: Column | !c.Other? { EveryColumnIsListed(c); }
  }

  /** The columns of the insert, one by one: */
  lemma WrittenIDs(f: Fields)
    ensures var spec := SpecOf(f);
            && Writes(spec, ID, if f.id.Some? then Some(Uuid(f.id.value)) else None)
            && Writes(spec, TenantID, if f.tenantID.Some? then Some(Uuid(f.tenantID.value)) else None)
            && Writes(spec, OutletID, if f.outletID.Some? then Some(Uuid(f.outletID.value)) else None)
            && Writes(spec, ActorUserID, if f.actorUserID.Some? then Some(Uuid(f.actorUserID.value)) else None)
            && Writes(spec, ActorStaffID, if f.actorStaffID.Some? then Some(Uuid(f.actorStaffID.value)) else None)
            && Writes(spec, ApproverUserID, if f.approverUserID.Some? then Some(Uuid(f.approverUserID.value)) else None)
            && forall name :: Other(name) !in spec
  {
    ListedIfSet(f);
    hide SpecOf;
  }

  lemma WrittenTexts(f: Fields)
    ensures var spec := SpecOf(f);
            && Writes(spec, Action, if f.action.Some? then Some(Text(f.action.value)) else None)
            && Writes(spec, EntityType, if f.entityType.Some? then Some(Text(f.entityType.value)) else None)
            && Writes(spec, EntityID, if f.entityID.Some? then Some(Text(f.entityID.value)) else None)
            && Writes(spec, Reason, if f.reason.Some? then Some(Text(f.reason.value)) else None)
  {
    ListedIfSet(f);
    hide SpecOf;
  }

  lemma WrittenValues(f: Fields)
    ensures var spec := SpecOf(f);
            && Writes(spec, BeforeJSON, if f.beforeJSON.Some? then Some(Bytes(Encoded(f.beforeJSON.value))) else None)
            && Writes(spec, AfterJSON, if f.afterJSON.Some? then Some(Bytes(Encoded(f.afterJSON.value))) else None)
            && Writes(spec, Metadata, if f.metadata.Some? then Some(Bytes(Encoded(f.metadata.value))) else None)
            && Writes(spec, Amount, if f.amount.Some? then Some(Number(f.amount.value)) else None)
            && Writes(spec, CreatedAt, if f.createdAt.Some? then Some(Instant(f.createdAt.value)) else None)
  {
    ListedIfSet(f);
    hide SpecOf;
  }

  /** The node that a create hands back: what was set is as it was set, */
  lemma ReturnedIfSet(f: Fields)
    ensures var n := NodeOf(f);
            && (f.id.Some? ==> n.id == f.id.value) && (f.tenantID.Some? ==> n.tenantID == f.tenantID.value)
            && (f.actorUserID.Some? ==> n.actorUserID == f.actorUserID.value)
            && n.outletID == f.outletID && n.actorStaffID == f.actorStaffID && n.approverUserID == f.approverUserID
            && (f.action.Some? ==> n.action == f.action.value) && (f.reason.Some? ==> n.reason == f.reason.value)
            && (f.entityType.Some? ==> n.entityType == f.entityType.value)
            && (f.entityID.Some? ==> n.entityID == f.entityID.value)
            && (f.beforeJSON.Some? ==> n.beforeJSON == f.beforeJSON.value)
            && (f.afterJSON.Some? ==> n.afterJSON == f.afterJSON.value)
            && (f.metadata.Some? ==> n.metadata == f.metadata.value)
            && n.amount == f.amount && (f.createdAt.Some? ==> n.createdAt == f.createdAt.value)
  {
  }

  /** and what was not is zero. */
  lemma ZeroIfNotSet()
    ensures NodeOf(Fields(None, None, None, None, None, None, None, None, None, None, None, None, None, None, None)) ==
            Node(UUID(0), UUID(0), None, UUID(0), None, None, "", "", "", "", NilMap, NilMap, None, NilMap, 0, map[])
  {
  }

  /** Defaults fill gaps and change nothing else. */
  lemma DefaultsFillGaps(f: Fields, now: Time, newID: UUID)
    ensures var d := Defaults(f, now, newID);
            && d.id == Some(if f.id.Some? then f.id.value else newID)
            && d.createdAt == Some(if f.createdAt.Some? then f.createdAt.value else now)
            && d.(id := f.id, createdAt := f.createdAt) == f
  {
  }

  /** A row that names its tenant, its actor and its time, and an action that is not empty. */
  predicate HasRequired(spec: Spec) {
    && TenantID in spec && ActorUserID in spec && CreatedAt in spec
    && Action in spec && spec[Action].Text? && spec[Action].text != ""
  }

  /** The same of the mutation that such a row is written from. */
  predicate Complete(f: Fields) {
    && f.tenantID.Some? && f.actorUserID.Some? && f.createdAt.Some?
    && f.action.Some? && f.action.value != ""
  }

  lemma CompleteMutationsPass(f: Fields)
    ensures Check(f).None? <==> Complete(f)
    ensures Complete(f) <==> HasRequired(SpecOf(f))
  {
    ListedIfSet(f);
    hide SpecOf;
  }

  /** The error names a required column that is missing, or the action for being empty, and then no column
      before it is at fault. */
  lemma CheckNamesTheFirstFault(f: Fields, c: Column)
    ensures Check(f) == Some(Missing(c)) ==>
              && c in [TenantID, ActorUserID, Action, CreatedAt] && c !in SpecOf(f)
              && (c != TenantID ==> TenantID in SpecOf(f))
              && (c == Action || c == CreatedAt ==> ActorUserID in SpecOf(f))
              && (c == CreatedAt ==> Action in SpecOf(f) && SpecOf(f)[Action] != Text(""))
    ensures Check(f) == Some(Invalid(c)) ==>
              && c == Action && Action in SpecOf(f) && SpecOf(f)[Action] == Text("")
              && TenantID in SpecOf(f) && ActorUserID in SpecOf(f)
  {
    ListedIfSet(f);
    hide SpecOf;
  }

  /** What the database holds for a column of a row that was inserted with a spec. */
  function Stored(spec: Spec, extra: string -> DbValue, c: Column): DbValue {
    if c.Other? then extra(c.name) else if c in spec then spec[c] else Null
  }

  // ---------------------------------------------------------------- scanning

  datatype Kind =
    | NullableUuidKind | RawBytesKind | NullFloatKind | NullStringKind | NullTimeKind | PlainUuidKind | UnknownKind

  function KindOf(d: Dest): Kind {
    match d
    case NullableUuid(_, _) => NullableUuidKind
    case RawBytes(_) => RawBytesKind
    case NullFloat(_, _) => NullFloatKind
    case NullString(_, _) => NullStringKind
    case NullTime(_, _) => NullTimeKind
    case PlainUuid(_) => PlainUuidKind
    case Unknown(_) => UnknownKind
  }

  function Destination(c: Column): Dest {
    match c
    case OutletID | ActorStaffID | ApproverUserID => NullableUuid(false, NIL_UUID)
    case BeforeJSON | AfterJSON | Metadata => RawBytes(Blank)
    case Amount => NullFloat(false, 0.0)
    case Action | EntityType | EntityID | Reason => NullString(false, "")
    case CreatedAt => NullTime(false, ZERO_TIME)
    case ID | TenantID | ActorUserID => PlainUuid(NIL_UUID)
    case Other(_) => Unknown(Null)
  }

  /** The driver's Scan into one destination; None when the value does not fit it. */
  function Scan(d: Dest, v: DbValue): Option<Dest> {
    match (d, v)
    case (NullableUuid(_, _), Null) => Some(NullableUuid(false, NIL_UUID))
    case (NullableUuid(_, _), Uuid(u)) => Some(NullableUuid(true, u))
    case (RawBytes(_), Null) => Some(RawBytes(Blank))
    case (RawBytes(_), Bytes(b)) => Some(RawBytes(b))
    case (NullFloat(_, _), Null) => Some(NullFloat(false, 0.0))
    case (NullFloat(_, _), Number(x)) => Some(NullFloat(true, x))
    case (NullString(_, _), Null) => Some(NullString(false, ""))
    case (NullString(_, _), Text(s)) => Some(NullString(true, s))
    case (NullTime(_, _), Null) => Some(NullTime(false, ZERO_TIME))
    case (NullTime(_, _), Instant(t)) => Some(NullTime(true, t))
    case (PlainUuid(u), Null) => Some(PlainUuid(u))
    case (PlainUuid(_), Uuid(u)) => Some(PlainUuid(u))
    case (Unknown(_), _) => Some(Unknown(v))
    case _ => None
  }

  datatype AssignError = TooFewValues | UnexpectedType(column: Column) | BadJson(column: Column)

  /** The entity after assigning, and the error that cut it short, if any. */
  datatype Assigned = Assigned(node: Node, error: Option<AssignError>)

  /** json.Unmarshal into an existing map: "null" makes it nil, an object adds to it. */
  function Merged(was: JsonMap, value: JsonMap): JsonMap {
    if was.NilMap? || value.NilMap? then value else Made(was.entries + value.entries)
  }

  function AssignJson(n: Node, c: Column, was: JsonMap, text: JsonText, assign: JsonMap -> Node): Assigned {
    match text
    case Blank => Assigned(n, None)
    case Garbled => Assigned(n, Some(BadJson(c)))
    case Encoded(value) => Assigned(assign(Merged(was, value)), None)
  }

  function AssignOne(n: Node, c: Column, d: Dest): Assigned {
    match (c, d)
    case (ID, PlainUuid(u)) => Assigned(n.(id := u), None)
    case (TenantID, PlainUuid(u)) => Assigned(n.(tenantID := u), None)
    case (OutletID, NullableUuid(valid, u)) => Assigned(if valid then n.(outletID := Some(u)) else n, None)
    case (ActorUserID, PlainUuid(u)) => Assigned(n.(actorUserID := u), None)
    case (ActorStaffID, NullableUuid(valid, u)) => Assigned(if valid then n.(actorStaffID := Some(u)) else n, None)
    case (ApproverUserID, NullableUuid(valid, u)) => Assigned(if valid then n.(approverUserID := Some(u)) else n, None)
    case (Action, NullString(valid, s)) => Assigned(if valid then n.(action := s) else n, None)
    case (EntityType, NullString(valid, s)) => Assigned(if valid then n.(entityType := s) else n, None)
    case (EntityID, NullString(valid, s)) => Assigned(if valid then n.(entityID := s) else n, None)
    case (Reason, NullString(valid, s)) => Assigned(if valid then n.(reason := s) else n, None)
    case (BeforeJSON, RawBytes(b)) => AssignJson(n, c, n.beforeJSON, b, v => n.(beforeJSON := v))
    case (AfterJSON, RawBytes(b)) => AssignJson(n, c, n.afterJSON, b, v => n.(afterJSON := v))
    case (Amount, NullFloat(valid, x)) => Assigned(if valid then n.(amount := Some(x)) else n, None)
    case (Metadata, RawBytes(b)) => AssignJson(n, c, n.metadata, b, v => n.(metadata := v))
    case (CreatedAt, NullTime(valid, t)) => Assigned(if valid then n.(createdAt := t) else n, None)
    case (Other(name), _) => Assigned(n.(selectValues := n.selectValues[name := d]), None)
    case _ => Assigned(n, Some(UnexpectedType(c)))
  }

  /** Assigning the first k columns in order, stopping at the first error. */
  function AssignFirst(n: Node, cols: seq<Column>, vals: seq<Dest>, k: nat): Assigned
    requires k <= |cols| <= |vals|
  {
    if k == 0 then Assigned(n, None)
    else
      var before := AssignFirst(n, cols, vals, k - 1);
      if before.error.Some? then before else AssignOne(before.node, cols[k - 1], vals[k - 1])
  }

  function AssignAll(n: Node, cols: seq<Column>, vals: seq<Dest>): Assigned {
    if |vals| < |cols| then Assigned(n, Some(TooFewValues)) else AssignFirst(n, cols, vals, |cols|)
  }

  lemma ScanKeepsKind(d: Dest, v: DbValue)
    ensures Scan(d, v).Some? ==> KindOf(Scan(d, v).value) == KindOf(d)
  {
  }

  /** The two tables agree exactly: a known column reports a type mismatch on precisely the
      destinations that are not of the kind made for it. */
  lemma MismatchIsWrongKind(n: Node, c: Column, d: Dest)
    ensures AssignOne(n, c, d).error == Some(UnexpectedType(c)) <==> !c.Other? && KindOf(d) != KindOf(Destination(c))
    ensures forall c' :: AssignOne(n, c, d).error == Some(UnexpectedType(c')) ==> c' == c
  {
  }

  predicate IsJson(c: Column) { c.BeforeJSON? || c.AfterJSON? || c.Metadata? }

  lemma OnlyBadJsonStops(n: Node, c: Column, d: Dest)
    requires KindOf(d) == KindOf(Destination(c))
    ensures var error := AssignOne(n, c, d).error;
            && (error.Some? ==> error.value.BadJson?)
            && (error.Some? <==> IsJson(c) && d == RawBytes(Garbled))
  {
    hide Merged;
  }

  /** Destinations of the right kinds: only undecodable JSON stops the first k columns. */
  lemma {:induction false} RightKindsFit(n: Node, cols: seq<Column>, vals: seq<Dest>, k: nat)
    requires k <= |cols| <= |vals|
    requires forall i :: 0 <= i < |cols| ==> KindOf(vals[i]) == KindOf(Destination(cols[i]))
    ensures var error := AssignFirst(n, cols, vals, k).error;
            && (error.Some? ==> error.value.BadJson?)
            && (error.Some? <==> exists i :: 0 <= i < k && IsJson(cols[i]) && vals[i] == RawBytes(Garbled))
  {
    if k > 0 {
      RightKindsFit(n, cols, vals, k - 1);
      OnlyBadJsonStops(AssignFirst(n, cols, vals, k - 1).node, cols[k - 1], vals[k - 1]);
    }
  }

  lemma ScanKeepsJson(c: Column, v: DbValue, d: Dest)
    requires IsJson(c) ==> Scan(Destination(c), v) == Some(d)
    ensures IsJson(c) ==> (d == RawBytes(Garbled) <==> v == Bytes(Garbled))
  {
  }

  /** For any column list, repeats and unknown names allowed, and whatever database values the driver
      managed to scan into the destinations made for it: assigning stops exactly if one of the JSON
      columns held text that is no JSON, never on a type mismatch or a missing value. */
  lemma ScannedDestinationsAlwaysFit(n: Node, cols: seq<Column>, row: seq<DbValue>, vals: seq<Dest>)
    requires |cols| == |row| == |vals|
    requires forall i :: 0 <= i < |cols| ==> Scan(Destination(cols[i]), row[i]) == Some(vals[i])
    ensures var error := AssignAll(n, cols, vals).error;
            && (error.Some? ==> error.value.BadJson?)
            && (error.Some? <==> exists i :: 0 <= i < |cols| && IsJson(cols[i]) && row[i] == Bytes(Garbled))
  {
    forall i | 0 <= i < |cols|
      ensures KindOf(vals[i]) == KindOf(Destination(cols[i]))
      ensures IsJson(cols[i]) ==> (vals[i] == RawBytes(Garbled) <==> row[i] == Bytes(Garbled))
    {
      ScanKeepsKind(Destination(cols[i]), row[i]);
      ScanKeepsJson(cols[i], row[i], vals[i]);
    }
    RightKindsFit(n, cols, vals, |cols|);
    hide Scan, Destination, KindOf, AssignFirst;
  }

  // ---------------------------------------------------------------- write, then read

  /** A node's field for a column, as a database value. */
  function FieldOf(n: Node, c: Column): DbValue {
    match c
    case ID => Uuid(n.id)
    case TenantID => Uuid(n.tenantID)
    case OutletID => Or(UuidValue(n.outletID), Null)
    case ActorUserID => Uuid(n.actorUserID)
    case ActorStaffID => Or(UuidValue(n.actorStaffID), Null)
    case ApproverUserID => Or(UuidValue(n.approverUserID), Null)
    case Action => Text(n.action)
    case EntityType => Text(n.entityType)
    case EntityID => Text(n.entityID)
    case Reason => Text(n.reason)
    case BeforeJSON => Bytes(Encoded(n.beforeJSON))
    case AfterJSON => Bytes(Encoded(n.afterJSON))
    case Amount => Or(NumberValue(n.amount), Null)
    case Metadata => Bytes(Encoded(n.metadata))
    case CreatedAt => Instant(n.createdAt)
    case Other(_) => Null
  }

  lemma SameIDs(n: Node, m: Node)
    requires forall c: Column :: !c.Other? ==> FieldOf(n, c) == FieldOf(m, c)
    ensures n.id == m.id && n.tenantID == m.tenantID && n.actorUserID == m.actorUserID
    ensures n.outletID == m.outletID && n.actorStaffID == m.actorStaffID && n.approverUserID == m.approverUserID
  {
    assert FieldOf(n, ID) == FieldOf(m, ID) && FieldOf(n, TenantID) == FieldOf(m, TenantID);
    assert FieldOf(n, ActorUserID) == FieldOf(m, ActorUserID) && FieldOf(n, OutletID) == FieldOf(m, OutletID);
    assert FieldOf(n, ActorStaffID) == FieldOf(m, ActorStaffID);
    assert FieldOf(n, ApproverUserID) == FieldOf(m, ApproverUserID);
  }

  lemma SameTexts(n: Node, m: Node)
    requires forall c: Column :: !c.Other? ==> FieldOf(n, c) == FieldOf(m, c)
    ensures n.action == m.action && n.entityType == m.entityType && n.entityID == m.entityID && n.reason == m.reason
    ensures n.amount == m.amount && n.createdAt == m.createdAt
  {
    assert FieldOf(n, Action) == FieldOf(m, Action) && FieldOf(n, EntityType) == FieldOf(m, EntityType);
    assert FieldOf(n, EntityID) == FieldOf(m, EntityID) && FieldOf(n, Reason) == FieldOf(m, Reason);
    assert FieldOf(n, Amount) == FieldOf(m, Amount) && FieldOf(n, CreatedAt) == FieldOf(m, CreatedAt);
  }

  /** The fields say everything about a node but its dynamically selected values. */
  lemma SameFieldsSameNode(n: Node, m: Node)
    requires forall c: Column :: !c.Other? ==> FieldOf(n, c) == FieldOf(m, c)
    ensures n.(selectValues := m.selectValues) == m
  {
    SameIDs(n, m);
    SameTexts(n, m);
    assert FieldOf(n, BeforeJSON) == FieldOf(m, BeforeJSON) && FieldOf(n, AfterJSON) == FieldOf(m, AfterJSON);
    assert FieldOf(n, Metadata) == FieldOf(m, Metadata);
  }

  /** Assigning a column leaves every other field alone. */
  lemma AssignOneFrame(n: Node, c: Column, d: Dest, other: Column)
    requires other != c
    ensures FieldOf(AssignOne(n, c, d).node, other) == FieldOf(n, other)
  {
    hide Merged;
  }

  /** Scanning the row written for f, column by column. */
  function ScannedRow(f: Fields, extra: string -> DbValue, cols: seq<Column>): seq<Option<Dest>> {
    seq(|cols|, i requires 0 <= i < |cols| => Scan(Destination(cols[i]), Stored(SpecOf(f), extra, cols[i])))
  }

  /** What the stored row holds for each column, read off the fields. */
  lemma StoredValue(f: Fields, extra: string -> DbValue, c: Column)
    ensures Stored(SpecOf(f), extra, c) == if c.Other? then extra(c.name) else Or(FieldValue(f, c), Null)
  {
    if !c.Other? { EveryColumnIsListed(c); }
  }

  lemma MergedTwice(m: JsonMap)
    ensures Merged(NilMap, m) == m && Merged(m, m) == m
  {
    if m.Made? { assert m.entries + m.entries == m.entries; }
  }

  lemma {:induction false} NoValueMissing(n: Node, cols: seq<Column>, vals: seq<Dest>, k: nat)
    requires k <= |cols| <= |vals|
    ensures AssignFirst(n, cols, vals, k).error != Some(TooFewValues)
  {
    if k > 0 { NoValueMissing(n, cols, vals, k - 1); }
  }

  /** JSON read into a field that already holds some adds to it, and "null" empties it. */
  lemma JsonAddsToWhatIsThere(n: Node, was: map<string, Json>, value: map<string, Json>)
    ensures n.beforeJSON == Made(was) ==>
              && AssignOne(n, BeforeJSON, RawBytes(Encoded(Made(value)))).node.beforeJSON == Made(was + value)
              && AssignOne(n, BeforeJSON, RawBytes(Encoded(NilMap))).node.beforeJSON == NilMap
    ensures n.afterJSON == Made(was) ==>
              && AssignOne(n, AfterJSON, RawBytes(Encoded(Made(value)))).node.afterJSON == Made(was + value)
              && AssignOne(n, AfterJSON, RawBytes(Encoded(NilMap))).node.afterJSON == NilMap
    ensures n.metadata == Made(was) ==>
              && AssignOne(n, Metadata, RawBytes(Encoded(Made(value)))).node.metadata == Made(was + value)
              && AssignOne(n, Metadata, RawBytes(Encoded(NilMap))).node.metadata == NilMap
  {
  }

  /** A NULL leaves the entity as it was, but for the ids that cannot be null: those it makes zero. */
  lemma NullChangesNothing(n: Node, c: Column)
    requires !c.Other?
    ensures var d := Scan(Destination(c), Null);
            && d.Some?
            && var a := AssignOne(n, c, d.value);
            && a.error.None?
            && a.node == match c
                         case ID => n.(id := NIL_UUID)
                         case TenantID => n.(tenantID := NIL_UUID)
                         case ActorUserID => n.(actorUserID := NIL_UUID)
                         case _ => n
  {
    hide Merged;
  }

  /** A value of the wrong type does not scan. */
  lemma OnlyFittingValuesScan(c: Column, v: DbValue)
    ensures Scan(Destination(c), v).Some? <==>
            || v.Null? || c.Other?
            || (v.Uuid? && c in [ID, TenantID, OutletID, ActorUserID, ActorStaffID, ApproverUserID])
            || (v.Text? && c in [Action, EntityType, EntityID, Reason])
            || (v.Bytes? && c in [BeforeJSON, AfterJSON, Metadata])
            || (v.Number? && c == Amount) || (v.Instant? && c == CreatedAt)
  {
  }

  lemma TooFewValuesAreRefused(n: Node, cols: seq<Column>, vals: seq<Dest>)
    ensures |vals| < |cols| ==> AssignAll(n, cols, vals) == Assigned(n, Some(TooFewValues))
    ensures AssignAll(n, cols, vals).error == Some(TooFewValues) ==> |vals| < |cols|
  {
    if |vals| >= |cols| { NoValueMissing(n, cols, vals, |cols|); }
  }

  lemma ReadJsonColumn(f: Fields, extra: string -> DbValue, n: Node, c: Column)
    requires IsJson(c)
    requires FieldOf(n, c) == FieldOf(NodeOf(f), c) || FieldOf(n, c) == FieldOf(ZERO_NODE, c)
    ensures var d := Scan(Destination(c), Or(FieldValue(f, c), Null));
            && d.Some?
            && AssignOne(n, c, d.value).error.None?
            && FieldOf(AssignOne(n, c, d.value).node, c) == FieldOf(NodeOf(f), c)
  {
    MergedTwice(NodeOf(f).beforeJSON);
    MergedTwice(NodeOf(f).afterJSON);
    MergedTwice(NodeOf(f).metadata);
    hide Merged;
  }

  lemma ReadPlainColumn(f: Fields, n: Node, c: Column)
    requires !IsJson(c) && !c.Other?
    requires FieldOf(n, c) == FieldOf(NodeOf(f), c) || FieldOf(n, c) == FieldOf(ZERO_NODE, c)
    ensures var d := Scan(Destination(c), Or(FieldValue(f, c), Null));
            && d.Some?
            && AssignOne(n, c, d.value).error.None?
            && FieldOf(AssignOne(n, c, d.value).node, c) == FieldOf(NodeOf(f), c)
  {
  }

  /** Column c of the written row scans, and assigning it to a node whose field is still zero, or
      already read, sets the field that the create returned. */
  lemma ReadOneColumn(f: Fields, extra: string -> DbValue, n: Node, c: Column)
    requires FieldOf(n, c) == FieldOf(NodeOf(f), c) || FieldOf(n, c) == FieldOf(ZERO_NODE, c)
    ensures var d := Scan(Destination(c), Stored(SpecOf(f), extra, c));
            && d.Some?
            && AssignOne(n, c, d.value).error.None?
            && FieldOf(AssignOne(n, c, d.value).node, c) == FieldOf(NodeOf(f), c)
  {
    StoredValue(f, extra, c);
    hide SpecOf, Stored, Merged;
    if IsJson(c) {
      ReadJsonColumn(f, extra, n, c);
      hide Scan, AssignOne, FieldOf, NodeOf, FieldValue, Destination;
    } else if !c.Other? {
      ReadPlainColumn(f, n, c);
      hide Scan, AssignOne, FieldOf, NodeOf, FieldValue, Destination;
    } else {
      hide NodeOf, FieldValue;
    }
  }

  /** The fields of the columns in `read` are those that the create returned, the others are zero. */
  ghost predicate HoldsExactly(n: Node, f: Fields, read: set<Column>) {
    forall c :: FieldOf(n, c) == if c in read then FieldOf(NodeOf(f), c) else FieldOf(ZERO_NODE, c)
  }

  lemma {:induction false} ReadFirstColumns(f: Fields, extra: string -> DbValue, cols: seq<Column>, vals: seq<Dest>,
                                            k: nat)
    requires k <= |cols| == |vals|
    requires forall i :: 0 <= i < |cols| ==> ScannedRow(f, extra, cols)[i] == Some(vals[i])
    ensures var a := AssignFirst(ZERO_NODE, cols, vals, k);
            a.error.None? && HoldsExactly(a.node, f, ToSet(cols[..k]))
  {
    hide FieldOf, SpecOf, AssignOne, Scan, Destination, Stored, NodeOf;
    if k > 0 {
      ReadFirstColumns(f, extra, cols, vals, k - 1);
      assert cols[..k] == cols[..k - 1] + [cols[k - 1]];
      var before := AssignFirst(ZERO_NODE, cols, vals, k - 1).node;
      ReadOneColumn(f, extra, before, cols[k - 1]);
      assert ScannedRow(f, extra, cols)[k - 1] == Some(vals[k - 1]);
      forall c | c != cols[k - 1] { AssignOneFrame(before, cols[k - 1], vals[k - 1], c); }
    }
  }

  lemma AssignOneSelects(n: Node, c: Column, d: Dest)
    ensures AssignOne(n, c, d).node.selectValues ==
            if c.Other? then n.selectValues[c.name := d] else n.selectValues
  {
    hide Merged;
  }

  /** What was selected under names of its own is there, as the database had it. */
  ghost predicate SelectedExactly(n: Node, extra: string -> DbValue, cols: seq<Column>) {
    forall name :: if Other(name) in cols then name in n.selectValues && n.selectValues[name] == Unknown(extra(name))
                   else name !in n.selectValues
  }

  lemma SelectedOneMore(n: Node, extra: string -> DbValue, cols: seq<Column>, c: Column, d: Dest)
    requires SelectedExactly(n, extra, cols) && (c.Other? ==> d == Unknown(extra(c.name)))
    ensures SelectedExactly(AssignOne(n, c, d).node, extra, cols + [c])
  {
    AssignOneSelects(n, c, d);
    hide AssignOne;
  }

  lemma OtherColumnsScanAsTheyAre(f: Fields, extra: string -> DbValue, cols: seq<Column>, i: nat)
    requires i < |cols| && cols[i].Other?
    ensures ScannedRow(f, extra, cols)[i] == Some(Unknown(extra(cols[i].name)))
  {
    hide SpecOf;
  }

  lemma {:induction false} SelectedFirstColumns(extra: string -> DbValue, cols: seq<Column>, vals: seq<Dest>, k: nat)
    requires k <= |cols| == |vals| && AssignFirst(ZERO_NODE, cols, vals, k).error.None?
    requires forall i :: 0 <= i < |cols| && cols[i].Other? ==> vals[i] == Unknown(extra(cols[i].name))
    ensures SelectedExactly(AssignFirst(ZERO_NODE, cols, vals, k).node, extra, cols[..k])
  {
    hide AssignOne;
    if k > 0 {
      SelectedFirstColumns(extra, cols, vals, k - 1);
      assert cols[..k] == cols[..k - 1] + [cols[k - 1]];
      var before := AssignFirst(ZERO_NODE, cols, vals, k - 1);
      hide SelectedExactly;
      SelectedOneMore(before.node, extra, cols[..k - 1], cols[k - 1], vals[k - 1]);
    }
  }

  lemma RowScans(f: Fields, extra: string -> DbValue, cols: seq<Column>)
    ensures forall i :: 0 <= i < |cols| ==> ScannedRow(f, extra, cols)[i].Some?
  {
    hide Scan, SpecOf, Destination, Stored, AssignOne, NodeOf, FieldOf;
    forall i | 0 <= i < |cols| ensures ScannedRow(f, extra, cols)[i].Some? {
      ReadOneColumn(f, extra, ZERO_NODE, cols[i]);
    }
  }

  /** Write, then read. For every mutation, and any column list whatever, scanning the row that was
      written succeeds and rebuilds the node that the create returned, restricted to the columns
      read; a list holding every column, in any order and with any repeats, rebuilds it whole. */
  lemma WrittenRowReadsBack(f: Fields, extra: string -> DbValue, cols: seq<Column>) returns (vals: seq<Dest>)
    ensures |vals| == |cols| && forall i :: 0 <= i < |cols| ==> ScannedRow(f, extra, cols)[i] == Some(vals[i])
    ensures var a := AssignAll(ZERO_NODE, cols, vals);
            && a.error.None?
            && HoldsExactly(a.node, f, ToSet(cols)) && SelectedExactly(a.node, extra, cols)
            && (ToSet(COLUMNS) <= ToSet(cols) ==> a.node.(selectValues := map[]) == NodeOf(f))
  {
    assert NodeOf(f).selectValues == map[];
    hide Scan, SpecOf, Destination, Stored, AssignOne, NodeOf, FieldOf;
    RowScans(f, extra, cols);
    vals := seq(|cols|, i requires 0 <= i < |cols| => ScannedRow(f, extra, cols)[i].value);
    ReadFirstColumns(f, extra, cols, vals, |cols|);
    forall i | 0 <= i < |cols| && cols[i].Other? { OtherColumnsScanAsTheyAre(f, extra, cols, i); }
    SelectedFirstColumns(extra, cols, vals, |cols|);
    assert cols[..|cols|] == cols;
    if ToSet(COLUMNS) <= ToSet(cols) {
      var n := AssignAll(ZERO_NODE, cols, vals).node;
      forall c: Column | !c.Other? ensures FieldOf(n, c) == FieldOf(NodeOf(f), c) {
        EveryColumnIsListed(c);
        assert c in ToSet(COLUMNS);
      }
      SameFieldsSameNode(n, NodeOf(f));
    }
  }

  // ---------------------------------------------------------------- the scanning code

  method ScanValues(columns: seq<Column>) returns (values: array<Dest>)
    ensures fresh(values) && values.Length == |columns|
    ensures forall i :: 0 <= i < |columns| ==> values[i] == Destination(columns[i])
  {
    values := new Dest[|columns|](_ => Unknown(Null));
    for i := 0 to |columns|
      invariant forall k :: 0 <= k < i ==> values[k] == Destination(columns[k])
    {
      match columns[i] {
        case OutletID | ActorStaffID | ApproverUserID => values[i] := NullableUuid(false, NIL_UUID);
        case BeforeJSON | AfterJSON | Metadata => values[i] := RawBytes(Blank);
        case Amount => values[i] := NullFloat(false, 0.0);
        case Action | EntityType | EntityID | Reason => values[i] := NullString(false, "");
        case CreatedAt => values[i] := NullTime(false, ZERO_TIME);
        case ID | TenantID | ActorUserID => values[i] := PlainUuid(NIL_UUID);
        case Other(_) => values[i] := Unknown(Null);
      }
    }
  }

  lemma {:induction false} AssignStops(n: Node, cols: seq<Column>, vals: seq<Dest>, k: nat, m: nat)
    requires k <= m <= |cols| <= |vals| && AssignFirst(n, cols, vals, k).error.Some?
    ensures AssignFirst(n, cols, vals, m) == AssignFirst(n, cols, vals, k)
  {
    if k < m { AssignStops(n, cols, vals, k, m - 1); }
  }

  class Entity {
    var node: Node

    constructor ()
      ensures node == ZERO_NODE
    {
      node := ZERO_NODE;
    }

    method AssignValues(columns: seq<Column>, values: array<Dest>) returns (error: Option<AssignError>)
      modifies this
      ensures Assigned(node, error) == AssignAll(old(node), columns, values[..])
    {
      if values.Length < |columns| {
        return Some(TooFewValues);
      }
      for i := 0 to |columns|
        invariant AssignFirst(old(node), columns, values[..], i) == Assigned(node, None)
      {
        var a := AssignOne(node, columns[i], values[i]);
        node := a.node;
        if a.error.Some? {
          AssignStops(old(node), columns, values[..], i + 1, |columns|);
          return a.error;
        }
      }
      return None;
    }
  }
}
