/** The client trail: what TrailHook writes on a created row of each kind, whom a payment is
    attributed to, and how a request's context answers both (internal/audit/trail.go,
    internal/platform/clientinfo/clientinfo.go). BulkSave has the hook at work on shared maps. */
module Trail {
  import opened Prelude
  import opened AuditLog
  import opened BulkCreate

  const KEY_COLLECTED_BY := "collected_by"
  const KEY_OPENED_FROM := "opened_from"

  // ---------------------------------------------------------------- who and what is behind a request

  datatype Info = Info(clientID: string, deviceName: string, deviceKind: string, os: string, browser: string,
                       userAgent: string, ip: string)

  const ZERO_INFO := Info("", "", "", "", "", "", "")

  datatype InfoKey = ClientIDKey | DeviceNameKey | DeviceKindKey | OSKey | BrowserKey | UserAgentKey | IPKey

  function FieldOf(i: Info, k: InfoKey): string {
    match k
    case ClientIDKey => i.clientID
    case DeviceNameKey => i.deviceName
    case DeviceKindKey => i.deviceKind
    case OSKey => i.os
    case BrowserKey => i.browser
    case UserAgentKey => i.userAgent
    case IPKey => i.ip
  }

  /** Info.Map: empty fields are left out. */
  function Rendered(i: Info): map<InfoKey, string> {
    map k: InfoKey | FieldOf(i, k) != "" :: FieldOf(i, k)
  }

  /** Key k is there with this value, unless that is empty. */
  predicate Puts(r: map<InfoKey, string>, k: InfoKey, value: string) {
    if value == "" then k !in r else k in r && r[k] == value
  }

  /** Each field that is not empty, under its own key. */
  lemma RenderedFieldByField(i: Info)
    ensures var r := Rendered(i);
            && Puts(r, ClientIDKey, i.clientID) && Puts(r, DeviceNameKey, i.deviceName)
            && Puts(r, DeviceKindKey, i.deviceKind) && Puts(r, OSKey, i.os) && Puts(r, BrowserKey, i.browser)
            && Puts(r, UserAgentKey, i.userAgent) && Puts(r, IPKey, i.ip)
  {
    assert forall k: InfoKey :: k in Rendered(i) <==> FieldOf(i, k) != "";
  }

  lemma SameFieldsSameInfo(i: Info, j: Info)
    requires forall k: InfoKey :: FieldOf(i, k) == FieldOf(j, k)
    ensures i == j
  {
    assert FieldOf(i, ClientIDKey) == FieldOf(j, ClientIDKey) && FieldOf(i, DeviceNameKey) == FieldOf(j, DeviceNameKey);
    assert FieldOf(i, DeviceKindKey) == FieldOf(j, DeviceKindKey) && FieldOf(i, OSKey) == FieldOf(j, OSKey);
    assert FieldOf(i, BrowserKey) == FieldOf(j, BrowserKey) && FieldOf(i, UserAgentKey) == FieldOf(j, UserAgentKey);
    assert FieldOf(i, IPKey) == FieldOf(j, IPKey);
  }

  /** Nothing is lost by leaving empty fields out: two clients with one rendering are the same, and
      only the zero info renders to nothing. */
  lemma RenderedTellsInfo(i: Info, j: Info)
    ensures Rendered(i) == Rendered(j) <==> i == j
    ensures Rendered(i) == map[] <==> i == ZERO_INFO
  {
    if Rendered(i) == Rendered(j) {
      forall k: InfoKey ensures FieldOf(i, k) == FieldOf(j, k) {
        assert k in Rendered(i) <==> k in Rendered(j);
      }
      SameFieldsSameInfo(i, j);
    }
    if Rendered(i) == map[] {
      forall k: InfoKey ensures FieldOf(i, k) == FieldOf(ZERO_INFO, k) {
        assert k !in Rendered(i);
      }
      SameFieldsSameInfo(i, ZERO_INFO);
    }
  }

  /** A context: the innermost value under a key is the one that is found. */
  datatype Context =
    | Background
    | WithInfo(info: Info, parent: Context)
    | WithCollector(collector: UUID, parent: Context)
    | WithClaims(subject: string, parent: Context)

  /** clientinfo.FromContext. */
  function ClientOf(ctx: Context): Option<Info> {
    match ctx
    case Background => None
    case WithInfo(info, _) => if info == ZERO_INFO then None else Some(info)
    case WithCollector(_, parent) => ClientOf(parent)
    case WithClaims(_, parent) => ClientOf(parent)
  }

  function CollectorOf(ctx: Context): Option<UUID> {
    match ctx
    case Background => None
    case WithCollector(id, _) => Some(id)
    case WithInfo(_, parent) => CollectorOf(parent)
    case WithClaims(_, parent) => CollectorOf(parent)
  }

  function SubjectOf(ctx: Context): Option<string> {
    match ctx
    case Background => None
    case WithClaims(subject, _) => Some(subject)
    case WithInfo(_, parent) => SubjectOf(parent)
    case WithCollector(_, parent) => SubjectOf(parent)
  }

  /** actorID, with `parse` for uuid.Parse. */
  function ActorID(ctx: Context, parse: string -> Option<UUID>): UUID {
    var collector := CollectorOf(ctx);
    if collector.Some? && collector.value != NIL_UUID then collector.value
    else
      var subject := SubjectOf(ctx);
      if subject.None? || subject.value == "" then NIL_UUID
      else Or(parse(subject.value), NIL_UUID)
  }

  datatype Layer = InfoLayer | CollectorLayer | ClaimsLayer

  function LayerOf(ctx: Context): Layer
    requires !ctx.Background?
  {
    if ctx.WithInfo? then InfoLayer else if ctx.WithCollector? then CollectorLayer else ClaimsLayer
  }

  /** later adds anything to ctx but layers of one kind. */
  predicate AddsNo(layer: Layer, later: Context, ctx: Context) {
    later == ctx || (!later.Background? && LayerOf(later) != layer && AddsNo(layer, later.parent, ctx))
  }

  lemma {:induction false} FindsPast(layer: Layer, later: Context, ctx: Context)
    requires AddsNo(layer, later, ctx)
    ensures layer == InfoLayer ==> ClientOf(later) == ClientOf(ctx)
    ensures layer == CollectorLayer ==> CollectorOf(later) == CollectorOf(ctx)
    ensures layer == ClaimsLayer ==> SubjectOf(later) == SubjectOf(ctx)
  {
    if later != ctx { FindsPast(layer, later.parent, ctx); }
  }

  /** The client is the last one that was put into the context, unless that says nothing at all; an earlier
      one is hidden by it even then. */
  lemma LastInfoCounts(ctx: Context, info: Info, later: Context)
    requires AddsNo(InfoLayer, later, WithInfo(info, ctx))
    ensures ClientOf(later) == if info == Info("", "", "", "", "", "", "") then None else Some(info)
  {
    FindsPast(InfoLayer, later, WithInfo(info, ctx));
  }

  lemma NoInfoNoClient(ctx: Context)
    requires AddsNo(InfoLayer, ctx, Background)
    ensures ClientOf(ctx) == None
  {
    FindsPast(InfoLayer, ctx, Background);
  }

  function WithoutCollectors(ctx: Context): Context {
    match ctx
    case Background => Background
    case WithInfo(info, parent) => WithInfo(info, WithoutCollectors(parent))
    case WithClaims(subject, parent) => WithClaims(subject, WithoutCollectors(parent))
    case WithCollector(_, parent) => WithoutCollectors(parent)
  }

  lemma {:induction false} SubjectWithoutCollectors(ctx: Context)
    ensures SubjectOf(WithoutCollectors(ctx)) == SubjectOf(ctx) && CollectorOf(WithoutCollectors(ctx)) == None
  {
    if !ctx.Background? { SubjectWithoutCollectors(ctx.parent); }
  }

  /** The last override counts, wherever client info and claims were added since. One with uuid.Nil
      hides the overrides before it and gives the actor back to the logged-in user. */
  lemma LastOverrideCounts(ctx: Context, id: UUID, later: Context, parse: string -> Option<UUID>)
    requires AddsNo(CollectorLayer, later, WithCollector(id, ctx))
    ensures id != NIL_UUID ==> ActorID(later, parse) == id
    ensures id == NIL_UUID ==> ActorID(later, parse) == ActorID(WithoutCollectors(later), parse)
  {
    FindsPast(CollectorLayer, later, WithCollector(id, ctx));
    SubjectWithoutCollectors(later);
  }

  /** There is no override, or the last one is uuid.Nil. */
  predicate NotOverridden(ctx: Context) {
    match ctx
    case Background => true
    case WithCollector(id, _) => id == NIL_UUID
    case WithInfo(_, parent) => NotOverridden(parent)
    case WithClaims(_, parent) => NotOverridden(parent)
  }

  lemma {:induction false} NotOverriddenFindsNobody(ctx: Context)
    ensures NotOverridden(ctx) <==> CollectorOf(ctx) == None || CollectorOf(ctx) == Some(NIL_UUID)
  {
    match ctx
    case WithInfo(_, parent) => NotOverriddenFindsNobody(parent);
    case WithClaims(_, parent) => NotOverriddenFindsNobody(parent);
    case _ =>
  }

  /** Without an override in force the actor is the logged-in user: the one whose id the subject of the
      innermost claims is, or nobody if that is empty or no id. */
  lemma ActorIsLoggedInUser(ctx: Context, subject: string, later: Context, parse: string -> Option<UUID>, u: UUID)
    requires AddsNo(ClaimsLayer, later, WithClaims(subject, ctx)) && NotOverridden(later) && u != NIL_UUID
    ensures ActorID(later, parse) == u <==> subject != "" && parse(subject) == Some(u)
    ensures subject == "" || parse(subject) == None ==> ActorID(later, parse) == NIL_UUID
  {
    FindsPast(ClaimsLayer, later, WithClaims(subject, ctx));
    NotOverriddenFindsNobody(later);
  }

  lemma NobodyWithoutClaims(ctx: Context, parse: string -> Option<UUID>)
    requires AddsNo(ClaimsLayer, ctx, Background) && NotOverridden(ctx)
    ensures ActorID(ctx, parse) == NIL_UUID
  {
    FindsPast(ClaimsLayer, ctx, Background);
    NotOverriddenFindsNobody(ctx);
  }

  // ---------------------------------------------------------------- the hook

  datatype Kind = Order | Payment | DeviceSession | AuditEntry | Untracked(name: string)

  /** JSON forms of what the hook writes. */
  datatype Codec = Codec(client: map<InfoKey, string> -> Json, person: UUID -> Json)

  function KeyOf(kind: Kind): string { if kind.DeviceSession? then KEY_OPENED_FROM else KEY_CLIENT }

  /** A mutation's JSON document after TrailHook. */
  function Trailed(ctx: Context, isCreate: bool, kind: Kind, doc: Option<JsonMap>,
                   parse: string -> Option<UUID>, codec: Codec): Option<JsonMap> {
    var client := ClientOf(ctx);
    if !isCreate || client.None? || kind.Untracked? then doc
    else
      var stamped := Cloned(doc)[KeyOf(kind) := codec.client(Rendered(client.value))];
      var actor := ActorID(ctx, parse);
      if kind.Payment? && actor != NIL_UUID && KEY_COLLECTED_BY !in stamped
      then Some(Made(stamped[KEY_COLLECTED_BY := codec.person(actor)]))
      else Some(Made(stamped))
  }

  lemma CollectedByIsNotClient()
    ensures KEY_COLLECTED_BY != KEY_CLIENT && KEY_COLLECTED_BY != KEY_OPENED_FROM
  {
    assert |KEY_COLLECTED_BY| == 12 && |KEY_CLIENT| == 6 && |KEY_OPENED_FROM| == 11;
  }

  /** What is stored for each kind of row, key by key, on top of the entries that the caller gave. */
  lemma StoredForEachKind(ctx: Context, entries: map<string, Json>, parse: string -> Option<UUID>, codec: Codec)
    requires ClientOf(ctx).Some?
    ensures var client, doc := codec.client(Rendered(ClientOf(ctx).value)), Some(Made(entries));
            && Trailed(ctx, true, Order, doc, parse, codec) == Some(Made(entries["client" := client]))
            && Trailed(ctx, true, AuditEntry, doc, parse, codec) == Some(Made(entries["client" := client]))
            && Trailed(ctx, true, DeviceSession, doc, parse, codec) == Some(Made(entries["opened_from" := client]))
            && (ActorID(ctx, parse) == UUID(0) ==>
                  Trailed(ctx, true, Payment, doc, parse, codec) == Some(Made(entries["client" := client])))
    ensures forall kind :: Trailed(ctx, true, kind, Some(NilMap), parse, codec) ==
                           if kind.Untracked? then Some(NilMap)
                           else Trailed(ctx, true, kind, Some(Made(map[])), parse, codec)
    ensures forall kind :: Trailed(ctx, true, kind, None, parse, codec) ==
                           if kind.Untracked? then None
                           else Trailed(ctx, true, kind, Some(Made(map[])), parse, codec)
  {
    assert KEY_CLIENT == "client" && KEY_OPENED_FROM == "opened_from";
  }

  /** A payment by a logged-in user, in whatever context: it is recorded as collected by that user, unless
      the payment data names somebody, next to the client. */
  lemma PaymentIsCollectedByUser(base: Context, subject: string, ctx: Context, u: UUID, entries: map<string, Json>,
                                 parse: string -> Option<UUID>, codec: Codec)
    requires AddsNo(ClaimsLayer, ctx, WithClaims(subject, base)) && NotOverridden(ctx)
    requires subject != "" && parse(subject) == Some(u) && u != NIL_UUID && ClientOf(ctx).Some?
    ensures var withClient := entries["client" := codec.client(Rendered(ClientOf(ctx).value))];
            Trailed(ctx, true, Payment, Some(Made(entries)), parse, codec) ==
            if "collected_by" in entries then Some(Made(withClient))
            else Some(Made(withClient["collected_by" := codec.person(u)]))
  {
    ActorIsLoggedInUser(base, subject, ctx, parse, u);
    CollectedByIsNotClient();
    assert KEY_CLIENT == "client" && KEY_COLLECTED_BY == "collected_by";
  }

  /** On a tracked row created from a request the server's client value is there, whatever the caller
      had put under its key; every other key the caller set is kept, and nothing but a payment's
      collector is added. */
  lemma ClientCannotBeForged(ctx: Context, kind: Kind, doc: Option<JsonMap>, parse: string -> Option<UUID>,
                             codec: Codec)
    requires ClientOf(ctx).Some? && !kind.Untracked?
    ensures var was, out := Cloned(doc), Trailed(ctx, true, kind, doc, parse, codec);
            && out.Some? && out.value.Made?
            && var now := out.value.entries;
            && KeyOf(kind) in now && now[KeyOf(kind)] == codec.client(Rendered(ClientOf(ctx).value))
            && (forall k :: k in was && k != KeyOf(kind) ==> k in now && now[k] == was[k])
            && (forall k :: k in now && k != KeyOf(kind) && k !in was ==>
                  kind.Payment? && k == KEY_COLLECTED_BY && now[k] == codec.person(ActorID(ctx, parse)))
  {
    CollectedByIsNotClient();
  }

  /** The collector, unlike the client, is the caller's if the caller names one: the row is attributed
      to the actor exactly when the payment data did not name anyone else. */
  lemma CollectorIsActorUnlessNamed(ctx: Context, doc: Option<JsonMap>, parse: string -> Option<UUID>, codec: Codec)
    requires ClientOf(ctx).Some? && ActorID(ctx, parse) != NIL_UUID
    ensures var was, out := Cloned(doc), Trailed(ctx, true, Payment, doc, parse, codec).value.entries;
            && KEY_COLLECTED_BY in out
            && (out[KEY_COLLECTED_BY] == codec.person(ActorID(ctx, parse)) <==>
                KEY_COLLECTED_BY !in was || was[KEY_COLLECTED_BY] == codec.person(ActorID(ctx, parse)))
  {
    CollectedByIsNotClient();
  }

  /** Without a client behind the request, on an update or on another kind of row, nothing changes;
      registering the hook twice changes nothing either. */
  lemma HookTwiceIsHookOnce(ctx: Context, isCreate: bool, kind: Kind, doc: Option<JsonMap>,
                            parse: string -> Option<UUID>, codec: Codec)
    ensures var once := Trailed(ctx, isCreate, kind, doc, parse, codec);
            && Trailed(ctx, isCreate, kind, once, parse, codec) == once
            && (!isCreate || ClientOf(ctx).None? || kind.Untracked? ==> once == doc)
  {
    CollectedByIsNotClient();
    var once := Trailed(ctx, isCreate, kind, doc, parse, codec);
    if isCreate && ClientOf(ctx).Some? && !kind.Untracked? {
      var entries, value := once.value.entries, codec.client(Rendered(ClientOf(ctx).value));
      assert entries[KeyOf(kind)] == value;
      assert entries[KeyOf(kind) := value] == entries;
    }
  }

  /** For audit entries this is the hook of the bulk create. */
  lemma AuditEntriesAreStamped(ctx: Context, f: Fields, parse: string -> Option<UUID>, codec: Codec)
    ensures var client := if ClientOf(ctx).Some? then Some(codec.client(Rendered(ClientOf(ctx).value))) else None;
            Stamped(f, client) == f.(metadata := Trailed(ctx, true, AuditEntry, f.metadata, parse, codec))
  {
  }
}
