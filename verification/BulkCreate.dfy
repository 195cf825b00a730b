/** Creating audit rows through hooks: one by one, and in bulk, where every builder's hooks wrap a
    mutator that checks and fills its own slot and then calls the next builder's chain; only the
    last one writes (internal/ent/auditlog_create.go, internal/ent/ent.go). The hook that the
    service registers stamps the caller's client info (internal/audit/trail.go).

    This module is the specification, on values; BulkSave is the code, on objects. */
module BulkCreate {
  import opened Prelude
  import opened AuditLog

  const KEY_CLIENT := "client"

  /** What a hook does to the mutation it is handed: nothing; stamp it, as TrailHook does; edit it in
      place; or make another one to hand on. */
  datatype Change = Keep | Trail | Edit(to: Fields -> Fields) | Swap(to: Fields -> Fields)

  /** What a hook makes of the call: it answers without calling on; or it calls on, once, and answers as
      it likes when that succeeded and when that failed. RepeatedCalls has hooks that call on again. */
  datatype Control = Answer(ok: bool) | CallOn(onOk: bool, onErr: bool)

  const PASS_ON := CallOn(true, false)

  datatype Hook = Hook(change: Change, control: Control)

  const TRAIL_HOOK := Hook(Trail, PASS_ON)

  /** A create builder. */
  datatype Builder = Builder(fields: Fields, hooks: seq<Hook>)

  /** The request's client info, if any, and whether the database accepts the batch. */
  datatype Env = Env(client: Option<Json>, writeOk: bool)

  datatype Event =
    | Defaulted(builder: nat)
    | Entered(builder: nat, hook: nat)
    | Checked(builder: nat)
    | Filled(builder: nat)
    | Wrote(specs: seq<Spec>)
    | Done(builder: nat)

  /** The mutation handed along a chain, and the builder's own mutation; `shared` while they are one
      object, in which case `own` is out of date. */
  datatype Carried = Carried(cur: Fields, own: Fields, shared: bool) {
    function Own(): Fields { if shared then cur else own }
  }

  function Start(b: Builder): Carried { Carried(b.fields, b.fields, true) }

  // ---------------------------------------------------------------- the trail

  function Cloned(m: Option<JsonMap>): map<string, Json> {
    if m.Some? && m.value.Made? then m.value.entries else map[]
  }

  /** The mutation after TrailHook: without client info it is left alone. */
  function Stamped(f: Fields, client: Option<Json>): Fields {
    match client
    case None => f
    case Some(info) => f.(metadata := Some(Made(Cloned(f.metadata)[KEY_CLIENT := info])))
  }

  // ---------------------------------------------------------------- one chain

  function Through(h: Hook, c: Carried, client: Option<Json>): Carried {
    match h.change
    case Keep => c
    case Trail => c.(cur := Stamped(c.cur, client))
    case Edit(to) => c.(cur := to(c.cur))
    case Swap(to) => Carried(to(c.cur), c.Own(), false)
  }

  function ThroughAll(hooks: seq<Hook>, k: nat, c: Carried, client: Option<Json>): Carried
    requires k <= |hooks|
    decreases |hooks| - k
  {
    if k == |hooks| then c else ThroughAll(hooks, k + 1, Through(hooks[k], c, client), client)
  }

  datatype Outcome = Outcome(ok: bool, log: seq<Event>)

  /** mutators[i] from its k-th hook on, with `filled` the specs of the builders before it. */
  function Mutate(bs: seq<Builder>, i: nat, k: nat, c: Carried, filled: seq<Spec>, env: Env): Outcome
    requires i < |bs| && k <= |bs[i].hooks|
    decreases |bs| - i, |bs[i].hooks| - k
  {
    var hooks := bs[i].hooks;
    if k < |hooks| then
      match hooks[k].control
      case Answer(ok) => Outcome(ok, [Entered(i, k)])
      case CallOn(onOk, onErr) =>
        var rest := Mutate(bs, i, k + 1, Through(hooks[k], c, env.client), filled, env);
        Outcome(if rest.ok then onOk else onErr, [Entered(i, k)] + rest.log)
    else if Check(c.Own()).Some? then Outcome(false, [])
    else
      var specs := filled + [SpecOf(c.cur)];
      var rest := if i + 1 < |bs| then Mutate(bs, i + 1, 0, Start(bs[i + 1]), specs, env)
                  else Outcome(env.writeOk, [Wrote(specs)]);
      Outcome(rest.ok, [Checked(i), Filled(i)] + rest.log + (if rest.ok then [Done(i)] else []))
  }

  /** What the clock and the id generator gave one builder. */
  datatype Stamp = Stamp(now: Time, id: UUID)

  function WithDefaults(bs: seq<Builder>, stamps: seq<Stamp>): seq<Builder>
    requires |stamps| == |bs|
  {
    seq(|bs|, i requires 0 <= i < |bs| => Builder(Defaults(bs[i].fields, stamps[i].now, stamps[i].id), bs[i].hooks))
  }

  function DefaultsLog(n: nat): seq<Event> { seq(n, i requires 0 <= i < n => Defaulted(i)) }

  /** AuditLogCreateBulk.Save: all defaults, then the first mutator, which calls the rest. */
  function Save(raw: seq<Builder>, stamps: seq<Stamp>, env: Env): Outcome
    requires |stamps| == |raw|
  {
    var bs := WithDefaults(raw, stamps);
    var chain := if bs == [] then Outcome(true, []) else Mutate(bs, 0, 0, Start(bs[0]), [], env);
    Outcome(chain.ok, DefaultsLog(|bs|) + chain.log)
  }

  // ---------------------------------------------------------------- closed form

  function Final(b: Builder, client: Option<Json>): Carried { ThroughAll(b.hooks, 0, Start(b), client) }

  /** Some hook answers without calling on. */
  predicate Stops(hooks: seq<Hook>) { exists k :: 0 <= k < |hooks| && hooks[k].control.Answer? }

  /** The chain of b reaches its check and passes it. */
  predicate Passes(b: Builder, client: Option<Json>) {
    !Stops(b.hooks) && Check(Final(b, client).Own()).None?
  }

  predicate AllPass(bs: seq<Builder>, i: nat, client: Option<Json>) {
    forall j :: i <= j < |bs| ==> Passes(bs[j], client)
  }

  function Specs(bs: seq<Builder>, client: Option<Json>): seq<Spec> {
    seq(|bs|, j requires 0 <= j < |bs| => SpecOf(Final(bs[j], client).cur))
  }

  /** The hooks entered from the k-th on: all of them, or up to the first that answers. */
  function Entries(i: nat, hooks: seq<Hook>, k: nat): seq<Event>
    requires k <= |hooks|
    decreases |hooks| - k
  {
    if k == |hooks| then []
    else if hooks[k].control.Answer? then [Entered(i, k)]
    else [Entered(i, k)] + Entries(i, hooks, k + 1)
  }

  /** On the way down: builder after builder, hooks in order, then check and fill. */
  function Descent(bs: seq<Builder>, i: nat, client: Option<Json>): seq<Event>
    requires i <= |bs|
    decreases |bs| - i
  {
    if i == |bs| then []
    else Entries(i, bs[i].hooks, 0)
         + (if Passes(bs[i], client) then [Checked(i), Filled(i)] + Descent(bs, i + 1, client) else [])
  }

  /** What the hooks from the k-th on make of the answer from inside them. */
  function Settle(hooks: seq<Hook>, k: nat, inner: bool): bool
    requires k <= |hooks|
    decreases |hooks| - k
  {
    if k == |hooks| then inner
    else
      match hooks[k].control
      case Answer(ok) => ok
      case CallOn(onOk, onErr) => if Settle(hooks, k + 1, inner) then onOk else onErr
  }

  /** What the innermost mutator of builder i is told by what it calls: the next chain, or the write. */
  predicate RestOk(bs: seq<Builder>, i: nat, env: Env)
    requires i < |bs|
    decreases |bs| - i
  {
    if i + 1 < |bs| then
      Settle(bs[i + 1].hooks, 0, Check(Final(bs[i + 1], env.client).Own()).None? && RestOk(bs, i + 1, env))
    else env.writeOk
  }

  /** On the way back up: of the builders that were reached, those are marked done whose call succeeded. */
  function Ascent(bs: seq<Builder>, i: nat, env: Env): seq<Event>
    requires i <= |bs|
    decreases |bs| - i
  {
    if i == |bs| || !Passes(bs[i], env.client) then []
    else Ascent(bs, i + 1, env) + (if RestOk(bs, i, env) then [Done(i)] else [])
  }

  function Write(bs: seq<Builder>, i: nat, env: Env): seq<Event> {
    if AllPass(bs, i, env.client) then [Wrote(Specs(bs, env.client))] else []
  }

  function SaveLog(bs: seq<Builder>, env: Env): seq<Event> {
    DefaultsLog(|bs|) + Descent(bs, 0, env.client)
    + (if bs == [] then [] else Write(bs, 0, env) + Ascent(bs, 0, env))
  }

  /** What is left of the chain from hook k of builder i on, in closed form. */
  function ChainLog(bs: seq<Builder>, i: nat, k: nat, env: Env): seq<Event>
    requires i < |bs| && k <= |bs[i].hooks|
  {
    Entries(i, bs[i].hooks, k)
    + (if Passes(bs[i], env.client) then [Checked(i), Filled(i)] + Descent(bs, i + 1, env.client) else [])
    + (Write(bs, i, env) + Ascent(bs, i, env))
  }

  predicate ChainOk(bs: seq<Builder>, i: nat, k: nat, env: Env)
    requires i < |bs| && k <= |bs[i].hooks|
  {
    Settle(bs[i].hooks, k, Check(Final(bs[i], env.client).Own()).None? && RestOk(bs, i, env))
  }

  lemma Regroup(a: seq<Event>, down: seq<Event>, write: seq<Event>, up: seq<Event>, done: seq<Event>)
    ensures a + (down + (write + up)) + done == [] + (a + down) + (write + (up + done))
    ensures a + write + done == [] + (a + []) + (write + ([] + done))
  {
    assert a + (down + (write + up)) + done == a + down + write + up + done;
  }

  /** What the terminal mutator of builder i adds to what it is given by the rest of the chain. */
  lemma TerminalStep(bs: seq<Builder>, i: nat, c: Carried, filled: seq<Spec>, env: Env)
    requires i < |bs| && c == Final(bs[i], env.client) && !Stops(bs[i].hooks)
    ensures var r := Mutate(bs, i, |bs[i].hooks|, c, filled, env);
            if !Passes(bs[i], env.client) then !r.ok && r.log == []
            else
              var specs := filled + [SpecOf(c.cur)];
              var rest := if i + 1 < |bs| then Mutate(bs, i + 1, 0, Start(bs[i + 1]), specs, env)
                          else Outcome(env.writeOk, [Wrote(specs)]);
              r.ok == rest.ok && r.log == [Checked(i), Filled(i)] + rest.log + (if rest.ok then [Done(i)] else [])
  {
    hide Final, SpecOf, Check, Stops;
  }

  lemma ChainOfTerminal(bs: seq<Builder>, i: nat, env: Env)
    requires i < |bs| && !Stops(bs[i].hooks)
    ensures Entries(i, bs[i].hooks, |bs[i].hooks|) == []
    ensures ChainOk(bs, i, |bs[i].hooks|, env) <==> Passes(bs[i], env.client) && RestOk(bs, i, env)
    ensures !Passes(bs[i], env.client) ==> Write(bs, i, env) == [] && Ascent(bs, i, env) == []
    ensures Passes(bs[i], env.client) ==>
              Ascent(bs, i, env) == Ascent(bs, i + 1, env) + (if RestOk(bs, i, env) then [Done(i)] else [])
    ensures i + 1 == |bs| ==> Descent(bs, i + 1, env.client) == [] && Ascent(bs, i + 1, env) == []
  {
    hide Final, Check, Specs, RestOk, Stops;
  }

  lemma LastTerminal(bs: seq<Builder>, i: nat, c: Carried, filled: seq<Spec>, env: Env)
    requires i + 1 == |bs| && |filled| == i && filled == Specs(bs, env.client)[..i]
    requires c == Final(bs[i], env.client) && !Stops(bs[i].hooks)
    ensures var r := Mutate(bs, i, |bs[i].hooks|, c, filled, env);
            r.log == ChainLog(bs, i, |bs[i].hooks|, env) && (r.ok <==> ChainOk(bs, i, |bs[i].hooks|, env))
  {
    TerminalStep(bs, i, c, filled, env);
    ChainOfTerminal(bs, i, env);
    assert filled + [SpecOf(c.cur)] == Specs(bs, env.client);
    assert AllPass(bs, i, env.client) <==> Passes(bs[i], env.client);
    hide Final, SpecOf, Check, Entries, Stops, Mutate, Descent, Ascent, Passes, ChainOk, Specs;
    Regroup([Checked(i), Filled(i)], [], [Wrote(Specs(bs, env.client))], [],
            if RestOk(bs, i, env) then [Done(i)] else []);
  }

  lemma FirstChain(bs: seq<Builder>, i: nat, env: Env)
    requires i < |bs|
    ensures ChainLog(bs, i, 0, env) == Descent(bs, i, env.client) + (Write(bs, i, env) + Ascent(bs, i, env))
  {
    hide Passes, Specs, Entries, Ascent, AllPass;
  }

  lemma InnerTerminal(bs: seq<Builder>, i: nat, c: Carried, filled: seq<Spec>, env: Env)
    requires i + 1 < |bs| && c == Final(bs[i], env.client) && !Stops(bs[i].hooks)
    requires var rest := Mutate(bs, i + 1, 0, Start(bs[i + 1]), filled + [SpecOf(c.cur)], env);
             rest.log == ChainLog(bs, i + 1, 0, env) && (rest.ok <==> ChainOk(bs, i + 1, 0, env))
    ensures var r := Mutate(bs, i, |bs[i].hooks|, c, filled, env);
            r.log == ChainLog(bs, i, |bs[i].hooks|, env) && (r.ok <==> ChainOk(bs, i, |bs[i].hooks|, env))
  {
    TerminalStep(bs, i, c, filled, env);
    ChainOfTerminal(bs, i, env);
    FirstChain(bs, i + 1, env);
    assert RestOk(bs, i, env) <==> ChainOk(bs, i + 1, 0, env);
    hide Final, SpecOf, Check, Entries, Stops, Mutate, Descent, Ascent, Passes, ChainOk, Specs, RestOk;
    Regroup([Checked(i), Filled(i)], Descent(bs, i + 1, env.client), Write(bs, i + 1, env), Ascent(bs, i + 1, env),
            if RestOk(bs, i, env) then [Done(i)] else []);
    assert Passes(bs[i], env.client) ==> Write(bs, i, env) == Write(bs, i + 1, env);
  }

  lemma HookClosedForm(bs: seq<Builder>, i: nat, k: nat, c: Carried, filled: seq<Spec>, env: Env)
    requires i < |bs| && k < |bs[i].hooks|
    requires bs[i].hooks[k].control.CallOn? ==>
      var rest := Mutate(bs, i, k + 1, Through(bs[i].hooks[k], c, env.client), filled, env);
      rest.log == ChainLog(bs, i, k + 1, env) && (rest.ok <==> ChainOk(bs, i, k + 1, env))
    ensures var r := Mutate(bs, i, k, c, filled, env);
            r.log == ChainLog(bs, i, k, env) && (r.ok <==> ChainOk(bs, i, k, env))
  {
    hide Final, SpecOf, Check, Specs, Descent, RestOk;
    var hooks := bs[i].hooks;
    if hooks[k].control.Answer? {
      assert Stops(hooks) && !Passes(bs[i], env.client);
      hide Passes, Stops;
    } else {
      hide Passes, Stops, Ascent, Write;
    }
  }

  /** The nested calls, in closed form. */
  lemma {:induction false} MutateClosedForm(bs: seq<Builder>, i: nat, k: nat, c: Carried, filled: seq<Spec>, env: Env)
    requires i < |bs| && k <= |bs[i].hooks| && |filled| == i && filled == Specs(bs, env.client)[..i]
    requires ThroughAll(bs[i].hooks, k, c, env.client) == Final(bs[i], env.client) && !Stops(bs[i].hooks[..k])
    ensures var r := Mutate(bs, i, k, c, filled, env);
            r.log == ChainLog(bs, i, k, env) && (r.ok <==> ChainOk(bs, i, k, env))
    decreases |bs| - i, |bs[i].hooks| - k
  {
    var hooks := bs[i].hooks;
    if k == |hooks| {
      assert hooks[..k] == hooks;
      if i + 1 < |bs| {
        assert Specs(bs, env.client)[..i] + [SpecOf(c.cur)] == Specs(bs, env.client)[..i + 1];
        MutateClosedForm(bs, i + 1, 0, Start(bs[i + 1]), filled + [SpecOf(c.cur)], env);
        InnerTerminal(bs, i, c, filled, env);
      } else {
        LastTerminal(bs, i, c, filled, env);
      }
    } else {
      if hooks[k].control.CallOn? {
        assert hooks[..k + 1] == hooks[..k] + [hooks[k]];
        MutateClosedForm(bs, i, k + 1, Through(hooks[k], c, env.client), filled, env);
      }
      HookClosedForm(bs, i, k, c, filled, env);
    }
  }

  lemma SaveClosedForm(raw: seq<Builder>, stamps: seq<Stamp>, env: Env)
    requires |stamps| == |raw|
    ensures var bs := WithDefaults(raw, stamps);
            && Save(raw, stamps, env).log == SaveLog(bs, env)
            && (Save(raw, stamps, env).ok <==> bs == [] || ChainOk(bs, 0, 0, env))
  {
    var bs := WithDefaults(raw, stamps);
    if bs != [] {
      MutateClosedForm(bs, 0, 0, Start(bs[0]), [], env);
      FirstChain(bs, 0, env);
      hide Mutate, ChainLog, Descent, Ascent, Write, ChainOk;
    }
  }

  // ---------------------------------------------------------------- what the closed form means

  /** Where an event of the descent stands: builder by builder, hooks in order, then check and fill. */
  function Position(bs: seq<Builder>, e: Event): (int, int) {
    match e
    case Entered(i, k) => (i, k)
    case Checked(i) => (i, if i < |bs| then |bs[i].hooks| else 0)
    case Filled(i) => (i, if i < |bs| then |bs[i].hooks| + 1 else 0)
    case Defaulted(i) => (-1, i)
    case Wrote(_) => (|bs|, 0)
    case Done(i) => (|bs| + 1, 0 - i as int)
  }

  predicate Earlier(p: (int, int), q: (int, int)) { p.0 < q.0 || (p.0 == q.0 && p.1 < q.1) }

  /** Events come in strictly increasing position, so each comes at most once, and all of them lie
      between two bounds. */
  ghost predicate InOrder(bs: seq<Builder>, log: seq<Event>, low: (int, int), high: (int, int)) {
    && (forall p, q :: 0 <= p < q < |log| ==> Earlier(Position(bs, log[p]), Position(bs, log[q])))
    && (forall p :: 0 <= p < |log| ==> !Earlier(Position(bs, log[p]), low) && Earlier(Position(bs, log[p]), high))
  }

  lemma InOrderConcat(bs: seq<Builder>, a: seq<Event>, b: seq<Event>, low: (int, int), mid: (int, int),
                      high: (int, int))
    requires InOrder(bs, a, low, mid) && InOrder(bs, b, mid, high)
    requires !Earlier(mid, low) && !Earlier(high, mid)
    ensures InOrder(bs, a + b, low, high)
  {
    hide Position;
  }

  lemma {:induction false} EntriesInOrder(bs: seq<Builder>, i: nat, k: nat)
    requires i < |bs| && k <= |bs[i].hooks|
    ensures InOrder(bs, Entries(i, bs[i].hooks, k), (i, k), (i, |bs[i].hooks|))
    decreases |bs[i].hooks| - k
  {
    if k < |bs[i].hooks| {
      assert InOrder(bs, [Entered(i, k)], (i, k), (i, k + 1));
      if bs[i].hooks[k].control.CallOn? {
        EntriesInOrder(bs, i, k + 1);
        InOrderConcat(bs, [Entered(i, k)], Entries(i, bs[i].hooks, k + 1), (i, k), (i, k + 1), (i, |bs[i].hooks|));
      }
    }
  }

  lemma {:induction false} DescentInOrder(bs: seq<Builder>, i: nat, client: Option<Json>)
    requires i <= |bs|
    ensures InOrder(bs, Descent(bs, i, client), (i, 0), (|bs|, 0))
    decreases |bs| - i
  {
    if i < |bs| {
      var h := |bs[i].hooks|;
      EntriesInOrder(bs, i, 0);
      hide Passes;
      var entries := Entries(i, bs[i].hooks, 0);
      var tail := Descent(bs, i + 1, client);
      assert InOrder(bs, [Checked(i), Filled(i)], (i, h), (i + 1, 0));
      DescentInOrder(bs, i + 1, client);
      InOrderConcat(bs, [Checked(i), Filled(i)], tail, (i, h), (i + 1, 0), (|bs|, 0));
      var below := if Passes(bs[i], client) then [Checked(i), Filled(i)] + tail else [];
      InOrderConcat(bs, entries, below, (i, 0), (i, h), (|bs|, 0));
    }
  }

  lemma {:induction false} AscentInOrder(bs: seq<Builder>, i: nat, env: Env)
    requires i <= |bs|
    ensures InOrder(bs, Ascent(bs, i, env), (|bs| + 1, -|bs|), (|bs| + 1, 1 - i))
    decreases |bs| - i
  {
    if i < |bs| && Passes(bs[i], env.client) {
      AscentInOrder(bs, i + 1, env);
      var up, done := Ascent(bs, i + 1, env), if RestOk(bs, i, env) then [Done(i)] else [];
      assert Ascent(bs, i, env) == up + done;
      assert InOrder(bs, done, (|bs| + 1, 0 - i as int), (|bs| + 1, 1 - i));
      hide RestOk, Passes, Ascent, Position, InOrder;
      InOrderConcat(bs, up, done, (|bs| + 1, -|bs|), (|bs| + 1, 0 - i as int), (|bs| + 1, 1 - i));
    }
  }

  lemma {:induction false} AscentEvents(bs: seq<Builder>, i: nat, env: Env, e: Event)
    requires i <= |bs|
    ensures e in Ascent(bs, i, env) <==>
            && e.Done? && i <= e.builder < |bs|
            && (forall h :: i <= h <= e.builder ==> Passes(bs[h], env.client)) && RestOk(bs, e.builder, env)
    decreases |bs| - i
  {
    hide Passes, RestOk;
    if i < |bs| && Passes(bs[i], env.client) { AscentEvents(bs, i + 1, env, e); }
  }

  /** The order of everything a bulk save does, for all hooks that call on at most once: all defaults
      before any hook; hook k of builder i before hook k + 1 and before every hook of builder i + 1; a
      builder's check after its own hooks and before the next builder's; the one write after all of
      them; done marks last, from the last builder to the first. Nothing happens twice. */
  lemma SaveInOrder(raw: seq<Builder>, stamps: seq<Stamp>, env: Env)
    requires |stamps| == |raw|
    ensures var bs := WithDefaults(raw, stamps);
            && InOrder(bs, Save(raw, stamps, env).log, (-1, 0), (|bs| + 1, 1))
            && forall i :: 0 <= i < |bs| ==> Defaulted(i) in Save(raw, stamps, env).log
  {
    var bs := WithDefaults(raw, stamps);
    SaveClosedForm(raw, stamps, env);
    hide Save, Descent, Ascent;
    var down := Descent(bs, 0, env.client);
    assert InOrder(bs, DefaultsLog(|bs|), (-1, 0), (0, 0));
    DescentInOrder(bs, 0, env.client);
    InOrderConcat(bs, DefaultsLog(|bs|), down, (-1, 0), (0, 0), (|bs|, 0));
    var write, up := Write(bs, 0, env), Ascent(bs, 0, env);
    assert InOrder(bs, write, (|bs|, 0), (|bs| + 1, -|bs|));
    AscentInOrder(bs, 0, env);
    InOrderConcat(bs, write, up, (|bs|, 0), (|bs| + 1, -|bs|), (|bs| + 1, 1));
    var tail := if bs == [] then [] else write + up;
    InOrderConcat(bs, DefaultsLog(|bs|) + down, tail, (-1, 0), (|bs|, 0), (|bs| + 1, 1));
    forall i | 0 <= i < |bs| ensures Defaulted(i) in DefaultsLog(|bs|) { assert DefaultsLog(|bs|)[i] == Defaulted(i); }
  }

  lemma {:induction false} EntriesEvents(i: nat, hooks: seq<Hook>, k: nat)
    requires k <= |hooks|
    ensures forall e :: e in Entries(i, hooks, k) ==> e.Entered?
    ensures !Stops(hooks) ==> forall m :: k <= m < |hooks| ==> Entered(i, m) in Entries(i, hooks, k)
    decreases |hooks| - k
  {
    if k < |hooks| { EntriesEvents(i, hooks, k + 1); }
  }

  lemma {:induction false} DescentEvents(bs: seq<Builder>, i: nat, client: Option<Json>, e: Event)
    requires i <= |bs| && e in Descent(bs, i, client)
    ensures e.Entered? || e.Checked? || e.Filled?
    decreases |bs| - i
  {
    hide Passes;
    EntriesEvents(i, bs[i].hooks, 0);
    if e !in Entries(i, bs[i].hooks, 0) && e != Checked(i) && e != Filled(i) { DescentEvents(bs, i + 1, client, e); }
  }

  lemma {:induction false} DescentIsComplete(bs: seq<Builder>, i: nat, client: Option<Json>, j: nat)
    requires i <= j < |bs| && AllPass(bs, i, client)
    ensures Checked(j) in Descent(bs, i, client)
    ensures forall k :: 0 <= k < |bs[j].hooks| ==> Entered(j, k) in Descent(bs, i, client)
    decreases |bs| - i
  {
    assert Passes(bs[i], client);
    EntriesEvents(i, bs[i].hooks, 0);
    hide Final, Check, Entries;
    if i < j { DescentIsComplete(bs, i + 1, client, j); }
  }

  /** Every builder up to j passes, and the call of its innermost mutator is told of success. */
  predicate MarkedDone(bs: seq<Builder>, j: nat, env: Env) {
    j < |bs| && (forall h :: 0 <= h <= j ==> Passes(bs[h], env.client)) && RestOk(bs, j, env)
  }

  /** Where the events of a log come from: writes, done marks, and checks. */
  lemma SaveLogEvents(bs: seq<Builder>, env: Env, e: Event)
    ensures e.Wrote? ==> (e in SaveLog(bs, env) <==>
                            bs != [] && AllPass(bs, 0, env.client) && e.specs == Specs(bs, env.client))
    ensures e.Done? ==> (e in SaveLog(bs, env) <==> MarkedDone(bs, e.builder, env))
  {
    if e in Descent(bs, 0, env.client) { DescentEvents(bs, 0, env.client, e); }
    AscentEvents(bs, 0, env, e);
    hide Descent, Ascent, Specs, Passes, RestOk;
  }

  lemma EveryCheckComesFirst(bs: seq<Builder>, env: Env, j: nat)
    requires j < |bs| && AllPass(bs, 0, env.client)
    ensures Checked(j) in SaveLog(bs, env)
    ensures forall k :: 0 <= k < |bs[j].hooks| ==> Entered(j, k) in SaveLog(bs, env)
  {
    DescentIsComplete(bs, 0, env.client, j);
    hide Descent, Ascent, Write;
  }

  /** For all hooks that call on at most once: the batch is written exactly when every chain reaches its
      check and passes it, and then with one spec per builder, that of the mutation its hooks handed to
      it, after every check. Exactly those mutations are marked done which were reached and whose call
      was answered with success, and Save succeeds exactly when the outermost answer is success. */
  lemma BatchIsAllChecked(raw: seq<Builder>, stamps: seq<Stamp>, env: Env)
    requires |stamps| == |raw|
    ensures var bs, r := WithDefaults(raw, stamps), Save(raw, stamps, env);
            && (forall specs :: Wrote(specs) in r.log <==>
                  bs != [] && AllPass(bs, 0, env.client) && specs == Specs(bs, env.client))
            && (forall specs, j :: Wrote(specs) in r.log && 0 <= j < |bs| ==>
                  Checked(j) in r.log && forall k :: 0 <= k < |bs[j].hooks| ==> Entered(j, k) in r.log)
            && (forall j :: Done(j) in r.log <==> MarkedDone(bs, j, env))
            && (r.ok <==> bs == [] || ChainOk(bs, 0, 0, env))
  {
    var bs := WithDefaults(raw, stamps);
    SaveClosedForm(raw, stamps, env);
    hide Save, SaveLog, Specs, Passes, RestOk, ChainOk, MarkedDone;
    forall e { SaveLogEvents(bs, env, e); }
    if AllPass(bs, 0, env.client) {
      forall j: nat | j < |bs| { EveryCheckComesFirst(bs, env, j); }
    }
  }

  // ---------------------------------------------------------------- what success and done mean

  /** Hooks that report no success which they were not told of. */
  predicate Honest(hooks: seq<Hook>) {
    forall k :: 0 <= k < |hooks| ==> hooks[k].control in {Answer(false), CallOn(true, false), CallOn(false, false)}
  }

  /** Some hook turns a success into a failure. */
  predicate FailsAfter(hooks: seq<Hook>) { exists k :: 0 <= k < |hooks| && hooks[k].control == CallOn(false, false) }

  lemma {:induction false} HonestSettle(hooks: seq<Hook>, k: nat, inner: bool)
    requires k <= |hooks| && Honest(hooks)
    ensures Settle(hooks, k, inner) <==>
            inner && forall m :: k <= m < |hooks| ==> hooks[m].control == CallOn(true, false)
    decreases |hooks| - k
  {
    if k < |hooks| { HonestSettle(hooks, k + 1, inner); }
  }

  lemma {:induction false} HonestRest(bs: seq<Builder>, i: nat, env: Env)
    requires i < |bs| && forall j :: i < j < |bs| ==> Honest(bs[j].hooks)
    ensures RestOk(bs, i, env) <==>
            env.writeOk && forall j :: i < j < |bs| ==> Passes(bs[j], env.client) && !FailsAfter(bs[j].hooks)
    decreases |bs| - i
  {
    if i + 1 < |bs| {
      HonestRest(bs, i + 1, env);
      HonestSettle(bs[i + 1].hooks, 0, Check(Final(bs[i + 1], env.client).Own()).None? && RestOk(bs, i + 1, env));
    }
    hide Final, Check;
  }

  /** With honest hooks, Save reports success exactly when the batch was written and accepted and no hook
      made a failure of that; a mutation is marked done exactly when the batch was written and accepted
      and no hook of a later builder made a failure of that. */
  lemma HonestSavesReportTheWrite(raw: seq<Builder>, stamps: seq<Stamp>, env: Env)
    requires |stamps| == |raw| && raw != [] && forall j :: 0 <= j < |raw| ==> Honest(raw[j].hooks)
    ensures var bs, r := WithDefaults(raw, stamps), Save(raw, stamps, env);
            && (r.ok <==> && AllPass(bs, 0, env.client) && env.writeOk
                          && forall j :: 0 <= j < |bs| ==> !FailsAfter(bs[j].hooks))
            && (forall i :: 0 <= i < |bs| ==>
                  (Done(i) in r.log <==> && AllPass(bs, 0, env.client) && env.writeOk
                                         && forall j :: i < j < |bs| ==> !FailsAfter(bs[j].hooks)))
  {
    var bs := WithDefaults(raw, stamps);
    BatchIsAllChecked(raw, stamps, env);
    forall i | 0 <= i < |bs| { HonestRest(bs, i, env); }
    HonestSettle(bs[0].hooks, 0, Check(Final(bs[0], env.client).Own()).None? && RestOk(bs, 0, env));
    hide Save, Final, Check, RestOk, Settle;
  }

  /** A hook can report what was not: one that recovers from its inner error leaves the first mutation
      done, and Save successful, although the database refused the batch; one that answers success
      leaves Save successful with nothing written at all. */
  lemma DishonestHooksHideFailures(a: Builder, b: Builder, stamps: seq<Stamp>, client: Option<Json>)
    requires |stamps| == 2 && a.hooks == []
    requires Check(Defaults(a.fields, stamps[0].now, stamps[0].id)).None?
    requires Check(Defaults(b.fields, stamps[1].now, stamps[1].id)).None?
    ensures b.hooks == [Hook(Keep, CallOn(true, true))] ==>
              var r := Save([a, b], stamps, Env(client, false));
              r.ok && Done(0) in r.log && Done(1) !in r.log
    ensures b.hooks == [Hook(Keep, Answer(true))] ==>
              var r := Save([a, b], stamps, Env(client, true));
              r.ok && Done(0) in r.log && forall specs :: Wrote(specs) !in r.log
  {
    var bs := WithDefaults([a, b], stamps);
    assert Passes(bs[0], client);
    if b.hooks == [Hook(Keep, CallOn(true, true))] {
      var env := Env(client, false);
      BatchIsAllChecked([a, b], stamps, env);
      assert Settle(bs[1].hooks, 1, false) == false;
      assert !RestOk(bs, 1, env);
      assert RestOk(bs, 0, env);
      hide Save;
      assert MarkedDone(bs, 0, env) && !MarkedDone(bs, 1, env);
    }
    if b.hooks == [Hook(Keep, Answer(true))] {
      var env := Env(client, true);
      BatchIsAllChecked([a, b], stamps, env);
      hide Save;
      assert bs[1].hooks[0].control.Answer? && !Passes(bs[1], client) && !AllPass(bs, 0, client);
      assert RestOk(bs, 0, env) && MarkedDone(bs, 0, env);
    }
  }

  /** How many builders are reached: the leading ones that pass. */
  function Reached(bs: seq<Builder>, i: nat, client: Option<Json>): (n: nat)
    requires i <= |bs|
    ensures i <= n <= |bs| && (n < |bs| ==> !Passes(bs[n], client))
    ensures forall j :: i <= j < n ==> Passes(bs[j], client)
    decreases |bs| - i
  {
    if i == |bs| || !Passes(bs[i], client) then i else Reached(bs, i + 1, client)
  }

  /** The answer to the last builder reached: the database's, or that of the chain which stopped short. */
  predicate Bottom(bs: seq<Builder>, env: Env) {
    var n := Reached(bs, 0, env.client);
    if n == |bs| then env.writeOk else Settle(bs[n].hooks, 0, false)
  }

  lemma {:induction false} StoppedSettle(hooks: seq<Hook>, k: nat, inner: bool)
    requires k <= |hooks| && Stops(hooks[k..])
    ensures Settle(hooks, k, inner) == Settle(hooks, k, false)
    decreases |hooks| - k
  {
    if hooks[k].control.CallOn? {
      assert hooks[k..] == [hooks[k]] + hooks[k + 1..];
      StoppedSettle(hooks, k + 1, inner);
    }
  }

  lemma BottomIsLastAnswer(bs: seq<Builder>, env: Env)
    requires Reached(bs, 0, env.client) > 0
    ensures RestOk(bs, Reached(bs, 0, env.client) - 1, env) <==> Bottom(bs, env)
  {
    var n := Reached(bs, 0, env.client);
    if n < |bs| {
      assert bs[n].hooks[0..] == bs[n].hooks;
      if Stops(bs[n].hooks) {
        StoppedSettle(bs[n].hooks, 0, Check(Final(bs[n], env.client).Own()).None? && RestOk(bs, n, env));
      }
    }
  }

  /** Going up from builder n - 1, an answer that no chain turns comes through unchanged. */
  lemma {:induction false} AnswerComesThrough(bs: seq<Builder>, i: nat, n: nat, answer: bool, env: Env)
    requires i < n <= |bs| && (RestOk(bs, n - 1, env) <==> answer)
    requires forall j :: i < j < n ==> Passes(bs[j], env.client) && Settle(bs[j].hooks, 0, answer) == answer
    ensures RestOk(bs, i, env) <==> answer
    decreases n - i
  {
    hide Final, Check, Settle;
    if i + 1 < n { AnswerComesThrough(bs, i + 1, n, answer, env); }
  }

  /** If all those answers are the same, no chain on the way turned it. */
  lemma NoChainTurned(bs: seq<Builder>, n: nat, answer: bool, env: Env)
    requires 0 < n <= |bs| && forall j :: 0 <= j < n ==> Passes(bs[j], env.client) && RestOk(bs, j, env) == answer
    ensures forall j :: 0 < j < n ==> Settle(bs[j].hooks, 0, answer) == answer
  {
    forall j | 0 < j < n ensures Settle(bs[j].hooks, 0, answer) == answer {
      assert RestOk(bs, j - 1, env) == answer && RestOk(bs, j, env) == answer && Passes(bs[j], env.client);
    }
  }

  /** No chain turns the answer that comes up from the last builder reached. */
  predicate Unturned(bs: seq<Builder>, n: nat, answer: bool)
    requires n <= |bs|
  {
    forall j :: 0 < j < n ==> Settle(bs[j].hooks, 0, answer) == answer
  }

  predicate AllTold(bs: seq<Builder>, n: nat, answer: bool, env: Env)
    requires n <= |bs|
  {
    forall j :: 0 <= j < n ==> RestOk(bs, j, env) == answer
  }

  lemma UnturnedAnswers(bs: seq<Builder>, n: nat, answer: bool, env: Env)
    requires n == Reached(bs, 0, env.client) > 0 && answer == Bottom(bs, env)
    ensures Unturned(bs, n, answer) <==> AllTold(bs, n, answer, env)
    ensures RestOk(bs, n - 1, env) == answer
  {
    BottomIsLastAnswer(bs, env);
    hide Passes, Settle, RestOk, Bottom;
    if Unturned(bs, n, answer) {
      forall j | 0 <= j < n ensures RestOk(bs, j, env) == answer { AnswerComesThrough(bs, j, n, answer, env); }
    }
    if AllTold(bs, n, answer, env) {
      NoChainTurned(bs, n, answer, env);
    }
  }

  lemma UniformMarks(bs: seq<Builder>, n: nat, answer: bool, env: Env, log: seq<Event>)
    requires 0 < n <= |bs| && RestOk(bs, n - 1, env) == answer
    requires forall j :: 0 <= j < |bs| ==> (Done(j) in log <==> j < n && RestOk(bs, j, env))
    ensures ((forall j :: 0 <= j < |bs| ==> Done(j) in log) || (forall j :: 0 <= j < |bs| ==> Done(j) !in log)) <==>
            (n < |bs| ==> !answer) && AllTold(bs, n, answer, env)
  {
    hide RestOk;
    assert Done(n - 1) in log <==> answer;
    assert n < |bs| ==> Done(n) !in log;
    if AllTold(bs, n, answer, env) {
      assert forall j :: 0 <= j < n ==> (Done(j) in log <==> answer);
    }
  }

  /** All mutations are marked done or none is, exactly when no builder was reached at all, or else the
      last one reached was answered with a failure, unless that was all of them, and no later builder's
      hooks turn that answer on its way up. For all hooks that call on at most once. */
  lemma DoneIsAllOrNothing(raw: seq<Builder>, stamps: seq<Stamp>, env: Env)
    requires |stamps| == |raw| && raw != []
    ensures var bs, log := WithDefaults(raw, stamps), Save(raw, stamps, env).log;
            var n, answer := Reached(bs, 0, env.client), Bottom(bs, env);
            ((forall j :: 0 <= j < |bs| ==> Done(j) in log) || (forall j :: 0 <= j < |bs| ==> Done(j) !in log)) <==>
            n == 0 || ((n < |bs| ==> !answer) && Unturned(bs, n, answer))
  {
    var bs, log := WithDefaults(raw, stamps), Save(raw, stamps, env).log;
    var n, answer := Reached(bs, 0, env.client), Bottom(bs, env);
    BatchIsAllChecked(raw, stamps, env);
    if n > 0 { UnturnedAnswers(bs, n, answer, env); }
    hide Save, Passes, Settle, RestOk, Bottom, Unturned, Reached;
    assert forall j :: 0 <= j < |bs| ==> (Done(j) in log <==> j < n && RestOk(bs, j, env)) by {
      forall j | 0 <= j < |bs| ensures MarkedDone(bs, j, env) <==> j < n && RestOk(bs, j, env) {}
    }
    if n > 0 {
      UniformMarks(bs, n, answer, env, log);
    }
  }

  predicate Swaps(hooks: seq<Hook>) { exists k :: 0 <= k < |hooks| && hooks[k].change.Swap? }

  /** Hooks that only edit or stamp the mutation and pass the call on. */
  predicate PassThrough(hooks: seq<Hook>) {
    forall k :: 0 <= k < |hooks| ==> !hooks[k].change.Swap? && hooks[k].control == PASS_ON
  }

  lemma {:induction false} WithoutSwapOwnIsCurrent(hooks: seq<Hook>, k: nat, c: Carried, client: Option<Json>)
    requires k <= |hooks| && c.shared && forall m :: 0 <= m < |hooks| ==> !hooks[m].change.Swap?
    ensures ThroughAll(hooks, k, c, client).shared
    decreases |hooks| - k
  {
    if k < |hooks| { WithoutSwapOwnIsCurrent(hooks, k + 1, Through(hooks[k], c, client), client); }
  }

  /** With pass-through hooks only: every spec written is that of a mutation that passed the check, and
      either all mutations end up done, with Save succeeding, or none does. */
  lemma PassThroughBulkIsAllOrNothing(raw: seq<Builder>, stamps: seq<Stamp>, env: Env)
    requires |stamps| == |raw| && forall j :: 0 <= j < |raw| ==> PassThrough(raw[j].hooks)
    ensures var bs, r := WithDefaults(raw, stamps), Save(raw, stamps, env);
            && (forall specs :: Wrote(specs) in r.log ==>
                  |specs| == |bs| && forall j :: 0 <= j < |bs| ==>
                    var f := Final(bs[j], env.client).cur; specs[j] == SpecOf(f) && Check(f).None?)
            && (if r.ok then forall j :: 0 <= j < |bs| ==> Done(j) in r.log else forall j :: Done(j) !in r.log)
  {
    var bs := WithDefaults(raw, stamps);
    BatchIsAllChecked(raw, stamps, env);
    forall j | 0 <= j < |bs|
      ensures Final(bs[j], env.client).shared && Honest(raw[j].hooks) && !FailsAfter(bs[j].hooks)
    {
      WithoutSwapOwnIsCurrent(bs[j].hooks, 0, Start(bs[j]), env.client);
    }
    if raw != [] { HonestSavesReportTheWrite(raw, stamps, env); }
    hide Save, Check, SpecOf, Final, RestOk, ChainOk, Honest, FailsAfter;
  }

  /** Whatever the hooks do, the batch is written exactly if all of them call on and every builder's own
      mutation is then complete. */
  lemma BatchNeedsCompleteMutations(raw: seq<Builder>, stamps: seq<Stamp>, env: Env)
    requires |stamps| == |raw| && raw != []
    ensures var bs := WithDefaults(raw, stamps);
            (exists specs :: Wrote(specs) in Save(raw, stamps, env).log) <==>
            forall j :: 0 <= j < |bs| ==>
              && (forall k :: 0 <= k < |bs[j].hooks| ==> bs[j].hooks[k].control.CallOn?)
              && Complete(Final(bs[j], env.client).Own())
  {
    var bs := WithDefaults(raw, stamps);
    BatchIsAllChecked(raw, stamps, env);
    forall j | 0 <= j < |bs| { CompleteMutationsPass(Final(bs[j], env.client).Own()); }
    hide Save, Check, Final, Specs, ChainOk, RestOk, Complete, HasRequired, MarkedDone;
    if AllPass(bs, 0, env.client) {
      assert Wrote(Specs(bs, env.client)) in Save(raw, stamps, env).log;
      forall j | 0 <= j < |bs| ensures Passes(bs[j], env.client) {}
    }
  }

  /** Hooks that always call on and never hand on another mutation. */
  predicate Plain(hooks: seq<Hook>) {
    forall k :: 0 <= k < |hooks| ==> hooks[k].control.CallOn? && !hooks[k].change.Swap?
  }

  /** What a bulk can get into the table with such hooks: rows that have a tenant, an actor, a time and an
      action that is not empty; and it does write them if every mutation has these after its defaults
      and hooks. */
  lemma BulkWritesCompleteRows(raw: seq<Builder>, stamps: seq<Stamp>, env: Env)
    requires |stamps| == |raw| && raw != [] && forall j :: 0 <= j < |raw| ==> Plain(raw[j].hooks)
    ensures var bs, log := WithDefaults(raw, stamps), Save(raw, stamps, env).log;
            && (forall specs :: Wrote(specs) in log ==>
                  |specs| == |raw| && forall j :: 0 <= j < |specs| ==> HasRequired(specs[j]))
            && ((exists specs :: Wrote(specs) in log) <==>
                  forall j :: 0 <= j < |bs| ==> Complete(Final(bs[j], env.client).cur))
  {
    var bs := WithDefaults(raw, stamps);
    BatchIsAllChecked(raw, stamps, env);
    BatchNeedsCompleteMutations(raw, stamps, env);
    forall j | 0 <= j < |bs|
      ensures Final(bs[j], env.client).shared
      ensures Complete(Final(bs[j], env.client).cur) <==> HasRequired(SpecOf(Final(bs[j], env.client).cur))
    {
      WithoutSwapOwnIsCurrent(bs[j].hooks, 0, Start(bs[j]), env.client);
      CompleteMutationsPass(Final(bs[j], env.client).cur);
    }
    assert forall j :: 0 <= j < |bs| ==> bs[j].hooks == raw[j].hooks;
    hide Save, Check, Final, SpecOf, ChainOk, RestOk, Complete, HasRequired, MarkedDone, AllPass, WithDefaults;
  }

  /** Pass-through hooks leave the last word to the database: Save succeeds exactly if it accepts and every
      mutation is complete. */
  lemma PassThroughSaveSucceeds(raw: seq<Builder>, stamps: seq<Stamp>, env: Env)
    requires |stamps| == |raw| && raw != [] && forall j :: 0 <= j < |raw| ==> PassThrough(raw[j].hooks)
    ensures var bs := WithDefaults(raw, stamps);
            Save(raw, stamps, env).ok <==>
            env.writeOk && forall j :: 0 <= j < |bs| ==> Complete(Final(bs[j], env.client).cur)
  {
    var bs := WithDefaults(raw, stamps);
    forall j | 0 <= j < |raw|
      ensures Plain(raw[j].hooks) && Honest(raw[j].hooks) && !FailsAfter(bs[j].hooks)
    {
    }
    BulkWritesCompleteRows(raw, stamps, env);
    HonestSavesReportTheWrite(raw, stamps, env);
    BatchIsAllChecked(raw, stamps, env);
    hide Save, Final, Complete, HasRequired, AllPass, Specs, PassThrough, Plain, Honest, FailsAfter, ChainOk;
    hide MarkedDone;
    if AllPass(bs, 0, env.client) { assert Wrote(Specs(bs, env.client)) in Save(raw, stamps, env).log; }
  }

  /** What the defaults come to: without hooks each row is what the builder's setters set, with the clock's
      time and the generator's id where they set none. */
  lemma BareBuildersWriteTheirFields(raw: seq<Builder>, stamps: seq<Stamp>, env: Env)
    requires |stamps| == |raw| && forall j :: 0 <= j < |raw| ==> raw[j].hooks == []
    ensures forall specs :: Wrote(specs) in Save(raw, stamps, env).log ==>
              |specs| == |raw| && forall j :: 0 <= j < |raw| ==>
                var f, id, at := raw[j].fields, raw[j].fields.id, raw[j].fields.createdAt;
                specs[j] == SpecOf(f.(id := Some(if id.Some? then id.value else stamps[j].id),
                                      createdAt := Some(if at.Some? then at.value else stamps[j].now)))
  {
    var bs := WithDefaults(raw, stamps);
    BatchIsAllChecked(raw, stamps, env);
    forall j | 0 <= j < |raw|
      ensures Final(bs[j], env.client).cur == Defaults(raw[j].fields, stamps[j].now, stamps[j].id)
    {
    }
    hide Save, SpecOf, ChainOk, RestOk, MarkedDone, AllPass, Final;
  }

  /** Hooks act in their order, each on what the one before it left. */
  lemma EditsActInOrder(b: Builder, first: Fields -> Fields, second: Fields -> Fields, third: Fields -> Fields,
                        client: Option<Json>)
    requires b.hooks == [Hook(Edit(first), PASS_ON), Hook(Keep, PASS_ON), Hook(Edit(second), PASS_ON),
                         Hook(Swap(third), PASS_ON)]
    ensures Final(b, client).cur == third(second(first(b.fields)))
    ensures Final(b, client).Own() == second(first(b.fields))
  {
    var c1 := Carried(first(b.fields), b.fields, true);
    var c2 := Carried(second(first(b.fields)), b.fields, true);
    var c3 := Carried(third(second(first(b.fields))), second(first(b.fields)), false);
    assert ThroughAll(b.hooks, 4, c3, client) == c3;
    assert ThroughAll(b.hooks, 3, c2, client) == c3;
    assert ThroughAll(b.hooks, 2, c1, client) == c3;
    assert ThroughAll(b.hooks, 1, c1, client) == c3;
  }

  /** The mutation that builder j's hooks hand on does not pass the check. */
  predicate Unchecked(bs: seq<Builder>, j: nat, env: Env) { j < |bs| && Check(Final(bs[j], env.client).cur).Some? }

  lemma UncheckedTakesSwap(bs: seq<Builder>, env: Env)
    ensures forall j :: 0 <= j < |bs| && Passes(bs[j], env.client) && Unchecked(bs, j, env) ==> Swaps(bs[j].hooks)
  {
    forall j | 0 <= j < |bs| && !Swaps(bs[j].hooks) ensures Final(bs[j], env.client).shared {
      WithoutSwapOwnIsCurrent(bs[j].hooks, 0, Start(bs[j]), env.client);
    }
    hide Check;
  }

  /** A bulk writes the row of a mutation that does not pass the check exactly when every builder's own
      mutation does, so that the batch is written, and some mutation handed on does not. That takes a hook of that
      builder which hands on another mutation. */
  lemma BulkWritesUnchecked(raw: seq<Builder>, stamps: seq<Stamp>, env: Env)
    requires |stamps| == |raw|
    ensures var bs, r := WithDefaults(raw, stamps), Save(raw, stamps, env);
            (exists specs, j :: && Wrote(specs) in r.log && 0 <= j < |bs| == |specs| && Unchecked(bs, j, env)
                                && specs[j] == SpecOf(Final(bs[j], env.client).cur)) <==>
            AllPass(bs, 0, env.client) && exists j :: 0 <= j < |bs| && Unchecked(bs, j, env)
    ensures var bs := WithDefaults(raw, stamps);
            forall j :: 0 <= j < |bs| && Passes(bs[j], env.client) && Unchecked(bs, j, env) ==> Swaps(bs[j].hooks)
  {
    var bs := WithDefaults(raw, stamps);
    BatchIsAllChecked(raw, stamps, env);
    UncheckedTakesSwap(bs, env);
    hide Save, RestOk, ChainOk, Check, AllPass, Final, SpecOf, Unchecked, Passes, Swaps, MarkedDone, WithDefaults;
    if j :| AllPass(bs, 0, env.client) && 0 <= j < |bs| && Unchecked(bs, j, env) {
      assert Wrote(Specs(bs, env.client)) in Save(raw, stamps, env).log;
      assert Specs(bs, env.client)[j] == SpecOf(Final(bs[j], env.client).cur);
    }
  }

  // ---------------------------------------------------------------- the trail in a bulk

  ghost predicate KeepsMetadata(h: Hook) {
    match h.change
    case Keep => true
    case Trail => true
    case Edit(to) => forall f :: to(f).metadata == f.metadata
    case Swap(_) => false
  }

  lemma {:induction false} ThroughSplit(hooks: seq<Hook>, t: nat, k: nat, c: Carried, client: Option<Json>)
    requires k <= t <= |hooks|
    ensures ThroughAll(hooks, k, c, client) == ThroughAll(hooks, t, ThroughAll(hooks[..t], k, c, client), client)
    decreases t - k
  {
    if k < t { ThroughSplit(hooks, t, k + 1, Through(hooks[k], c, client), client); }
  }

  /** Once stamped, the metadata stays as it is under hooks that leave it alone or stamp it again. */
  lemma {:induction false} StampStays(hooks: seq<Hook>, k: nat, c: Carried, info: Json)
    requires k <= |hooks| && forall m :: k <= m < |hooks| ==> KeepsMetadata(hooks[m])
    requires c.cur.metadata.Some? && c.cur.metadata.value.Made?
    requires KEY_CLIENT in c.cur.metadata.value.entries && c.cur.metadata.value.entries[KEY_CLIENT] == info
    ensures ThroughAll(hooks, k, c, Some(info)).cur.metadata == c.cur.metadata
    decreases |hooks| - k
  {
    if k < |hooks| {
      assert KeepsMetadata(hooks[k]);
      var entries := c.cur.metadata.value.entries;
      assert entries[KEY_CLIENT := info] == entries;
      StampStays(hooks, k + 1, Through(hooks[k], c, Some(info)), info);
    }
  }

  /** Wherever TrailHook stands in a builder's chain: if the hooks inside it leave metadata alone, the
      mutation that is written carries the server's client value, whatever value the caller or an
      outer hook had put there, and all other keys as they stood when the trail hook was entered. */
  lemma TrailIsWritten(b: Builder, t: nat, info: Json)
    requires t < |b.hooks| && b.hooks[t].change.Trail? && forall m :: t < m < |b.hooks| ==> KeepsMetadata(b.hooks[m])
    ensures var was := Cloned(ThroughAll(b.hooks[..t], 0, Start(b), Some(info)).cur.metadata);
            Final(b, Some(info)).cur.metadata == Some(Made(was[KEY_CLIENT := info]))
  {
    var before := ThroughAll(b.hooks[..t], 0, Start(b), Some(info));
    ThroughSplit(b.hooks, t, 0, Start(b), Some(info));
    StampStays(b.hooks, t + 1, Through(b.hooks[t], before, Some(info)), info);
  }

  lemma StampedRow(b: Builder, info: Json)
    requires b.hooks == [TRAIL_HOOK]
    ensures var spec := SpecOf(Final(b, Some(info)).cur);
            && Metadata in spec
            && spec[Metadata] == Bytes(Encoded(Made(Cloned(b.fields.metadata)[KEY_CLIENT := info])))
  {
    TrailIsWritten(b, 0, info);
    EveryColumnIsListed(Metadata);
    assert FieldValue(Final(b, Some(info)).cur, Metadata).Some?;
    hide Final, Cloned;
  }

  /** The service registers the trail hook alone. Every row of a bulk insert made under a context with
      client info carries it, and keeps every other metadata key its builder had. */
  lemma BulkRowsCarryTheTrail(raw: seq<Builder>, stamps: seq<Stamp>, env: Env, info: Json)
    requires |stamps| == |raw| && env.client == Some(info)
    requires forall j :: 0 <= j < |raw| ==> raw[j].hooks == [TRAIL_HOOK]
    ensures forall specs :: Wrote(specs) in Save(raw, stamps, env).log ==>
              |specs| == |raw| && forall j :: 0 <= j < |specs| ==>
                && Metadata in specs[j]
                && (raw[j].fields.metadata.None? || raw[j].fields.metadata.value.NilMap? ==>
                      specs[j][Metadata] == Bytes(Encoded(Made(map["client" := info]))))
                && (raw[j].fields.metadata.Some? && raw[j].fields.metadata.value.Made? ==>
                      specs[j][Metadata] ==
                      Bytes(Encoded(Made(raw[j].fields.metadata.value.entries["client" := info]))))
  {
    assert KEY_CLIENT == "client";
    assert forall m: Option<JsonMap> :: Cloned(m) == if m.Some? && m.value.Made? then m.value.entries else map[];
    var bs := WithDefaults(raw, stamps);
    BatchIsAllChecked(raw, stamps, env);
    assert forall j :: 0 <= j < |raw| ==>
      bs[j].hooks == raw[j].hooks && bs[j].fields.metadata == raw[j].fields.metadata;
    hide Save, AllPass, Final, SpecOf, Cloned, MarkedDone, RestOk, ChainOk, WithDefaults;
    forall j | 0 <= j < |raw|
      ensures var spec := SpecOf(Final(bs[j], env.client).cur);
              && Metadata in spec
              && spec[Metadata] == Bytes(Encoded(Made(Cloned(raw[j].fields.metadata)[KEY_CLIENT := info])))
    {
      StampedRow(bs[j], info);
    }
  }

  lemma TrailHookChangesMetadataOnly(b: Builder, client: Option<Json>)
    requires b.hooks == [TRAIL_HOOK]
    ensures Final(b, client).cur == b.fields.(metadata := Final(b, client).cur.metadata)
  {
    var c := Through(TRAIL_HOOK, Start(b), client);
    assert ThroughAll(b.hooks, 1, c, client) == c;
  }

  /** As the service runs, saving audit entries in bulk succeeds exactly if each has a tenant, an actor and
      an action that is not empty, and the database accepts the batch. */
  lemma AuditEntriesAreSaved(raw: seq<Builder>, stamps: seq<Stamp>, env: Env)
    requires |stamps| == |raw| && raw != [] && forall j :: 0 <= j < |raw| ==> raw[j].hooks == [TRAIL_HOOK]
    ensures Save(raw, stamps, env).ok <==>
            env.writeOk && forall j :: 0 <= j < |raw| ==>
              && raw[j].fields.tenantID.Some? && raw[j].fields.actorUserID.Some?
              && raw[j].fields.action.Some? && raw[j].fields.action.value != ""
  {
    var bs := WithDefaults(raw, stamps);
    PassThroughSaveSucceeds(raw, stamps, env);
    forall j | 0 <= j < |raw|
      ensures Complete(Final(bs[j], env.client).cur) <==>
              && raw[j].fields.tenantID.Some? && raw[j].fields.actorUserID.Some?
              && raw[j].fields.action.Some? && raw[j].fields.action.value != ""
    {
      TrailHookChangesMetadataOnly(bs[j], env.client);
      DefaultsFillGaps(raw[j].fields, stamps[j].now, stamps[j].id);
      hide Final;
    }
    hide Save, Final, Complete;
  }

  // ---------------------------------------------------------------- the single create

  /** AuditLogCreate.Save through withHooks: what it hands to the database, if anything. The mutation the
      hooks hand on is copied into the builder before the check. */
  function MutateOne(b: Builder, k: nat, c: Carried, client: Option<Json>): Option<Spec>
    requires k <= |b.hooks|
    decreases |b.hooks| - k
  {
    if k < |b.hooks| then
      if b.hooks[k].control.Answer? then None else MutateOne(b, k + 1, Through(b.hooks[k], c, client), client)
    else if Check(c.cur).Some? then None
    else Some(SpecOf(c.cur))
  }

  lemma {:induction false} SingleClosedForm(b: Builder, k: nat, c: Carried, client: Option<Json>)
    requires k <= |b.hooks| && !Stops(b.hooks[..k])
    ensures var f := ThroughAll(b.hooks, k, c, client).cur;
            MutateOne(b, k, c, client) == if Stops(b.hooks) || Check(f).Some? then None else Some(SpecOf(f))
    decreases |b.hooks| - k
  {
    if k == |b.hooks| {
      assert b.hooks[..k] == b.hooks;
    } else if b.hooks[k].control.CallOn? {
      assert b.hooks[..k + 1] == b.hooks[..k] + [b.hooks[k]];
      SingleClosedForm(b, k + 1, Through(b.hooks[k], c, client), client);
    }
  }

  /** What a single create can get into the table, whatever its hooks do: the row of the mutation they
      handed on, if that is complete and all of them call on. */
  lemma SingleWritesCompleteRows(b: Builder, client: Option<Json>)
    ensures var f, spec := Final(b, client).cur, MutateOne(b, 0, Start(b), client);
            && (spec.Some? ==> spec.value == SpecOf(f) && HasRequired(spec.value))
            && (spec.Some? <==> Complete(f) && forall k :: 0 <= k < |b.hooks| ==> b.hooks[k].control.CallOn?)
  {
    SingleClosedForm(b, 0, Start(b), client);
    CompleteMutationsPass(Final(b, client).cur);
    hide ThroughAll, MutateOne, Check, SpecOf, Complete, HasRequired;
  }

  /** A single create checks the mutation it writes. A bulk checks the builder's own mutation, so the
      two writes differ exactly when the own one passes and the one handed on does not, or the other
      way round, and that takes a hook which hands on another mutation. */
  lemma BulkChecksItsOwnMutation(b: Builder, stamp: Stamp, env: Env)
    ensures var d := WithDefaults([b], [stamp])[0];
            var f, own := Final(d, env.client).cur, Final(d, env.client).Own();
            var single := MutateOne(d, 0, Start(d), env.client);
            var bulk := if Wrote([SpecOf(f)]) in Save([b], [stamp], env).log then Some(SpecOf(f)) else None;
            && (single != bulk <==> !Stops(d.hooks) && Check(f).None? != Check(own).None?)
            && (single != bulk ==> Swaps(d.hooks))
  {
    var bs := WithDefaults([b], [stamp]);
    var d := bs[0];
    BatchIsAllChecked([b], [stamp], env);
    SingleClosedForm(d, 0, Start(d), env.client);
    var f := Final(d, env.client).cur;
    assert Specs(bs, env.client) == [SpecOf(f)];
    assert AllPass(bs, 0, env.client) <==> Passes(d, env.client);
    if !Swaps(d.hooks) {
      WithoutSwapOwnIsCurrent(d.hooks, 0, Start(d), env.client);
    }
    hide Save, MutateOne, ThroughAll, Check, SpecOf, RestOk, ChainOk;
  }

  /** Such a hook lets a bulk write a row without an action. */
  lemma SwapEscapesTheBulkCheck(b: Builder, stamp: Stamp, env: Env)
    requires Check(Defaults(b.fields, stamp.now, stamp.id)).None?
    requires |b.hooks| == 1 && b.hooks[0].control == PASS_ON && b.hooks[0].change.Swap?
    requires forall f: Fields :: b.hooks[0].change.to(f) == f.(action := None)
    ensures var f := Defaults(b.fields, stamp.now, stamp.id).(action := None);
            Check(f).Some? && Wrote([SpecOf(f)]) in Save([b], [stamp], env).log
  {
    var bs := WithDefaults([b], [stamp]);
    var f := Defaults(b.fields, stamp.now, stamp.id).(action := None);
    BatchIsAllChecked([b], [stamp], env);
    var c := Through(b.hooks[0], Start(bs[0]), env.client);
    assert c.cur == f && c.Own() == bs[0].fields;
    assert Final(bs[0], env.client) == c by {
      assert ThroughAll(bs[0].hooks, 1, c, env.client) == c;
    }
    assert Specs(bs, env.client) == [SpecOf(f)];
    assert AllPass(bs, 0, env.client);
  }
}
