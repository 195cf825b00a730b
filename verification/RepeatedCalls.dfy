/** Bulk creation when hooks may call on any number of times, to retry or to repeat: what is still true
    of every batch that is written (internal/ent/auditlog_create.go). Mutations are objects here, named
    by their place in a heap, because a second call finds them as the first one left them. For hooks
    that call on at most once this is BulkCreate. */
module RepeatedCalls {
  import opened Prelude
  import opened AuditLog
  import B = BulkCreate

  /** A hook: it changes the mutation it was handed, or makes another one to hand on, and then answers; or
      calls on, and goes on by one plan if that succeeded and by another if it failed. */
  datatype Hook = Answer(change: B.Change, ok: bool) | CallOn(change: B.Change, onOk: Hook, onErr: Hook)

  /** All mutations there are; which one each builder holds; how often the database was asked. */
  datatype World = World(mutations: seq<Fields>, held: seq<nat>, writes: nat)

  datatype Event =
    | Entered(builder: nat, hook: nat)
    | Filled(builder: nat, checked: Fields, spec: Spec)
    | Wrote(specs: seq<Spec>)
    | Done(builder: nat)

  /** The request's client info, and the database's answers to the first write, the second, and so on. */
  datatype Env = Env(client: Option<Json>, accepts: nat -> bool)

  datatype Reply = Reply(ok: bool, log: seq<Event>, world: World)

  predicate Proper(w: World, n: nat) {
    |w.held| == n && forall j :: 0 <= j < n ==> w.held[j] < |w.mutations|
  }

  /** The world after a hook's change to mutation m, and the mutation it hands on. */
  function Changed(change: B.Change, m: nat, w: World, client: Option<Json>): (World, nat)
    requires m < |w.mutations|
  {
    match change
    case Keep => (w, m)
    case Trail => (w.(mutations := w.mutations[m := B.Stamped(w.mutations[m], client)]), m)
    case Edit(to) => (w.(mutations := w.mutations[m := to(w.mutations[m])]), m)
    case Swap(to) => (w.(mutations := w.mutations + [to(w.mutations[m])]), |w.mutations|)
  }

  /** mutators[i] from its k-th hook on, called on mutation m, with `filled` the slots before i. */
  function Mutate(chains: seq<seq<Hook>>, i: nat, k: nat, m: nat, w: World, filled: seq<Spec>, env: Env): (r: Reply)
    requires i < |chains| && k <= |chains[i]| && Proper(w, |chains|) && m < |w.mutations|
    ensures Proper(r.world, |chains|) && |w.mutations| <= |r.world.mutations|
    decreases |chains| - i, |chains[i]| - k, 1
  {
    if k < |chains[i]| then
      var r := Obey(chains[i][k], chains, i, k, m, w, filled, env);
      r.(log := [Entered(i, k)] + r.log)
    else if Check(w.mutations[w.held[i]]).Some? then Reply(false, [], w)
    else
      var spec := SpecOf(w.mutations[m]);
      var taken := w.(held := w.held[i := m]);
      var rest := if i + 1 < |chains| then Mutate(chains, i + 1, 0, taken.held[i + 1], taken, filled + [spec], env)
                  else Reply(env.accepts(w.writes), [Wrote(filled + [spec])], taken.(writes := w.writes + 1));
      var done := if rest.ok then [Done(i)] else [];
      rest.(log := [Filled(i, w.mutations[w.held[i]], spec)] + rest.log + done)
  }

  /** Hook k of builder i, or what is left of it, on the mutation m it was handed: each call goes to the
      rest of the chain. */
  function Obey(plan: Hook, chains: seq<seq<Hook>>, i: nat, k: nat, m: nat, w: World, filled: seq<Spec>,
                env: Env): (r: Reply)
    requires i < |chains| && k < |chains[i]| && Proper(w, |chains|) && m < |w.mutations|
    ensures Proper(r.world, |chains|) && |w.mutations| <= |r.world.mutations|
    decreases |chains| - i, |chains[i]| - k, 0, plan
  {
    match plan
    case Answer(change, ok) => Reply(ok, [], Changed(change, m, w, env.client).0)
    case CallOn(change, onOk, onErr) =>
      var (changed, next) := Changed(change, m, w, env.client);
      var first := Mutate(chains, i, k + 1, next, changed, filled, env);
      var again := Obey(if first.ok then onOk else onErr, chains, i, k, m, first.world, filled, env);
      again.(log := first.log + again.log)
  }

  // ---------------------------------------------------------------- every batch, whatever the hooks do

  function Fill(slots: seq<Spec>, i: nat, spec: Spec): seq<Spec> {
    if i <= |slots| then slots[..i] + [spec] else slots
  }

  /** The slots that the descent under way has filled: filling slot i leaves those behind it stale. */
  function SlotsAfter(log: seq<Event>, slots: seq<Spec>): seq<Spec>
    decreases |log|
  {
    if log == [] then slots
    else SlotsAfter(log[1..], if log[0].Filled? then Fill(slots, log[0].builder, log[0].spec) else slots)
  }

  /** A log is sound if no slot is filled before all slots in front of it are, nor unless the builder's
      own mutation passes its check just then; and if every batch has one spec per builder, each from
      the very descent that led to the write. */
  predicate Sound(log: seq<Event>, n: nat, slots: seq<Spec>)
    decreases |log|
  {
    log == [] ||
    match log[0]
    case Filled(i, checked, spec) =>
      i <= |slots| && i < n && Check(checked).None? && Sound(log[1..], n, Fill(slots, i, spec))
    case Wrote(specs) => |slots| == n && specs == slots && Sound(log[1..], n, slots)
    case _ => Sound(log[1..], n, slots)
  }

  lemma {:induction false} SoundConcat(a: seq<Event>, b: seq<Event>, n: nat, slots: seq<Spec>)
    requires Sound(a, n, slots) && Sound(b, n, SlotsAfter(a, slots))
    ensures Sound(a + b, n, slots) && SlotsAfter(a + b, slots) == SlotsAfter(b, SlotsAfter(a, slots))
    decreases |a|
  {
    if a == [] {
      assert a + b == b;
    } else {
      assert (a + b)[0] == a[0] && (a + b)[1..] == a[1..] + b;
      SoundConcat(a[1..], b, n, if a[0].Filled? then Fill(slots, a[0].builder, a[0].spec) else slots);
    }
  }

  lemma OneEvent(e: Event, log: seq<Event>, n: nat, slots: seq<Spec>)
    requires !e.Filled? && !e.Wrote? && Sound(log, n, slots)
    ensures Sound([e] + log, n, slots) && SlotsAfter([e] + log, slots) == SlotsAfter(log, slots)
    ensures Sound(log + [e], n, slots) && SlotsAfter(log + [e], slots) == SlotsAfter(log, slots)
  {
    assert ([e] + log)[1..] == log && [e][1..] == [];
    SoundConcat(log, [e], n, slots);
  }

  /** The part of a chain from hook k of builder i on leaves the slots before i alone, and is sound
      wherever it is called with those slots filled, be it for the first time or again. */
  lemma {:induction false} MutateIsSound(chains: seq<seq<Hook>>, i: nat, k: nat, m: nat, w: World, filled: seq<Spec>,
                                         env: Env,
                                         slots: seq<Spec>)
    requires i < |chains| && k <= |chains[i]| && Proper(w, |chains|) && m < |w.mutations|
    requires |filled| == i <= |slots| && slots[..i] == filled
    ensures var log := Mutate(chains, i, k, m, w, filled, env).log;
            && Sound(log, |chains|, slots)
            && |SlotsAfter(log, slots)| >= i && SlotsAfter(log, slots)[..i] == filled
    decreases |chains| - i, |chains[i]| - k, 1
  {
    if k < |chains[i]| {
      ObeyIsSound(chains[i][k], chains, i, k, m, w, filled, env, slots);
      var r := Obey(chains[i][k], chains, i, k, m, w, filled, env);
      OneEvent(Entered(i, k), r.log, |chains|, slots);
    } else if Check(w.mutations[w.held[i]]).None? {
      FillIsSound(chains, i, m, w, filled, env, slots);
    }
  }

  lemma {:induction false} FillIsSound(chains: seq<seq<Hook>>, i: nat, m: nat, w: World, filled: seq<Spec>, env: Env,
                                       slots: seq<Spec>)
    requires i < |chains| && Proper(w, |chains|) && m < |w.mutations| && Check(w.mutations[w.held[i]]).None?
    requires |filled| == i <= |slots| && slots[..i] == filled
    ensures var log := Mutate(chains, i, |chains[i]|, m, w, filled, env).log;
            && Sound(log, |chains|, slots)
            && |SlotsAfter(log, slots)| >= i && SlotsAfter(log, slots)[..i] == filled
    decreases |chains| - i, 0, 0
  {
    var spec := SpecOf(w.mutations[m]);
    var taken := w.(held := w.held[i := m]);
    var slots' := filled + [spec];
    var fill := Filled(i, w.mutations[w.held[i]], spec);
    var rest := if i + 1 < |chains| then Mutate(chains, i + 1, 0, taken.held[i + 1], taken, slots', env)
                else Reply(env.accepts(w.writes), [Wrote(slots')], taken.(writes := w.writes + 1));
    var done := if rest.ok then [Done(i)] else [];
    assert Mutate(chains, i, |chains[i]|, m, w, filled, env).log == [fill] + rest.log + done;
    hide SpecOf, Check;
    assert Fill(slots, i, spec) == slots';
    if i + 1 < |chains| {
      assert slots'[..i + 1] == slots';
      MutateIsSound(chains, i + 1, 0, taken.held[i + 1], taken, slots', env, slots');
    } else {
      assert [Wrote(slots')][1..] == [];
      assert SlotsAfter([Wrote(slots')], slots') == SlotsAfter([], slots') == slots';
    }
    hide Mutate;
    var after := SlotsAfter(rest.log, slots');
    assert |after| > i && after[..i + 1] == slots';
    assert after[..i] == after[..i + 1][..i];
    assert [fill][1..] == [];
    SoundConcat([fill], rest.log, |chains|, slots);
    if rest.ok { OneEvent(Done(i), [fill] + rest.log, |chains|, slots); }
    assert [fill] + rest.log + [] == [fill] + rest.log;
  }

  lemma {:induction false} ObeyIsSound(plan: Hook, chains: seq<seq<Hook>>, i: nat, k: nat, m: nat, w: World,
                                       filled: seq<Spec>,
                                       env: Env, slots: seq<Spec>)
    requires i < |chains| && k < |chains[i]| && Proper(w, |chains|) && m < |w.mutations|
    requires |filled| == i <= |slots| && slots[..i] == filled
    ensures var log := Obey(plan, chains, i, k, m, w, filled, env).log;
            && Sound(log, |chains|, slots)
            && |SlotsAfter(log, slots)| >= i && SlotsAfter(log, slots)[..i] == filled
    decreases |chains| - i, |chains[i]| - k, 0, plan
  {
    match plan
    case Answer(_, _) =>
    case CallOn(change, onOk, onErr) =>
      var (changed, handed) := Changed(change, m, w, env.client);
      var first := Mutate(chains, i, k + 1, handed, changed, filled, env);
      MutateIsSound(chains, i, k + 1, handed, changed, filled, env, slots);
      var between, next := SlotsAfter(first.log, slots), if first.ok then onOk else onErr;
      ObeyIsSound(next, chains, i, k, m, first.world, filled, env, between);
      SoundConcat(first.log, Obey(next, chains, i, k, m, first.world, filled, env).log, |chains|, slots);
  }

  /** The bulk save of builders that hold one mutation each, and run these chains of hooks. */
  function Save(fields: seq<Fields>, chains: seq<seq<Hook>>, env: Env): Reply
    requires |fields| == |chains|
  {
    var w := World(fields, seq(|fields|, j => j), 0);
    if chains == [] then Reply(true, [], w) else Mutate(chains, 0, 0, 0, w, [], env)
  }

  /** For all hooks whatever, however often they call on and whatever they answer: no batch is written
      but with one spec from every builder, in order, each filled in the descent that led to that very
      write, after a check of the builder's own mutation that passed. */
  lemma EveryBatchIsChecked(fields: seq<Fields>, chains: seq<seq<Hook>>, env: Env)
    requires |fields| == |chains|
    ensures Sound(Save(fields, chains, env).log, |chains|, [])
  {
    if chains != [] {
      MutateIsSound(chains, 0, 0, 0, World(fields, seq(|fields|, j => j), 0), [], env, []);
    }
  }

  /** Hooks that call on more than once can have more than one batch written: one that retries a failure
      asks the database again. */
  lemma RetryWritesTwice(f: Fields, client: Option<Json>)
    requires Check(f).None?
    ensures var again := CallOn(B.Keep, Answer(B.Keep, true), Answer(B.Keep, false));
            var retry := CallOn(B.Keep, Answer(B.Keep, true), again);
            var r := Save([f], [[retry]], Env(client, attempt => attempt > 0));
            r.ok && r.world.writes == 2 &&
            r.log == [Entered(0, 0), Filled(0, f, SpecOf(f)), Wrote([SpecOf(f)]),
                      Filled(0, f, SpecOf(f)), Wrote([SpecOf(f)]), Done(0)]
  {
    var again := CallOn(B.Keep, Answer(B.Keep, true), Answer(B.Keep, false));
    var retry := CallOn(B.Keep, Answer(B.Keep, true), again);
    var chains, env := [[retry]], Env(client, attempt => attempt > 0);
    var w := World([f], seq(1, j => j), 0);
    hide SpecOf, Check;
    var none: seq<Spec> := [];
    assert none + [SpecOf(f)] == [SpecOf(f)];
    assert w.held[0 := 0] == w.held;
    var first := Mutate(chains, 0, 1, 0, w, [], env);
    assert first == Reply(false, [Filled(0, f, SpecOf(f)), Wrote([SpecOf(f)])], w.(writes := 1));
    var second := Mutate(chains, 0, 1, 0, first.world, [], env);
    assert second == Reply(true, [Filled(0, f, SpecOf(f)), Wrote([SpecOf(f)]), Done(0)], w.(writes := 2));
  }

  // ---------------------------------------------------------------- hooks that call on at most once

  function Lift(h: B.Hook): Hook {
    match h.control
    case Answer(ok) => Answer(h.change, ok)
    case CallOn(onOk, onErr) => CallOn(h.change, Answer(B.Keep, onOk), Answer(B.Keep, onErr))
  }

  function Lifted(hooks: seq<B.Hook>): seq<Hook> { seq(|hooks|, k requires 0 <= k < |hooks| => Lift(hooks[k])) }

  function Chains(bs: seq<B.Builder>): seq<seq<Hook>> { seq(|bs|, i requires 0 <= i < |bs| => Lifted(bs[i].hooks)) }

  /** A log in the vocabulary of BulkCreate. */
  function Seen(log: seq<Event>): seq<B.Event> {
    if log == [] then []
    else
      (match log[0]
       case Entered(i, k) => [B.Entered(i, k)]
       case Filled(i, _, _) => [B.Checked(i), B.Filled(i)]
       case Wrote(specs) => [B.Wrote(specs)]
       case Done(i) => [B.Done(i)])
      + Seen(log[1..])
  }

  lemma {:induction false} SeenConcat(a: seq<Event>, b: seq<Event>)
    ensures Seen(a + b) == Seen(a) + Seen(b)
  {
    if a == [] {
      assert a + b == b;
    } else {
      assert (a + b)[0] == a[0] && (a + b)[1..] == a[1..] + b;
      SeenConcat(a[1..], b);
    }
  }

  lemma SeenNothing()
    ensures Seen([]) == []
  {
  }

  lemma SeenOne(e: Event)
    ensures e.Wrote? ==> Seen([e]) == [B.Wrote(e.specs)]
    ensures e.Done? ==> Seen([e]) == [B.Done(e.builder)]
    ensures e.Entered? ==> Seen([e]) == [B.Entered(e.builder, e.hook)]
    ensures e.Filled? ==> Seen([e]) == [B.Checked(e.builder), B.Filled(e.builder)]
  {
    assert [e][1..] == [];
    SeenNothing();
  }

  /** The world as the chain of builder i finds it on its one descent, carrying m. */
  ghost predicate Stands(bs: seq<B.Builder>, i: nat, m: nat, w: World, c: B.Carried) {
    && Proper(w, |bs|) && i < |bs| && m < |w.mutations| && w.writes == 0
    && w.mutations[m] == c.cur
    && (if c.shared then w.held[i] == m else w.held[i] != m && w.mutations[w.held[i]] == c.own)
    && (forall j :: i < j < |bs| ==> w.held[j] != m && w.mutations[w.held[j]] == bs[j].fields)
    && (forall j, l :: i < j < l < |bs| ==> w.held[j] != w.held[l])
  }

  lemma ChangeStands(bs: seq<B.Builder>, i: nat, h: B.Hook, m: nat, w: World, c: B.Carried, client: Option<Json>)
    requires Stands(bs, i, m, w, c)
    ensures var (changed, next) := Changed(h.change, m, w, client);
            Stands(bs, i, next, changed, B.Through(h, c, client))
  {
  }

  lemma TerminalAgrees(bs: seq<B.Builder>, i: nat, c: B.Carried, m: nat, w: World, filled: seq<Spec>, env: Env)
    requires Stands(bs, i, m, w, c) && Check(c.Own()).None?
    requires i + 1 < |bs| ==>
               var taken, slots := w.(held := w.held[i := m]), filled + [SpecOf(c.cur)];
               var r := Mutate(Chains(bs), i + 1, 0, taken.held[i + 1], taken, slots, env);
               var q := B.Mutate(bs, i + 1, 0, B.Start(bs[i + 1]), slots, B.Env(env.client, env.accepts(0)));
               r.ok == q.ok && Seen(r.log) == q.log
    ensures var r := Mutate(Chains(bs), i, |bs[i].hooks|, m, w, filled, env);
            var q := B.Mutate(bs, i, |bs[i].hooks|, c, filled, B.Env(env.client, env.accepts(0)));
            r.ok == q.ok && Seen(r.log) == q.log
  {
    var taken, slots := w.(held := w.held[i := m]), filled + [SpecOf(c.cur)];
    var rest := if i + 1 < |bs| then Mutate(Chains(bs), i + 1, 0, taken.held[i + 1], taken, slots, env)
                else Reply(env.accepts(0), [Wrote(slots)], taken.(writes := 1));
    var fill, done := Filled(i, c.Own(), SpecOf(c.cur)), if rest.ok then [Done(i)] else [];
    assert Mutate(Chains(bs), i, |bs[i].hooks|, m, w, filled, env).log == [fill] + rest.log + done;
    assert B.Mutate(bs, i, |bs[i].hooks|, c, filled, B.Env(env.client, env.accepts(0))).log ==
           [B.Checked(i), B.Filled(i)] + Seen(rest.log) + (if rest.ok then [B.Done(i)] else []) by {
      SeenOne(Wrote(slots));
    }
    SeenOne(fill);
    SeenOne(Done(i));
    SeenConcat([fill] + rest.log, done);
    SeenConcat([fill], rest.log);
    hide SpecOf, Check, Mutate, B.Mutate, Seen;
    assert rest.ok || Seen(done) == [] by { SeenNothing(); }
  }

  /** On hooks that call on at most once, this is the bulk create of BulkCreate. */
  lemma {:induction false} MutateAgrees(bs: seq<B.Builder>, i: nat, k: nat, c: B.Carried, m: nat, w: World,
                                        filled: seq<Spec>,
                                        env: Env)
    requires Stands(bs, i, m, w, c) && k <= |bs[i].hooks|
    ensures var r := Mutate(Chains(bs), i, k, m, w, filled, env);
            var q := B.Mutate(bs, i, k, c, filled, B.Env(env.client, env.accepts(0)));
            r.ok == q.ok && Seen(r.log) == q.log
    decreases |bs| - i, |bs[i].hooks| - k
  {
    hide SpecOf, Check, B.Stamped;
    if k < |bs[i].hooks| {
      HookAgrees(bs, i, k, c, m, w, filled, env);
    } else if Check(c.Own()).None? {
      var taken, slots := w.(held := w.held[i := m]), filled + [SpecOf(c.cur)];
      if i + 1 < |bs| {
        var m' := taken.held[i + 1];
        assert Stands(bs, i + 1, m', taken, B.Start(bs[i + 1]));
        MutateAgrees(bs, i + 1, 0, B.Start(bs[i + 1]), m', taken, slots, env);
      }
      TerminalAgrees(bs, i, c, m, w, filled, env);
    }
  }

  lemma {:induction false} HookAgrees(bs: seq<B.Builder>, i: nat, k: nat, c: B.Carried, m: nat, w: World,
                                      filled: seq<Spec>,
                                      env: Env)
    requires Stands(bs, i, m, w, c) && k < |bs[i].hooks|
    ensures var r := Mutate(Chains(bs), i, k, m, w, filled, env);
            var q := B.Mutate(bs, i, k, c, filled, B.Env(env.client, env.accepts(0)));
            r.ok == q.ok && Seen(r.log) == q.log
    decreases |bs| - i, |bs[i].hooks| - k, 0
  {
    var h, chains := bs[i].hooks[k], Chains(bs);
    var (changed, next) := Changed(h.change, m, w, env.client);
    assert chains[i][k] == Lift(h);
    ChangeStands(bs, i, h, m, w, c, env.client);
    var r := Mutate(chains, i, k, m, w, filled, env);
    if h.control.CallOn? {
      MutateAgrees(bs, i, k + 1, B.Through(h, c, env.client), next, changed, filled, env);
      var inner := Mutate(chains, i, k + 1, next, changed, filled, env);
      var last := Answer(B.Keep, if inner.ok then h.control.onOk else h.control.onErr);
      assert Obey(last, chains, i, k, m, inner.world, filled, env) == Reply(last.ok, [], inner.world);
      assert Obey(Lift(h), chains, i, k, m, w, filled, env) == Reply(last.ok, inner.log + [], inner.world);
      assert inner.log + [] == inner.log;
      assert r.log == [Entered(i, k)] + inner.log && r.ok == last.ok;
    } else {
      assert r.log == [Entered(i, k)] + [] && r.ok == h.control.ok;
    }
    hide Mutate, Obey, Changed, B.Through;
    assert [Entered(i, k)][1..] == [];
    SeenConcat([Entered(i, k)], r.log[1..]);
    assert r.log == [Entered(i, k)] + r.log[1..];
  }

  lemma SaveAgrees(raw: seq<B.Builder>, stamps: seq<B.Stamp>, env: Env)
    requires |stamps| == |raw|
    ensures var bs := B.WithDefaults(raw, stamps);
            var r := Save(seq(|bs|, j requires 0 <= j < |bs| => bs[j].fields), Chains(bs), env);
            var q := B.Save(raw, stamps, B.Env(env.client, env.accepts(0)));
            r.ok == q.ok && B.DefaultsLog(|raw|) + Seen(r.log) == q.log
  {
    var bs := B.WithDefaults(raw, stamps);
    var w := World(seq(|bs|, j requires 0 <= j < |bs| => bs[j].fields), seq(|bs|, j => j), 0);
    if bs != [] {
      assert Stands(bs, 0, 0, w, B.Start(bs[0]));
      MutateAgrees(bs, 0, 0, B.Start(bs[0]), 0, w, [], env);
    }
    hide Mutate, B.Mutate;
  }
}
