/** The bulk save as the code does it: builders and mutations are objects, metadata maps are shared
    references, chains of mutators are built by wrapping and results are filled in by index
    (internal/ent/auditlog_create.go, internal/audit/trail.go). Proved against BulkCreate. */
module BulkSave {
  import opened Prelude
  import opened AuditLog
  import opened BulkCreate

  /** A Go map, which any number of mutations and callers may hold. */
  class GoMap {
    var entries: map<string, Json>

    constructor ()
      ensures entries == map[]
    {
      entries := map[];
    }
  }

  /** cloneMap: m is only read, and keys come in any order. */
  method CloneMap(m: GoMap?) returns (out: GoMap)
    ensures fresh(out) && out.entries == (if m == null then map[] else m.entries)
  {
    out := new GoMap();
    if m != null {
      var left := m.entries.Keys;
      while left != {}
        invariant fresh(out) && left <= m.entries.Keys && out.entries.Keys == m.entries.Keys - left
        invariant forall key :: key in out.entries ==> out.entries[key] == m.entries[key]
        decreases |left|
      {
        var key :| key in left;
        out.entries := out.entries[key := m.entries[key]];
        left := left - {key};
      }
    }
  }

  /** A mutation. `fields` holds everything but the metadata, which is a reference. */
  class AuditLogMutation {
    var fields: Fields
    var metadata: Option<GoMap?>
    var done: bool

    function View(): Fields
      reads this, if metadata.Some? && metadata.value != null then {metadata.value} else {}
    {
      fields.(metadata := if metadata.None? then None
                          else if metadata.value == null then Some(NilMap)
                          else Some(Made(metadata.value.entries)))
    }

    constructor (f: Fields)
      ensures View() == f && !done && (metadata.Some? && metadata.value != null ==> fresh(metadata.value))
    {
      fields, metadata, done := f, None, false;
      new;
      Become(f);
    }

    /** The setters a hook may call: metadata it leaves alone stays the same map. */
    method Become(f: Fields)
      modifies this
      ensures View() == f && done == old(done)
      ensures metadata == old(metadata) || (metadata.Some? && metadata.value != null ==> fresh(metadata.value))
    {
      if f.metadata != View().metadata {
        match f.metadata
        case None => metadata := None;
        case Some(NilMap) => metadata := Some(null);
        case Some(Made(entries)) =>
          var made := new GoMap();
          made.entries := entries;
          metadata := Some(made);
      }
      fields := f;
    }
  }

  /** TrailHook on an audit entry. It writes to the mutation and to a map of its own making. */
  method StampTrail(m: AuditLogMutation, client: Option<Json>)
    modifies m
    ensures m.View() == Stamped(old(m.View()), client) && m.done == old(m.done)
    ensures if client.None? then m.metadata == old(m.metadata)
            else m.metadata.Some? && m.metadata.value != null && fresh(m.metadata.value)
  {
    if client.Some? {
      var copy := CloneMap(if m.metadata.Some? then m.metadata.value else null);
      copy.entries := copy.entries[KEY_CLIENT := client.value];
      m.metadata := Some(copy);
    }
  }

  class AuditLogCreate {
    var mutation: AuditLogMutation
    const hooks: seq<Hook>

    constructor (mutation: AuditLogMutation, hooks: seq<Hook>)
      ensures this.mutation == mutation && this.hooks == hooks
    {
      this.mutation, this.hooks := mutation, hooks;
    }

    method ApplyDefaults(stamp: Stamp)
      modifies mutation
      ensures mutation.View() == Defaults(old(mutation.View()), stamp.now, stamp.id)
      ensures mutation.done == old(mutation.done) && mutation.metadata == old(mutation.metadata)
    {
      if mutation.fields.createdAt.None? { mutation.fields := mutation.fields.(createdAt := Some(stamp.now)); }
      if mutation.fields.id.None? { mutation.fields := mutation.fields.(id := Some(stamp.id)); }
    }
  }

  /** A mutator: the one that checks and fills, or a hook around another. */
  datatype Mutator = Terminal(builder: nat) | Wrapped(builder: nat, k: nat, hook: Hook, next: Mutator)

  /** The chain that runs hooks k, k + 1, ... and then the terminal mutator. */
  function Chain(i: nat, hooks: seq<Hook>, k: nat): Mutator
    requires k <= |hooks|
    decreases |hooks| - k
  {
    if k == |hooks| then Terminal(i) else Wrapped(i, k, hooks[k], Chain(i, hooks, k + 1))
  }

  /** Wrapping from the last hook to the first leaves the first outermost. */
  method WrapHooks(i: nat, hooks: seq<Hook>) returns (mut: Mutator)
    ensures mut == Chain(i, hooks, 0)
  {
    mut := Terminal(i);
    var k := |hooks|;
    while k > 0
      invariant 0 <= k <= |hooks| && mut == Chain(i, hooks, k)
    {
      k := k - 1;
      mut := Wrapped(i, k, hooks[k], mut);
    }
  }

  /** m is what the chain of b carries. */
  ghost predicate Carries(b: AuditLogCreate, m: AuditLogMutation, c: Carried)
    reads b, b.mutation, m
    reads if m.metadata.Some? && m.metadata.value != null then {m.metadata.value} else {}
    reads if b.mutation.metadata.Some? && b.mutation.metadata.value != null then {b.mutation.metadata.value} else {}
  {
    && m.View() == c.cur && !m.done && !b.mutation.done
    && (if c.shared then b.mutation == m else b.mutation != m && b.mutation.View() == c.own)
  }

  /** What a hook does before it calls on: the mutation it hands to the next mutator. */
  method Enter(hook: Hook, b: AuditLogCreate, m: AuditLogMutation, client: Option<Json>,
               ghost c: Carried, ghost others: seq<AuditLogMutation>)
    returns (next: AuditLogMutation)
    requires Carries(b, m, c) && m !in others
    modifies m
    ensures next !in others && forall o :: o in others ==> o.View() == old(o.View()) && o.done == old(o.done)
    ensures Carries(b, next, Through(hook, c, client)) && (next == m || fresh(next))
    ensures b.mutation == old(b.mutation)
  {
    next := m;
    match hook.change
    case Keep =>
    case Trail => StampTrail(m, client);
    case Edit(to) => m.Become(to(m.View()));
    case Swap(to) => next := new AuditLogMutation(to(m.View()));
  }

  /** What is called once the slots before i are filled: chain i, or, after the last, the write. */
  function Onward(bs: seq<Builder>, i: nat, filled: seq<Spec>, env: Env): Outcome {
    if i < |bs| then BulkCreate.Mutate(bs, i, 0, Start(bs[i]), filled, env) else Outcome(env.writeOk, [Wrote(filled)])
  }

  /** The innermost mutator of builder i on c, with `filled` the specs before it. */
  function Innermost(bs: seq<Builder>, i: nat, c: Carried, filled: seq<Spec>, env: Env): Outcome
    requires i < |bs|
  {
    if Check(c.Own()).Some? then Outcome(false, [])
    else
      var rest := Onward(bs, i + 1, filled + [SpecOf(c.cur)], env);
      Outcome(rest.ok, [Checked(i), Filled(i)] + rest.log + (if rest.ok then [Done(i)] else []))
  }

  lemma UnfoldHook(bs: seq<Builder>, i: nat, k: nat, c: Carried, filled: seq<Spec>, env: Env)
    requires i < |bs| && k < |bs[i].hooks|
    ensures var r, hook := BulkCreate.Mutate(bs, i, k, c, filled, env), bs[i].hooks[k];
            match hook.control
            case Answer(ok) => r == Outcome(ok, [Entered(i, k)])
            case CallOn(onOk, onErr) =>
              var rest := BulkCreate.Mutate(bs, i, k + 1, Through(hook, c, env.client), filled, env);
              r == Outcome(if rest.ok then onOk else onErr, [Entered(i, k)] + rest.log)
  {
    hide Check, SpecOf, Through;
  }

  lemma UnfoldInnermost(bs: seq<Builder>, i: nat, c: Carried, filled: seq<Spec>, env: Env)
    requires i < |bs|
    ensures BulkCreate.Mutate(bs, i, |bs[i].hooks|, c, filled, env) == Innermost(bs, i, c, filled, env)
  {
    hide Check, SpecOf;
  }

  lemma UnfoldSave(raw: seq<Builder>, stamps: seq<Stamp>, env: Env)
    requires |stamps| == |raw|
    ensures |WithDefaults(raw, stamps)| == |raw| && forall e :: e in DefaultsLog(|raw|) ==> e.Defaulted?
    ensures var chain := if raw == [] then Outcome(true, []) else Onward(WithDefaults(raw, stamps), 0, [], env);
            BulkCreate.Save(raw, stamps, env) == Outcome(chain.ok, DefaultsLog(|raw|) + chain.log)
  {
    hide BulkCreate.Mutate, Defaults;
  }

  /** What is in slot j of the nodes after a log: if it was filled, the node of the mutation that builder
      j's hooks handed on. */
  function SlotAfter(bs: seq<Builder>, log: seq<Event>, j: nat, client: Option<Json>,
                     before: Option<Node>): Option<Node>
    requires j < |bs|
  {
    if Filled(j) in log then Some(NodeOf(Final(bs[j], client).cur)) else before
  }

  /** Events that neither fill nor mark make no difference. */
  lemma AfterOthers(bs: seq<Builder>, before: seq<Event>, log: seq<Event>, client: Option<Json>)
    requires forall e :: e in before ==> !e.Done? && !e.Filled?
    ensures forall j :: Done(j) in before + log <==> Done(j) in log
    ensures forall j :: Filled(j) in before + log <==> Filled(j) in log
    ensures forall j, was :: 0 <= j < |bs| ==>
              SlotAfter(bs, before + log, j, client, was) == SlotAfter(bs, log, j, client, was)
  {
    hide NodeOf, Final;
  }

  lemma DoneMarks(i: nat, rest: seq<Event>, ok: bool, log: seq<Event>)
    requires log == [Checked(i), Filled(i)] + rest + (if ok then [Done(i)] else [])
    ensures forall j :: Done(j) in log <==> Done(j) in rest || (ok && j == i)
    ensures forall j :: Filled(j) in log <==> Filled(j) in rest || j == i
  {
  }

  class AuditLogCreateBulk {
    const builders: seq<AuditLogCreate>
    const failed: bool

    constructor (builders: seq<AuditLogCreate>, failed: bool)
      ensures this.builders == builders && this.failed == failed
    {
      this.builders, this.failed := builders, failed;
    }

    /** From builder `from` on, the builders are distinct and hold the mutations `ms`, one each. */
    ghost predicate Holds(from: nat, ms: seq<AuditLogMutation>)
      reads builders
    {
      && |ms| == |builders|
      && (forall j :: from <= j < |ms| ==> builders[j].mutation == ms[j])
      && (forall i, j :: from <= i < j < |ms| ==> ms[i] != ms[j])
      && (forall i, j :: from <= i < j < |ms| ==> builders[i] != builders[j])
    }

    /** Calls mutator `mut` on m: runs a hook and calls on, or, innermost, checks and fills. */
    method Mutate(mut: Mutator, m: AuditLogMutation, mutators: array<Mutator>, specs: array<Spec>,
                  nodes: array<Option<Node>>,
                  env: Env, ghost ms: seq<AuditLogMutation>, ghost bs: seq<Builder>, ghost k: nat, ghost c: Carried)
      returns (ok: bool, log: seq<Event>)
      requires mutators.Length == specs.Length == nodes.Length == |builders| == |bs|
      requires forall j :: 0 <= j < |bs| ==> mutators[j] == Chain(j, bs[j].hooks, 0)
      requires mut.builder < |bs| && k <= |bs[mut.builder].hooks| && mut == Chain(mut.builder, bs[mut.builder].hooks, k)
      requires Carries(builders[mut.builder], m, c)
      requires ThroughAll(bs[mut.builder].hooks, k, c, env.client) == Final(bs[mut.builder], env.client)
      requires Holds(mut.builder + 1, ms) && m !in ms[mut.builder + 1..]
      requires builders[mut.builder] !in builders[mut.builder + 1..]
      requires forall j :: mut.builder < j < |bs| ==> ms[j].View() == bs[j].fields && !ms[j].done
      modifies m, builders[mut.builder..], ms[mut.builder + 1..], specs, nodes
      ensures var r := BulkCreate.Mutate(bs, mut.builder, k, c, old(specs[..mut.builder]), env);
              ok == r.ok && log == r.log
      ensures forall j :: 0 <= j < mut.builder ==> specs[j] == old(specs[j]) && nodes[j] == old(nodes[j])
      ensures forall j :: mut.builder <= j < |bs| ==>
                nodes[j] == SlotAfter(bs, log, j, env.client, old(nodes[j]))
      ensures forall j :: Done(j) in log || Filled(j) in log ==> mut.builder <= j
      ensures forall j :: mut.builder <= j < |bs| ==> (builders[j].mutation.done <==> Done(j) in log)
      ensures forall j :: mut.builder < j < |bs| ==> builders[j].mutation == ms[j] || fresh(builders[j].mutation)
      ensures var own := builders[mut.builder].mutation;
              own == m || own == old(builders[mut.builder].mutation) || fresh(own)
      decreases |builders| - mut.builder, 1 + |bs[mut.builder].hooks| - k
    {
      ghost var filled := specs[..mut.builder];
      ghost var hooks := bs[mut.builder].hooks;
      assert ThroughAll(hooks, k, c, env.client) ==
             if k == |hooks| then c else ThroughAll(hooks, k + 1, Through(hooks[k], c, env.client), env.client);
      assert k < |hooks| ==> mut == Wrapped(mut.builder, k, hooks[k], Chain(mut.builder, hooks, k + 1));
      assert k == |hooks| <==> mut.Terminal?;
      hide Chain, ThroughAll, BulkCreate.Mutate, Innermost, Through, SlotAfter, Final, Holds, AuditLogMutation.View;
      match mut
      case Wrapped(i, at, hook, next) =>
        UnfoldHook(bs, i, k, c, filled, env);
        if hook.control.Answer? { return hook.control.ok, [Entered(i, at)]; }
        var rest: seq<Event>;
        ok, rest := CallOn(i, hook, next, m, mutators, specs, nodes, env, ms, bs, k, c);
        AfterOthers(bs, [Entered(i, at)], rest, env.client);
        ok, log := if ok then hook.control.onOk else hook.control.onErr, [Entered(i, at)] + rest;
      case Terminal(i) =>
        UnfoldInnermost(bs, i, c, filled, env);
        ok, log := CheckAndFill(i, m, mutators, specs, nodes, env, ms, bs, c);
    }

    /** What a hook that calls on does to the mutation, and the mutator it calls. */
    method CallOn(i: nat, hook: Hook, next: Mutator, m: AuditLogMutation, mutators: array<Mutator>,
                  specs: array<Spec>, nodes: array<Option<Node>>,
                  env: Env, ghost ms: seq<AuditLogMutation>, ghost bs: seq<Builder>, ghost k: nat, ghost c: Carried)
      returns (ok: bool, log: seq<Event>)
      requires mutators.Length == specs.Length == nodes.Length == |builders| == |bs|
      requires forall j :: 0 <= j < |bs| ==> mutators[j] == Chain(j, bs[j].hooks, 0)
      requires i < |bs| && k < |bs[i].hooks| && hook == bs[i].hooks[k] && next == Chain(i, bs[i].hooks, k + 1)
      requires Carries(builders[i], m, c)
      requires ThroughAll(bs[i].hooks, k + 1, Through(hook, c, env.client), env.client) == Final(bs[i], env.client)
      requires Holds(i + 1, ms) && m !in ms[i + 1..] && builders[i] !in builders[i + 1..]
      requires forall j :: i < j < |bs| ==> ms[j].View() == bs[j].fields && !ms[j].done
      modifies m, builders[i..], ms[i + 1..], specs, nodes
      ensures var r := BulkCreate.Mutate(bs, i, k + 1, Through(hook, c, env.client), old(specs[..i]), env);
              ok == r.ok && log == r.log
      ensures forall j :: 0 <= j < i ==> specs[j] == old(specs[j]) && nodes[j] == old(nodes[j])
      ensures forall j :: i <= j < |bs| ==>
                nodes[j] == SlotAfter(bs, log, j, env.client, old(nodes[j]))
      ensures forall j :: Done(j) in log || Filled(j) in log ==> i <= j
      ensures forall j :: i <= j < |bs| ==> (builders[j].mutation.done <==> Done(j) in log)
      ensures forall j :: i < j < |bs| ==> builders[j].mutation == ms[j] || fresh(builders[j].mutation)
      ensures var own := builders[i].mutation; own == m || own == old(builders[i].mutation) || fresh(own)
      decreases |builders| - i, 1 + |bs[i].hooks| - k, 0
    {
      assert |ms| == |builders|;
      hide Chain, ThroughAll, BulkCreate.Mutate, Through, SlotAfter, Final, Holds, AuditLogMutation.View;
      var m' := Enter(hook, builders[i], m, env.client, c, ms[i + 1..]);
      assert forall j :: i < j < |bs| ==> ms[j] in ms[i + 1..];
      ok, log := Mutate(next, m', mutators, specs, nodes, env, ms, bs, k + 1, Through(hook, c, env.client));
    }

    /** The innermost mutator of builder i: checks the builder, gives it m, fills slot i, then calls the
        next builder's chain, or writes. */
    method CheckAndFill(i: nat, m: AuditLogMutation, mutators: array<Mutator>, specs: array<Spec>,
                        nodes: array<Option<Node>>,
                        env: Env, ghost ms: seq<AuditLogMutation>, ghost bs: seq<Builder>, ghost c: Carried)
      returns (ok: bool, log: seq<Event>)
      requires mutators.Length == specs.Length == nodes.Length == |builders| == |bs|
      requires forall j :: 0 <= j < |bs| ==> mutators[j] == Chain(j, bs[j].hooks, 0)
      requires i < |bs| && Carries(builders[i], m, c) && c == Final(bs[i], env.client)
      requires Holds(i + 1, ms) && m !in ms[i + 1..] && builders[i] !in builders[i + 1..]
      requires forall j :: i < j < |bs| ==> ms[j].View() == bs[j].fields && !ms[j].done
      modifies m, builders[i..], ms[i + 1..], specs, nodes
      ensures var r := Innermost(bs, i, c, old(specs[..i]), env); ok == r.ok && log == r.log
      ensures forall j :: 0 <= j < i ==> specs[j] == old(specs[j]) && nodes[j] == old(nodes[j])
      ensures forall j :: i <= j < |bs| ==>
                nodes[j] == SlotAfter(bs, log, j, env.client, old(nodes[j]))
      ensures forall j :: Done(j) in log || Filled(j) in log ==> i <= j
      ensures forall j :: i <= j < |bs| ==> (builders[j].mutation.done <==> Done(j) in log)
      ensures forall j :: i < j < |bs| ==> builders[j].mutation == ms[j] || fresh(builders[j].mutation)
      ensures var own := builders[i].mutation; own == m || own == old(builders[i].mutation) || fresh(own)
      decreases |builders| - i, 0
    {
      hide Onward, Check, SpecOf, NodeOf, Final, AuditLogMutation.View;
      var passed := Fill(i, m, specs, nodes, c);
      if !passed {
        return false, [];
      }
      var rest: seq<Event>;
      ok, rest := CallFrom(i + 1, mutators, specs, nodes, env, ms, bs);
      if ok { m.done := true; }
      log := [Checked(i), Filled(i)] + rest + (if ok then [Done(i)] else []);
      DoneMarks(i, rest, ok, log);
    }

    /** The check of the builder's own mutation, and then the slot of the one handed on. */
    method Fill(i: nat, m: AuditLogMutation, specs: array<Spec>, nodes: array<Option<Node>>,
                ghost c: Carried) returns (passed: bool)
      requires i < |builders| == specs.Length == nodes.Length && Carries(builders[i], m, c)
      modifies builders[i], specs, nodes
      ensures passed <==> Check(c.Own()).None?
      ensures forall j :: 0 <= j < i ==> specs[j] == old(specs[j]) && nodes[j] == old(nodes[j])
      ensures builders[i].mutation == if passed then m else old(builders[i].mutation)
      ensures !passed ==> nodes[i] == old(nodes[i])
      ensures forall j :: i < j < |builders| ==> nodes[j] == old(nodes[j])
      ensures passed ==> specs[..i + 1] == old(specs[..i]) + [SpecOf(c.cur)] && nodes[i] == Some(NodeOf(c.cur))
    {
      hide Check, SpecOf, NodeOf;
      if Check(builders[i].mutation.View()).Some? {
        return false;
      }
      builders[i].mutation := m;
      nodes[i], specs[i] := Some(NodeOf(m.View())), SpecOf(m.View());
      passed := true;
    }

    /** The slots before i are filled: the chain of builder i, or, after the last, the write. */
    method CallFrom(i: nat, mutators: array<Mutator>, specs: array<Spec>, nodes: array<Option<Node>>, env: Env,
                    ghost ms: seq<AuditLogMutation>, ghost bs: seq<Builder>)
      returns (ok: bool, log: seq<Event>)
      requires mutators.Length == specs.Length == nodes.Length == |builders| == |bs|
      requires forall j :: 0 <= j < |bs| ==> mutators[j] == Chain(j, bs[j].hooks, 0)
      requires i <= |bs| && Holds(i, ms)
      requires forall j :: i <= j < |bs| ==> ms[j].View() == bs[j].fields && !ms[j].done
      modifies builders[i..], ms[i..], specs, nodes
      ensures var r := Onward(bs, i, old(specs[..i]), env); ok == r.ok && log == r.log
      ensures forall j :: 0 <= j < i ==> specs[j] == old(specs[j]) && nodes[j] == old(nodes[j])
      ensures forall j :: i <= j < |bs| ==>
                nodes[j] == SlotAfter(bs, log, j, env.client, old(nodes[j]))
      ensures forall j :: Done(j) in log || Filled(j) in log ==> i <= j
      ensures forall j :: i <= j < |bs| ==> (builders[j].mutation.done <==> Done(j) in log)
      ensures forall j :: i <= j < |bs| ==> builders[j].mutation == ms[j] || fresh(builders[j].mutation)
      decreases |builders| - i, 2 + |(if i < |bs| then bs[i].hooks else [])|
    {
      if i < mutators.Length {
        ok, log := Mutate(mutators[i], builders[i].mutation, mutators, specs, nodes, env, ms, bs, 0, Start(bs[i]));
      } else {
        assert specs[..] == specs[..i];
        ok, log := env.writeOk, [Wrote(specs[..])];
      }
    }

    /** One builder's turn in the loop: its defaults and its chain of mutators. */
    method PrepareOne(i: nat, stamp: Stamp, mutators: array<Mutator>, ghost ms: seq<AuditLogMutation>)
      requires i < |builders| == mutators.Length && Holds(0, ms)
      modifies ms[i], mutators
      ensures ms[i].View() == Defaults(old(ms[i].View()), stamp.now, stamp.id) && ms[i].done == old(ms[i].done)
      ensures forall j :: 0 <= j < |ms| && j != i ==> ms[j].View() == old(ms[j].View()) && ms[j].done == old(ms[j].done)
      ensures mutators[i] == Chain(i, builders[i].hooks, 0)
      ensures forall j :: 0 <= j < |ms| && j != i ==> mutators[j] == old(mutators[j])
    {
      hide AuditLogMutation.View, Defaults, Chain;
      builders[i].ApplyDefaults(stamp);
      mutators[i] := WrapHooks(i, builders[i].hooks);
    }

    /** The loop over the builders: all defaults, and one chain of mutators for each. */
    method Prepare(stamps: seq<Stamp>, mutators: array<Mutator>, ghost ms: seq<AuditLogMutation>,
                   ghost raw: seq<Builder>)
      returns (log: seq<Event>)
      requires |stamps| == |builders| == |raw| == mutators.Length && Holds(0, ms)
      requires forall j :: 0 <= j < |raw| ==> builders[j].hooks == raw[j].hooks
      requires forall j :: 0 <= j < |raw| ==> ms[j].View() == raw[j].fields && !ms[j].done
      modifies ms, mutators
      ensures log == DefaultsLog(|raw|)
      ensures forall j :: 0 <= j < |ms| ==> ms[j].View() == WithDefaults(raw, stamps)[j].fields && !ms[j].done
      ensures forall j :: 0 <= j < |ms| ==> mutators[j] == Chain(j, WithDefaults(raw, stamps)[j].hooks, 0)
    {
      assert |ms| == |raw|;
      hide Holds, AuditLogMutation.View, Defaults, Chain;
      var i := 0;
      log := [];
      while i < |builders|
        invariant 0 <= i <= |builders| && log == DefaultsLog(i)
        invariant forall j :: 0 <= j < |ms| ==> !ms[j].done
        invariant forall j :: 0 <= j < i ==> ms[j].View() == Defaults(raw[j].fields, stamps[j].now, stamps[j].id)
        invariant forall j :: i <= j < |ms| ==> ms[j].View() == raw[j].fields
        invariant forall j :: 0 <= j < i ==> mutators[j] == Chain(j, raw[j].hooks, 0)
      {
        PrepareOne(i, stamps[i], mutators, ms);
        log := log + [Defaulted(i)];
        i := i + 1;
      }
    }

    /** The first chain, if there is one, after a log that neither fills nor marks. */
    method CallFirst(before: seq<Event>, mutators: array<Mutator>, specs: array<Spec>, nodes: array<Option<Node>>,
                     env: Env, ghost ms: seq<AuditLogMutation>, ghost bs: seq<Builder>)
      returns (ok: bool, log: seq<Event>)
      requires mutators.Length == specs.Length == nodes.Length == |builders| == |bs|
      requires forall j :: 0 <= j < |bs| ==> mutators[j] == Chain(j, bs[j].hooks, 0) && nodes[j] == None
      requires Holds(0, ms) && forall e :: e in before ==> !e.Done? && !e.Filled?
      requires forall j :: 0 <= j < |bs| ==> ms[j].View() == bs[j].fields && !ms[j].done
      modifies builders, ms, specs, nodes
      ensures var r := if bs == [] then Outcome(true, []) else Onward(bs, 0, [], env);
              ok == r.ok && log == before + r.log
      ensures forall j :: 0 <= j < |bs| ==> nodes[j] == SlotAfter(bs, log, j, env.client, None)
      ensures forall j :: 0 <= j < |bs| ==> (builders[j].mutation.done <==> Done(j) in log)
    {
      hide Holds, AuditLogMutation.View, Onward, SlotAfter, Chain;
      if |builders| == 0 {
        return true, before;
      }
      var chain;
      ok, chain := CallFrom(0, mutators, specs, nodes, env, ms, bs);
      AfterOthers(bs, before, chain, env.client);
      log := before + chain;
    }

    /** Save past its first test: defaults and chains for every builder, then the first chain, which calls
        the rest. */
    method SaveAll(stamps: seq<Stamp>, env: Env, ghost ms: seq<AuditLogMutation>, ghost raw: seq<Builder>)
      returns (ok: bool, nodes: array<Option<Node>>, log: seq<Event>)
      requires |stamps| == |builders| == |raw| && Holds(0, ms)
      requires forall j :: 0 <= j < |raw| ==> builders[j].hooks == raw[j].hooks
      requires forall j :: 0 <= j < |raw| ==> ms[j].View() == raw[j].fields && !ms[j].done
      modifies builders, ms
      ensures ok == BulkCreate.Save(raw, stamps, env).ok && log == BulkCreate.Save(raw, stamps, env).log
      ensures forall j :: 0 <= j < |raw| ==> (builders[j].mutation.done <==> Done(j) in log)
      ensures nodes.Length == |raw|
      ensures forall j :: 0 <= j < |raw| ==>
                nodes[j] == SlotAfter(WithDefaults(raw, stamps), log, j, env.client, None)
    {
      UnfoldSave(raw, stamps, env);
      hide *;
      var n := |builders|;
      var specs, mutators := new Spec[n], new Mutator[n];
      nodes := new Option<Node>[n](_ => None);
      log := Prepare(stamps, mutators, ms, raw);
      ok, log := CallFirst(log, mutators, specs, nodes, env, ms, WithDefaults(raw, stamps));
    }

    /** Save, with the mutations `ms` in the builders on entry, which read as `raw`. */
    method Save(stamps: seq<Stamp>, env: Env, ghost ms: seq<AuditLogMutation>, ghost raw: seq<Builder>)
      returns (ok: bool, result: seq<Option<Node>>, log: seq<Event>)
      requires |stamps| == |builders| == |raw| && Holds(0, ms)
      requires forall j :: 0 <= j < |raw| ==> builders[j].hooks == raw[j].hooks
      requires forall j :: 0 <= j < |raw| ==> ms[j].View() == raw[j].fields && !ms[j].done
      modifies builders, ms
      ensures failed ==> !ok && log == []
      ensures !failed ==> ok == BulkCreate.Save(raw, stamps, env).ok && log == BulkCreate.Save(raw, stamps, env).log
      ensures forall j :: 0 <= j < |raw| ==> (builders[j].mutation.done <==> Done(j) in log)
      ensures |result| == if ok then |raw| else 0
      ensures ok ==> forall j :: 0 <= j < |raw| ==>
                       result[j] == SlotAfter(WithDefaults(raw, stamps), log, j, env.client, None)
    {
      hide AuditLogMutation.View, BulkCreate.Save, WithDefaults, SlotAfter;
      if failed {
        return false, [], [];
      }
      var nodes;
      ok, nodes, log := SaveAll(stamps, env, ms, raw);
      result := if ok then nodes[..] else [];
    }

    /** The maps that callers hold, even if several builders share one, are as they were. */
    method SaveLeavingMaps(stamps: seq<Stamp>, env: Env, ghost ms: seq<AuditLogMutation>, ghost raw: seq<Builder>,
                           ghost held: set<GoMap>)
      returns (ok: bool, result: seq<Option<Node>>, log: seq<Event>)
      requires !failed && |stamps| == |builders| == |raw| && Holds(0, ms)
      requires forall j :: 0 <= j < |raw| ==> builders[j].hooks == raw[j].hooks
      requires forall j :: 0 <= j < |raw| ==> ms[j].View() == raw[j].fields && !ms[j].done
      modifies builders, ms
      ensures ok == BulkCreate.Save(raw, stamps, env).ok && log == BulkCreate.Save(raw, stamps, env).log
      ensures forall g :: g in held ==> g.entries == old(g.entries)
    {
      hide *;
      ok, result, log := Save(stamps, env, ms, raw);
    }
  }
}
