/** The pairing half of the print agent's spooler: applying, persisting and dropping a server
    pairing, each pairing owning one cancellable context (cmd/print-agent/spooler.go). */
module Pairing {
  import opened Prelude

  datatype Config = Config(server: string, key: string) {
    predicate Paired() { server != "" && key != "" }
  }

  /** One context handed to a run goroutine, with the pairing that goroutine was given. */
  datatype RunContext = RunContext(cfg: Config, cancelled: bool)

  /** The mutex-protected fields, what the persisted file reads as, and every context ever created.
      `cancel` names the context whose cancel function is held. */
  datatype PairingState = PairingState(cfg: Config, disk: Config, cancel: Option<nat>, contexts: seq<RunContext>)

  datatype Status = Status(paired: bool, server: string, polling: bool)

  const INITIAL := PairingState(Config("", ""), Config("", ""), None, [])

  // ---------------------------------------------------------------- address normalisation

  /** The white space that strings.TrimSpace removes. */
  predicate IsSpace(c: char) {
    var n := c as int;
    || 9 <= n <= 13 || n == 32 || n == 0x85 || n == 0xA0 || n == 0x1680 || 0x2000 <= n <= 0x200A
    || n == 0x2028 || n == 0x2029 || n == 0x202F || n == 0x205F || n == 0x3000
  }

  function TrimLeftSpace(s: string): string {
    if s != "" && IsSpace(s[0]) then TrimLeftSpace(s[1..]) else s
  }

  function TrimRightSpace(s: string): string {
    if s != "" && IsSpace(s[|s| - 1]) then TrimRightSpace(s[..|s| - 1]) else s
  }

  function TrimSpace(s: string): string { TrimRightSpace(TrimLeftSpace(s)) }

  function TrimSlashes(s: string): string {
    if s != "" && s[|s| - 1] == '/' then TrimSlashes(s[..|s| - 1]) else s
  }

  function NormalServer(s: string): string { TrimSlashes(TrimSpace(s)) }

  function Normalize(cfg: Config): Config { Config(NormalServer(cfg.server), TrimSpace(cfg.key)) }

  /** No white space stands directly in front of the trailing slashes of the trimmed address. */
  predicate CleanAddress(s: string) {
    var n := TrimSlashes(TrimSpace(s));
    n == "" || !IsSpace(n[|n| - 1])
  }

  lemma {:induction false} TrimLeftFacts(s: string)
    ensures var t := TrimLeftSpace(s); t == "" || !IsSpace(t[0])
  {
    if s != "" && IsSpace(s[0]) { TrimLeftFacts(s[1..]); }
  }

  lemma {:induction false} TrimRightFacts(s: string)
    ensures var t := TrimRightSpace(s);
            && (t == "" || !IsSpace(t[|t| - 1]))
            && |t| <= |s| && t == s[..|t|]
            && (s != "" && !IsSpace(s[0]) ==> t != "")
  {
    if s != "" && IsSpace(s[|s| - 1]) { TrimRightFacts(s[..|s| - 1]); }
  }

  lemma {:induction false} TrimSlashesFacts(s: string)
    ensures var t := TrimSlashes(s);
            && (t == "" || t[|t| - 1] != '/')
            && |t| <= |s| && t == s[..|t|]
  {
    if s != "" && s[|s| - 1] == '/' { TrimSlashesFacts(s[..|s| - 1]); }
  }

  lemma TrimSpaceFacts(s: string)
    ensures var t := TrimSpace(s); t == "" || (!IsSpace(t[0]) && !IsSpace(t[|t| - 1]))
    ensures TrimSpace(TrimSpace(s)) == TrimSpace(s)
  {
    TrimLeftFacts(s);
    TrimRightFacts(TrimLeftSpace(s));
  }

  /** Normalising a stored address again changes nothing exactly when the address was clean:
      "http://till /" is stored as "http://till " and read back as "http://till". */
  lemma NormalizeTwice(s: string)
    ensures NormalServer(NormalServer(s)) == NormalServer(s) <==> CleanAddress(s)
  {
    var t := TrimSpace(s);
    var n := TrimSlashes(t);
    TrimSpaceFacts(s);
    TrimSlashesFacts(t);
    if n != "" {
      assert n[0] == t[0];
      assert TrimLeftSpace(n) == n;
      TrimRightFacts(n);
      TrimSlashesFacts(TrimRightSpace(n));
      if IsSpace(n[|n| - 1]) {
        TrimRightFacts(n[..|n| - 1]);
      }
    }
  }

  predicate AllSpace(s: string) { forall i :: 0 <= i < |s| ==> IsSpace(s[i]) }

  predicate AllSlashes(s: string) { forall i :: 0 <= i < |s| ==> s[i] == '/' }

  lemma {:induction false} TrimLeftLeaves(pre: string, s: string)
    requires AllSpace(pre) && (s == "" || !IsSpace(s[0]))
    ensures TrimLeftSpace(pre + s) == s
  {
    if pre == "" {
      assert pre + s == s;
    } else {
      assert (pre + s)[1..] == pre[1..] + s;
      TrimLeftLeaves(pre[1..], s);
    }
  }

  lemma {:induction false} TrimRightLeaves(s: string, post: string)
    requires AllSpace(post) && (s == "" || !IsSpace(s[|s| - 1]))
    ensures TrimRightSpace(s + post) == s
  {
    if post == "" {
      assert s + post == s;
    } else {
      assert (s + post)[..|s + post| - 1] == s + post[..|post| - 1];
      TrimRightLeaves(s, post[..|post| - 1]);
    }
  }

  lemma {:induction false} TrimSlashesLeaves(s: string, slashes: string)
    requires AllSlashes(slashes) && (s == "" || s[|s| - 1] != '/')
    ensures TrimSlashes(s + slashes) == s
  {
    if slashes == "" {
      assert s + slashes == s;
    } else {
      assert (s + slashes)[..|s + slashes| - 1] == s + slashes[..|slashes| - 1];
      TrimSlashesLeaves(s, slashes[..|slashes| - 1]);
    }
  }

  lemma TrimSpaceLeaves(pre: string, s: string, post: string)
    requires AllSpace(pre) && AllSpace(post)
    requires s != "" ==> !IsSpace(s[0]) && !IsSpace(s[|s| - 1])
    ensures TrimSpace(pre + s + post) == s
  {
    if s == "" {
      assert pre + s + post == (pre + post) + "";
      TrimLeftLeaves(pre + post, "");
    } else {
      assert pre + s + post == pre + (s + post);
      TrimLeftLeaves(pre, s + post);
      TrimRightLeaves(s, post);
    }
  }

  /** What an address as it was typed stands for: the white space around it and the slashes at its end go,
      and nothing else does. */
  lemma NormalServerIsTheAddress(pre: string, server: string, slashes: string, post: string)
    requires AllSpace(pre) && AllSpace(post) && AllSlashes(slashes)
    requires server != "" ==> !IsSpace(server[0]) && server[|server| - 1] != '/'
    requires slashes == "" && server != "" ==> !IsSpace(server[|server| - 1])
    ensures NormalServer(pre + server + slashes + post) == server
  {
    assert pre + server + slashes + post == pre + (server + slashes) + post;
    TrimSpaceLeaves(pre, server + slashes, post);
    TrimSlashesLeaves(server, slashes);
  }

  /** One character alone is trimmed away exactly if it is white space as Unicode has it. */
  lemma WhatIsTrimmed(c: char)
    ensures TrimSpace([c]) == "" <==>
            c in {'\t', '\n', '\U{000B}', '\U{000C}', '\r', ' ', '\U{0085}', '\U{00A0}', '\U{1680}', '\U{2000}',
                  '\U{2001}', '\U{2002}', '\U{2003}', '\U{2004}', '\U{2005}', '\U{2006}', '\U{2007}', '\U{2008}',
                  '\U{2009}', '\U{200A}', '\U{2028}', '\U{2029}', '\U{202F}', '\U{205F}', '\U{3000}'}
  {
    assert [c][1..] == "" && [c][..0] == "";
    assert IsSpace(c) ==> TrimLeftSpace([c]) == "" && TrimRightSpace("") == "";
  }

  /** A pairing as it may be pasted in. */
  lemma PastedPairing()
    ensures Normalize(Config("\t http://till// \r\n", "\n k 1 ")) == Config("http://till", "k 1")
  {
    NormalServerIsTheAddress("\t ", "http://till", "//", " \r\n");
    assert "\t " + "http://till" + "//" + " \r\n" == "\t http://till// \r\n";
    TrimSpaceLeaves("\n ", "k 1", " ");
    assert "\n " + "k 1" + " " == "\n k 1 ";
  }

  // ---------------------------------------------------------------- configure, stop, status

  function CancelHeld(p: PairingState): PairingState {
    match p.cancel
    case None => p
    case Some(g) =>
      p.(cancel := None,
         contexts := if g < |p.contexts| then p.contexts[g := p.contexts[g].(cancelled := true)] else p.contexts)
  }

  /** The part of configure that runs under the mutex. */
  function Installed(p: PairingState, cfg: Config): PairingState {
    var norm := Normalize(cfg);
    var stopped := CancelHeld(p).(cfg := norm);
    if norm.Paired() then
      stopped.(cancel := Some(|p.contexts|), contexts := stopped.contexts + [RunContext(norm, false)])
    else stopped
  }

  /** How writing the file went. A write that fails may have truncated it first, or have written some of
      it, so that it reads as anything at all. */
  datatype Saving = Stored | Broken(left: Config)

  function FileAfter(cfg: Config, saving: Saving): Config {
    match saving
    case Stored => Normalize(cfg)
    case Broken(left) => left
  }

  /** One whole configure call, undisturbed: the file is written before the mutex is taken. */
  function Configured(p: PairingState, cfg: Config, persist: bool, saving: Saving): PairingState {
    if !persist then Installed(p, cfg)
    else if saving.Broken? then p.(disk := saving.left)
    else Installed(p.(disk := Normalize(cfg)), cfg)
  }

  function StatusOf(p: PairingState): Status {
    Status(p.cfg.Paired(), p.cfg.server, p.cancel.Some?)
  }

  /** The atomic steps that concurrent configure and stop calls are made of. */
  datatype PairingStep = Save(cfg: Config, saving: Saving) | Install(cfg: Config) | Stop

  function Apply(p: PairingState, step: PairingStep): PairingState {
    match step
    case Save(cfg, saving) => p.(disk := FileAfter(cfg, saving))
    case Install(cfg) => Installed(p, cfg)
    case Stop => CancelHeld(p)
  }

  function ApplyAll(p: PairingState, steps: seq<PairingStep>): PairingState {
    if steps == [] then p else Apply(ApplyAll(p, steps[..|steps| - 1]), steps[|steps| - 1])
  }

  /** Exactly one live context while a cancel function is held, none otherwise, and it is the
      newest one, running with the current, paired configuration. */
  ghost predicate OneLiveContext(p: PairingState) {
    && (p.cancel.Some? ==>
          && p.contexts != [] && p.cancel.value == |p.contexts| - 1
          && p.contexts[p.cancel.value].cfg == p.cfg && p.cfg.Paired())
    && (forall g :: 0 <= g < |p.contexts| ==> (!p.contexts[g].cancelled <==> p.cancel == Some(g)))
    && (forall g :: 0 <= g < |p.contexts| ==> p.contexts[g].cfg.Paired())
  }

  lemma ApplyKeepsOneLiveContext(p: PairingState, step: PairingStep)
    requires OneLiveContext(p)
    ensures OneLiveContext(Apply(p, step))
    ensures |p.contexts| <= |Apply(p, step).contexts|
    ensures forall g :: 0 <= g < |p.contexts| ==>
      && Apply(p, step).contexts[g].cfg == p.contexts[g].cfg
      && (p.contexts[g].cancelled ==> Apply(p, step).contexts[g].cancelled)
  {
  }

  /** After the steps of any configure and stop calls, interleaved in any way and failed saves
      included: a cancel function is held exactly when one uncancelled context exists, there is
      never a second one, it runs the current pairing, and status never reports polling without
      paired. */
  lemma {:induction false} PairingStaysConsistent(steps: seq<PairingStep>)
    ensures var p := ApplyAll(INITIAL, steps);
            && OneLiveContext(p)
            && (p.cancel.Some? <==> exists g :: 0 <= g < |p.contexts| && !p.contexts[g].cancelled)
            && (StatusOf(p).polling ==> StatusOf(p).paired)
  {
    if steps != [] {
      PairingStaysConsistent(steps[..|steps| - 1]);
      ApplyKeepsOneLiveContext(ApplyAll(INITIAL, steps[..|steps| - 1]), steps[|steps| - 1]);
    }
    var p := ApplyAll(INITIAL, steps);
    if p.cancel.Some? {
      assert !p.contexts[p.cancel.value].cancelled;
    }
  }

  /** What status says after a call: after one that applies, the server that was asked for, paired and
      polling exactly if both it and the key are there; after one that fails, what it said before; after a
      stop, no polling, with pairing and server kept. */
  lemma StatusAfterCalls(p: PairingState, cfg: Config, persist: bool, saving: Saving)
    ensures var server, key := NormalServer(cfg.server), TrimSpace(cfg.key);
            StatusOf(Configured(p, cfg, persist, saving)) ==
            if persist && saving.Broken? then StatusOf(p)
            else Status(server != "" && key != "", server, server != "" && key != "")
    ensures StatusOf(CancelHeld(p)) == Status(p.cfg.server != "" && p.cfg.key != "", p.cfg.server, false)
    ensures StatusOf(INITIAL) == Status(false, "", false)
  {
    hide NormalServer, TrimSpace;
  }

  // ---------------------------------------------------------------- whole calls, interleaved

  /** One configure call: a save, if it persists, and then, unless the save failed, an installation. */
  datatype Call = Call(cfg: Config, persist: bool, saving: Saving)

  datatype Progress = Todo | Saved | Finished

  /** The next atomic step of one of the calls, or a stop. */
  datatype Move = Advance(call: nat) | StopNow

  /** The pairing, how far every call is, which call wrote the file last and which installed last. */
  datatype Traffic = Traffic(
    pairing: PairingState, progress: seq<Progress>, lastWriter: Option<nat>, lastInstaller: Option<nat>)

  function Moved(calls: seq<Call>, t: Traffic, m: Move): Traffic
    requires |t.progress| == |calls|
  {
    if m.StopNow? then t.(pairing := Apply(t.pairing, Stop))
    else if m.call >= |calls| then t
    else
      var c, call := m.call, calls[m.call];
      match t.progress[c]
      case Finished => t
      case Todo =>
        if call.persist then
          t.(pairing := Apply(t.pairing, Save(call.cfg, call.saving)), lastWriter := Some(c),
             progress := t.progress[c := if call.saving.Stored? then Saved else Finished])
        else
          t.(pairing := Apply(t.pairing, Install(call.cfg)), progress := t.progress[c := Finished],
             lastInstaller := Some(c))
      case Saved =>
        t.(pairing := Apply(t.pairing, Install(call.cfg)), progress := t.progress[c := Finished],
           lastInstaller := Some(c))
  }

  /** After any interleaving of the calls' steps and of stops, from any state of the agent. */
  function AfterMoves(start: PairingState, calls: seq<Call>, moves: seq<Move>): (t: Traffic)
    ensures |t.progress| == |calls|
  {
    if moves == [] then Traffic(start, seq(|calls|, _ => Todo), None, None)
    else Moved(calls, AfterMoves(start, calls, moves[..|moves| - 1]), moves[|moves| - 1])
  }

  /** A call alone, from its first step to its last, does what an undisturbed call does; it then has no step
      left. */
  lemma CallAloneIsItsSteps(start: PairingState, call: Call)
    ensures var t := AfterMoves(start, [call], [Advance(0), Advance(0), Advance(0)]);
            t.pairing == Configured(start, call.cfg, call.persist, call.saving) && t.progress == [Finished]
  {
    hide Normalize;
    var moves := [Advance(0), Advance(0), Advance(0)];
    assert moves[..2] == [Advance(0), Advance(0)] && moves[..2][..1] == [Advance(0)] && moves[..2][..1][..0] == [];
    assert AfterMoves(start, [call], []).progress == [Todo];
    var one := AfterMoves(start, [call], moves[..2][..1]);
    assert one == Moved([call], AfterMoves(start, [call], []), Advance(0));
    assert one.progress == [if call.persist && call.saving.Stored? then Saved else Finished];
    assert AfterMoves(start, [call], moves[..2]).progress == [Finished];
  }

  /** Whatever calls interleave, what happens to the agent is a sequence of atomic steps, and a stop is one
      of them at any time. */
  lemma {:induction false} CallsAreSteps(start: PairingState, calls: seq<Call>, moves: seq<Move>)
    returns (steps: seq<PairingStep>)
    ensures AfterMoves(start, calls, moves).pairing == ApplyAll(start, steps)
    ensures moves != [] && moves[|moves| - 1] == StopNow ==> steps != [] && steps[|steps| - 1] == Stop
  {
    steps := [];
    if moves != [] {
      steps := CallsAreSteps(start, calls, moves[..|moves| - 1]);
      var t, m := AfterMoves(start, calls, moves[..|moves| - 1]), moves[|moves| - 1];
      hide Apply;
      var step := if m.StopNow? then Some(Stop)
                  else if m.call >= |calls| || t.progress[m.call].Finished? then None
                  else if t.progress[m.call].Todo? && calls[m.call].persist
                  then Some(Save(calls[m.call].cfg, calls[m.call].saving))
                  else Some(Install(calls[m.call].cfg));
      assert Moved(calls, t, m).pairing == if step.Some? then Apply(t.pairing, step.value) else t.pairing;
      if step.Some? {
        assert (steps + [step.value])[..|steps|] == steps;
        steps := steps + [step.value];
      }
    }
  }

  /** No call stands between its save and its installation. */
  predicate NoneInFlight(t: Traffic) { forall c :: 0 <= c < |t.progress| ==> !t.progress[c].Saved? }

  /** No call takes a step while another one is between its save and its installation. */
  ghost predicate NonOverlapping(start: PairingState, calls: seq<Call>, moves: seq<Move>) {
    forall i :: 0 <= i < |moves| && moves[i].Advance? ==>
      forall c :: 0 <= c < |calls| && c != moves[i].call ==> !AfterMoves(start, calls, moves[..i]).progress[c].Saved?
  }

  /** What the last writer left in the file, and what the last installer made the agent run. */
  function FileOf(start: PairingState, calls: seq<Call>, c: Option<nat>): Config {
    if c.Some? && c.value < |calls| then FileAfter(calls[c.value].cfg, calls[c.value].saving) else start.disk
  }

  function RunningOf(start: PairingState, calls: seq<Call>, c: Option<nat>): Config {
    if c.Some? && c.value < |calls| then Normalize(calls[c.value].cfg) else start.cfg
  }

  ghost predicate TrafficInv(start: PairingState, calls: seq<Call>, t: Traffic) {
    && |t.progress| == |calls|
    && t.pairing.disk == FileOf(start, calls, t.lastWriter) && t.pairing.cfg == RunningOf(start, calls, t.lastInstaller)
    && (t.lastWriter.Some? ==> t.lastWriter.value < |calls|)
    && (t.lastInstaller.Some? ==> t.lastInstaller.value < |calls|)
    && (t.lastWriter.Some? && calls[t.lastWriter.value].saving.Stored? && NoneInFlight(t) ==> t.lastInstaller.Some?)
    && (forall c :: 0 <= c < |calls| && t.progress[c].Saved? ==> t.lastWriter.Some?)
    && ((forall c :: 0 <= c < |calls| ==> calls[c].persist) && t.lastInstaller.Some? ==> t.lastWriter.Some?)
  }

  lemma MoveKeepsTrafficInv(start: PairingState, calls: seq<Call>, t: Traffic, m: Move)
    requires TrafficInv(start, calls, t)
    ensures TrafficInv(start, calls, Moved(calls, t, m))
  {
    hide Normalize;
    var t' := Moved(calls, t, m);
    if m.Advance? && m.call < |calls| {
      assert forall c :: 0 <= c < |calls| && c != m.call ==> t'.progress[c] == t.progress[c];
      assert !t.progress[m.call].Saved? && !t'.progress[m.call].Saved? ==> (NoneInFlight(t) <==> NoneInFlight(t'));
      assert t'.progress[m.call].Saved? ==> !NoneInFlight(t');
    }
  }

  lemma {:induction false} MovesKeepTrafficInv(start: PairingState, calls: seq<Call>, moves: seq<Move>)
    ensures TrafficInv(start, calls, AfterMoves(start, calls, moves))
  {
    if moves != [] {
      MovesKeepTrafficInv(start, calls, moves[..|moves| - 1]);
      MoveKeepsTrafficInv(start, calls, AfterMoves(start, calls, moves[..|moves| - 1]), moves[|moves| - 1]);
    }
  }

  /** In every interleaving of calls that persist, from any state of the agent: once no call is in flight
      and the last write of the file succeeded, the running pairing is the persisted one exactly when
      that write's call and the call that installed last asked for the same pairing. */
  lemma IdlePairingIsPersisted(start: PairingState, calls: seq<Call>, moves: seq<Move>)
    requires forall c :: 0 <= c < |calls| ==> calls[c].persist
    ensures var t := AfterMoves(start, calls, moves);
            && (t.lastWriter.Some? ==> t.lastWriter.value < |calls|)
            && (t.lastWriter.Some? && calls[t.lastWriter.value].saving.Stored? && NoneInFlight(t) ==>
                  && t.lastInstaller.Some? && t.lastInstaller.value < |calls|
                  && (t.pairing.disk == t.pairing.cfg <==>
                        Normalize(calls[t.lastWriter.value].cfg) == Normalize(calls[t.lastInstaller.value].cfg)))
  {
    hide Normalize;
    MovesKeepTrafficInv(start, calls, moves);
  }

  /** The last write of the file succeeded. */
  predicate WroteWell(calls: seq<Call>, t: Traffic) {
    t.lastWriter.Some? && t.lastWriter.value < |calls| && calls[t.lastWriter.value].saving.Stored?
  }

  /** Without overlap a call that has saved is the last to write until it has installed. */
  ghost predicate OrderlyInv(calls: seq<Call>, t: Traffic) {
    && (NoneInFlight(t) && WroteWell(calls, t) ==> t.lastInstaller == t.lastWriter)
    && (NoneInFlight(t) && t.lastWriter.None? ==> t.lastInstaller.None?)
    && (forall c :: 0 <= c < |t.progress| && t.progress[c].Saved? ==>
          t.lastWriter == Some(c) && forall d :: 0 <= d < |t.progress| && d != c ==> !t.progress[d].Saved?)
  }

  lemma {:induction false} OrderlyCallsStayOrderly(start: PairingState, calls: seq<Call>, moves: seq<Move>)
    requires forall c :: 0 <= c < |calls| ==> calls[c].persist
    requires NonOverlapping(start, calls, moves)
    ensures OrderlyInv(calls, AfterMoves(start, calls, moves))
  {
    hide Normalize, Apply;
    if moves != [] {
      var init, last := moves[..|moves| - 1], moves[|moves| - 1];
      forall i | 0 <= i < |init| ensures init[..i] == moves[..i] {}
      OrderlyCallsStayOrderly(start, calls, init);
      MovesKeepTrafficInv(start, calls, init);
      var t, t' := AfterMoves(start, calls, init), AfterMoves(start, calls, moves);
      assert moves[..|moves| - 1] == init;
      if last.Advance? && last.call < |calls| {
        var c := last.call;
        assert forall d :: 0 <= d < |calls| && d != c ==> t'.progress[d] == t.progress[d] && !t.progress[d].Saved?;
        assert !t.progress[c].Saved? ==> NoneInFlight(t);
        assert t'.progress[c].Saved? ==> !NoneInFlight(t');
        assert t.progress[c].Saved? ==> t.lastWriter == Some(c);
      } else {
        assert t'.progress == t.progress;
      }
    }
  }

  /** Calls that persist and do not overlap, from any state of the agent: whenever none is in flight, the
      running pairing is the persisted one exactly if the last write of the file succeeded, or failed but
      happened to leave that very pairing; before any write, exactly if it was so at the start. */
  lemma SequentialCallsPersist(start: PairingState, calls: seq<Call>, moves: seq<Move>)
    requires forall c :: 0 <= c < |calls| ==> calls[c].persist
    requires NonOverlapping(start, calls, moves)
    ensures var t := AfterMoves(start, calls, moves);
            && (t.lastWriter.Some? ==> t.lastWriter.value < |calls|)
            && (NoneInFlight(t) ==>
                  (t.pairing.disk == t.pairing.cfg <==>
                     if t.lastWriter.None? then start.disk == start.cfg
                     else
                       var saving := calls[t.lastWriter.value].saving;
                       saving.Stored? || saving.left == t.pairing.cfg))
  {
    hide Normalize;
    OrderlyCallsStayOrderly(start, calls, moves);
    MovesKeepTrafficInv(start, calls, moves);
  }

  /** Two calls that overlap can leave the agent running one pairing and resuming the other. */
  lemma RacingConfiguresDisagree(start: PairingState, a: Config, b: Config)
    requires Normalize(a) != Normalize(b)
    ensures var calls := [Call(a, true, Stored), Call(b, true, Stored)];
            var t := AfterMoves(start, calls, [Advance(0), Advance(1), Advance(1), Advance(0)]);
            NoneInFlight(t) && t.pairing.cfg == Normalize(a) && t.pairing.disk == Normalize(b)
  {
    hide Normalize;
    var calls := [Call(a, true, Stored), Call(b, true, Stored)];
    var moves := [Advance(0), Advance(1), Advance(1), Advance(0)];
    assert moves[..3] == [Advance(0), Advance(1), Advance(1)];
    assert moves[..3][..2] == [Advance(0), Advance(1)];
    assert moves[..3][..2][..1] == [Advance(0)];
    assert AfterMoves(start, calls, moves[..3][..2][..1]).progress == [Saved, Todo];
    assert AfterMoves(start, calls, moves[..3][..2]).progress == [Saved, Saved];
    assert AfterMoves(start, calls, moves[..3]).progress == [Saved, Finished];
    MovesKeepTrafficInv(start, calls, moves);
  }

  // ---------------------------------------------------------------- restarting

  /** A new agent that finds `disk` persisted: it resumes only what has both a server and a key. */
  function Restarted(disk: Config): PairingState {
    if disk.Paired() then Configured(INITIAL.(disk := disk), disk, false, Stored) else INITIAL.(disk := disk)
  }

  /** A restart after a persisted configure call brings back the same configuration exactly when the
      call paired the agent under a clean address, or left it with nothing at all. */
  lemma RestartResumesPairing(p: PairingState, cfg: Config)
    ensures var before := Configured(p, cfg, true, Stored);
            Restarted(before.disk).cfg == before.cfg <==>
            if Normalize(cfg).Paired() then CleanAddress(cfg.server) else Normalize(cfg) == INITIAL.cfg
  {
    NormalizeTwice(cfg.server);
    TrimSpaceFacts(cfg.key);
  }

  /** A restart only reads the file; it polls exactly if what it read is a pairing, and still is one when
      normalised. */
  lemma RestartOnlyReads(disk: Config)
    ensures Restarted(disk).disk == disk
    ensures Restarted(disk).contexts ==
            if disk.Paired() && Normalize(disk).Paired() then [RunContext(Normalize(disk), false)] else []
  {
    hide Normalize;
  }

  lemma TrimUnclean()
    ensures Normalize(Config("u /", "k")) == Config("u ", "k") && Normalize(Config("u ", "k")) == Config("u", "k")
    ensures Normalize(Config("u", " ")) == Config("u", "")
  {
    var slashed := "u /";
    assert slashed[..2] == "u " && "u "[..1] == "u" && "u"[..0] == "";
    assert " "[1..] == "" && "k"[..0] == "";
    assert TrimSpace("u /") == "u /" && TrimSlashes("u /") == "u ";
    assert TrimRightSpace("u ") == TrimRightSpace("u");
    assert TrimSpace("u ") == "u" && TrimSlashes("u") == "u" && TrimSpace("k") == "k";
    assert TrimSpace("u") == "u" && TrimSpace(" ") == "";
  }

  /** Both ways to fail: an address that comes back shorter, and a blank key, with which the address is
      kept by the running agent but not by the restarted one. */
  lemma RestartForgets(p: PairingState)
    ensures var before := Configured(p, Config("u /", "k"), true, Stored);
            before.cfg == Config("u ", "k") && Restarted(before.disk).cfg == Config("u", "k")
    ensures var before := Configured(p, Config("u", " "), true, Stored);
            before.cfg == Config("u", "") && Restarted(before.disk).cfg == Config("", "")
  {
    TrimUnclean();
  }

  /** A call alone whose write fails on a truncated file: the agent goes on under its old pairing, and
      after a restart it has none. */
  lemma FailedSaveLosesPairing(start: PairingState, a: Config, b: Config)
    requires Normalize(a).Paired()
    ensures var calls := [Call(a, true, Stored), Call(b, true, Broken(Config("", "")))];
            var moves := [Advance(0), Advance(0), Advance(1)];
            var t := AfterMoves(start, calls, moves);
            && NonOverlapping(start, calls, moves) && NoneInFlight(t)
            && t.pairing.cfg == Normalize(a) && Restarted(t.pairing.disk).cfg == Config("", "")
  {
    hide Normalize;
    var calls := [Call(a, true, Stored), Call(b, true, Broken(Config("", "")))];
    var moves := [Advance(0), Advance(0), Advance(1)];
    assert moves[..2] == [Advance(0), Advance(0)] && moves[..1] == [Advance(0)];
    assert moves[..2][..1] == [Advance(0)] && moves[..0] == [];
    assert AfterMoves(start, calls, moves[..1]).progress == [Saved, Todo];
    assert AfterMoves(start, calls, moves[..2]).progress == [Finished, Todo];
    assert AfterMoves(start, calls, moves).progress == [Finished, Finished];
    MovesKeepTrafficInv(start, calls, moves);
  }

  // ---------------------------------------------------------------- the spooler object

  /** A context together with the pairing of the goroutine it was handed to. */
  class Context {
    const cfg: Config
    var cancelled: bool

    constructor (cfg: Config)
      ensures this.cfg == cfg && !cancelled
    {
      this.cfg := cfg;
      cancelled := false;
    }
  }

  /** The spooler's mutex-protected fields; `disk` stands for the persisted file. A method is one
      undisturbed call; the steps that calls on several goroutines interleave are PairingStep. */
  class Spooler {
    var cfg: Config
    var cancel: Context?
    var disk: Config
    ghost var contexts: seq<Context>

    ghost predicate Valid()
      reads this, contexts
    {
      && NoDup(contexts)
      && (cancel != null ==> contexts != [] && cancel == contexts[|contexts| - 1])
    }

    ghost function View(): PairingState
      reads this, contexts
      requires Valid()
    {
      var cs := contexts;
      PairingState(cfg, disk, if cancel == null then None else Some(|cs| - 1),
                   seq(|cs|, i requires 0 <= i < |cs| reads cs => RunContext(cs[i].cfg, cs[i].cancelled)))
    }

    constructor ()
      ensures Valid() && View() == INITIAL
    {
      cfg, disk := Config("", ""), Config("", "");
      cancel, contexts := null, [];
    }

    /** Cancels the held context, if any. */
    method DropContext()
      requires Valid()
      modifies this`cancel, contexts
      ensures Valid() && contexts == old(contexts) && cancel == null
      ensures View() == CancelHeld(old(View()))
    {
      if cancel != null {
        cancel.cancelled := true;
        cancel := null;
      }
    }

    /** Starts a loop on the current configuration. */
    method StartLoop()
      requires Valid() && cancel == null
      modifies this`cancel, this`contexts
      ensures Valid() && |contexts| == |old(contexts)| + 1 && contexts[..|old(contexts)|] == old(contexts)
      ensures fresh(contexts[|old(contexts)|])
      ensures View() == old(View()).(cancel := Some(|old(contexts)|),
                                     contexts := old(View()).contexts + [RunContext(cfg, false)])
    {
      var ctx := new Context(cfg);
      cancel := ctx;
      contexts := contexts + [ctx];
    }

    /** `saving` is how writing the file went, when asked to persist. */
    method Configure(requested: Config, persist: bool, saving: Saving) returns (ok: bool)
      requires Valid()
      modifies this, contexts
      ensures Valid() && old(contexts) <= contexts
      ensures View() == Configured(old(View()), requested, persist, saving)
      ensures ok == (!persist || saving.Stored?)
      ensures fresh(contexts[|old(contexts)|..])
    {
      hide Normalize;
      var norm := Normalize(requested);
      if persist {
        disk := FileAfter(requested, saving);
        if saving.Broken? {
          return false;
        }
      }
      assert View().contexts == old(View()).contexts;
      DropContext();
      ghost var dropped := View();
      cfg := norm;
      assert View().contexts == dropped.contexts;
      if cfg.server == "" || cfg.key == "" {
        return true;
      }
      StartLoop();
      return true;
    }

    method Stop()
      requires Valid()
      modifies this, contexts
      ensures Valid() && contexts == old(contexts)
      ensures View() == CancelHeld(old(View()))
    {
      DropContext();
    }

    method ReportStatus() returns (s: Status)
      requires Valid()
      ensures s == StatusOf(View())
    {
      s := Status(cfg.server != "" && cfg.key != "", cfg.server, cancel != null);
    }
  }
}
