/** The print agent's spooler as an interleaved protocol: the server's job queue, the pairing, and
    any number of generations, each a claim loop (`run`, `drainJobs`, `printAndAck`) and a wake-up
    socket loop (`wsLoop`) that share a one-slot channel and one atomic flag
    (cmd/print-agent/spooler.go, internal/modules/printing/queue.go).

    Every event is one atomic step of one participant; an event that is not enabled changes
    nothing, so every sequence of events is a run and every run is a sequence of events. */
module SpoolProtocol {
  import opened Prelude
  import P = Pairing

  const SAFETY_NET := 45   // seconds
  const DOUBLE_BELOW := 30 // seconds
  const LONGEST_BACKOFF := 32
  const MAX_ATTEMPTS := 3

  // ---------------------------------------------------------------- state

  datatype JobStatus = Queued | Claimed | Printed | Failed

  /** A queued job and its history: how often it was claimed, how many claim replies never reached
      an agent, how often it was sent to a printer and how often that succeeded, how often an ack
      was attempted and how many of those said "printed". */
  datatype JobRecord = JobRecord(
    status: JobStatus, attempts: nat, lostReplies: nat, dispatches: nat, prints: nat, acks: nat, printedAcks: nat)

  /** Where a claim loop stands. `draining` tells a job claimed by drainJobs from a polled one. */
  datatype RunPc =
    | Top | LoadFlag | Select | DrainCheck | DrainClaim | PollClaim | PollFailed | Sleeping
    | Dispatching(job: nat, draining: bool)
    | Acking(job: nat, printed: bool, draining: bool)
    | Exited

  datatype SocketPc =
    | SocketTop | Dialing | DialFailed | SocketSleeping | Connected | Announcing
    | ReadCheck | Reading | FrameRead | Dropping | Dropped | SocketExited

  /** One run goroutine and its wsLoop. The last five fields are history: consecutive failed polls and
      failed dials, seconds slept since the last claim attempt, whether the latest drain ended in an
      error, and the jobs that were ready at some signal and have not been seen served since. */
  datatype Generation = Generation(
    run: RunPc, socket: SocketPc, wake: bool, backoff: nat, socketBackoff: nat,
    failures: nat, dials: nat, slept: nat, drainFailed: bool, owed: set<nat>)

  datatype State = State(
    pairing: P.PairingState, gens: seq<Generation>, wsUp: bool, jobs: seq<JobRecord>)

  const NEW_JOB := JobRecord(Queued, 0, 0, 0, 0, 0, 0)
  const FRESH_GENERATION := Generation(Top, SocketTop, false, 1, 1, 0, 0, 0, false, {})
  const START := State(P.INITIAL, [], false, [])

  datatype RunAct =
    | Proceed | TakeWake(waited: nat) | Tick | SeeCancel
    | Claim(job: nat) | ClaimReplyLost(job: nat) | ClaimNothing | ClaimError
    | Print(ok: bool) | AckDelivered | AckDropped

  datatype SocketAct = Advance | DialOk | DialError | Frame | ReadError | SocketSeeCancel

  datatype Event =
    | Pair(step: P.PairingStep)
    | Enqueue
    | ExpireLease(job: nat)
    | Run(g: nat, act: RunAct)
    | Socket(g: nat, sact: SocketAct)

  // ---------------------------------------------------------------- steps

  predicate Claimable(r: JobRecord) { r.status == Queued && r.attempts < MAX_ATTEMPTS }

  function Ready(jobs: seq<JobRecord>): set<nat> {
    set j | 0 <= j < |jobs| && Claimable(jobs[j])
  }

  function Doubled(backoff: nat): nat { if backoff < DOUBLE_BELOW then 2 * backoff else backoff }

  /** The claim loop's own part of a step; None when the step is not enabled. */
  function RunStep(gen: Generation, cancelled: bool, wsUp: bool, ready: set<nat>, act: RunAct): Option<Generation> {
    match gen.run
    case Top =>
      if act.Proceed? then Some(gen.(run := if cancelled then Exited else LoadFlag)) else None
    case LoadFlag =>
      if act.Proceed? then Some(gen.(run := if wsUp then Select else PollClaim)) else None
    case Select =>
      if act.TakeWake? && gen.wake && act.waited <= SAFETY_NET then
        Some(gen.(run := DrainCheck, wake := false, slept := gen.slept + act.waited, drainFailed := false))
      else if act.Tick? then
        Some(gen.(run := DrainCheck, slept := gen.slept + SAFETY_NET, drainFailed := false))
      else if act.SeeCancel? && cancelled then Some(gen.(run := Exited))
      else None
    case DrainCheck =>
      if act.Proceed? then Some(gen.(run := if cancelled then Top else DrainClaim)) else None
    case DrainClaim =>
      if act.Claim? && act.job in ready then
        Some(gen.(run := Dispatching(act.job, true), slept := 0, owed := gen.owed - {act.job}))
      else if act.ClaimNothing? && ready == {} then Some(gen.(run := Top, slept := 0, owed := {}))
      else if act.ClaimError? || (act.ClaimReplyLost? && act.job in ready) then
        Some(gen.(run := Top, slept := 0, drainFailed := true))
      else None
    case PollClaim =>
      if act.Claim? && act.job in ready then
        Some(gen.(run := Dispatching(act.job, false), slept := 0, owed := gen.owed - {act.job},
                  backoff := 1, failures := 0))
      else if act.ClaimNothing? && ready == {} then
        Some(gen.(run := Top, slept := 0, owed := {}, backoff := 1, failures := 0))
      else if act.ClaimError? || (act.ClaimReplyLost? && act.job in ready) then
        Some(gen.(run := PollFailed, slept := 0, failures := gen.failures + 1))
      else None
    case PollFailed =>
      if act.Proceed? then Some(gen.(run := if cancelled then Exited else Sleeping)) else None
    case Sleeping =>
      if act.Proceed? then
        Some(gen.(run := Top, slept := gen.slept + gen.backoff, backoff := Doubled(gen.backoff)))
      else if act.SeeCancel? && cancelled then Some(gen.(run := Exited))
      else None
    case Dispatching(job, draining) =>
      if act.Print? then Some(gen.(run := Acking(job, act.ok, draining))) else None
    case Acking(job, printed, draining) =>
      if act.AckDelivered? || act.AckDropped? then Some(gen.(run := if draining then DrainCheck else Top)) else None
    case Exited => None
  }

  /** signalWake: a full channel swallows the signal. */
  function Signalled(gen: Generation, ready: set<nat>): Generation {
    gen.(wake := true, owed := gen.owed + ready)
  }

  function SocketStep(gen: Generation, cancelled: bool, ready: set<nat>, act: SocketAct): Option<Generation> {
    match gen.socket
    case SocketTop =>
      if act.Advance? then Some(gen.(socket := if cancelled then SocketExited else Dialing)) else None
    case Dialing =>
      if act.DialOk? then Some(gen.(socket := Connected))
      else if act.DialError? then Some(gen.(socket := DialFailed, dials := gen.dials + 1))
      else None
    case DialFailed =>
      if act.Advance? then Some(gen.(socket := if cancelled then SocketExited else SocketSleeping)) else None
    case SocketSleeping =>
      if act.Advance? then Some(gen.(socket := SocketTop, socketBackoff := Doubled(gen.socketBackoff)))
      else if act.SocketSeeCancel? && cancelled then Some(gen.(socket := SocketExited))
      else None
    case Connected => // wsUp.Store(true)
      if act.Advance? then Some(gen.(socket := Announcing, socketBackoff := 1, dials := 0)) else None
    case Announcing =>
      if act.Advance? then Some(Signalled(gen, ready).(socket := ReadCheck)) else None
    case ReadCheck =>
      if act.Advance? then Some(gen.(socket := if cancelled then Dropping else Reading)) else None
    case Reading =>
      if act.Frame? then Some(gen.(socket := FrameRead))
      else if act.ReadError? then Some(gen.(socket := Dropping))
      else None
    case FrameRead =>
      if act.Advance? then Some(Signalled(gen, ready).(socket := ReadCheck)) else None
    case Dropping => // wsUp.Store(false)
      if act.Advance? then Some(gen.(socket := Dropped)) else None
    case Dropped =>
      if act.Advance? then Some(gen.(socket := if cancelled then SocketExited else SocketTop)) else None
    case SocketExited => None
  }

  function FlagAfter(pc: SocketPc, wsUp: bool): bool {
    if pc.Connected? then true else if pc.Dropping? then false else wsUp
  }

  /** The server's side of a claim-loop step. An ack is honoured only while the job is claimed. */
  function JobsAfter(jobs: seq<JobRecord>, pc: RunPc, act: RunAct): seq<JobRecord> {
    if act.Claim? && act.job < |jobs| then
      var r := jobs[act.job];
      jobs[act.job := r.(status := Claimed, attempts := r.attempts + 1)]
    else if act.ClaimReplyLost? && act.job < |jobs| then
      var r := jobs[act.job];
      jobs[act.job := r.(status := Claimed, attempts := r.attempts + 1, lostReplies := r.lostReplies + 1)]
    else if act.Print? && pc.Dispatching? && pc.job < |jobs| then
      var r := jobs[pc.job];
      jobs[pc.job := r.(dispatches := r.dispatches + 1, prints := r.prints + (if act.ok then 1 else 0))]
    else if (act.AckDelivered? || act.AckDropped?) && pc.Acking? && pc.job < |jobs| then
      var r := jobs[pc.job];
      jobs[pc.job := r.(
        acks := r.acks + 1,
        printedAcks := r.printedAcks + (if pc.printed then 1 else 0),
        status := if act.AckDropped? || r.status != Claimed then r.status
                  else if pc.printed then Printed
                  else if r.attempts >= MAX_ATTEMPTS then Failed
                  else Queued)]
    else jobs
  }

  predicate Cancelled(s: State, g: nat) { g < |s.pairing.contexts| && s.pairing.contexts[g].cancelled }

  function Step(s: State, e: Event): State {
    match e
    case Pair(step) =>
      var p := P.Apply(s.pairing, step);
      s.(pairing := p, gens := s.gens + (if |p.contexts| > |s.pairing.contexts| then [FRESH_GENERATION] else []))
    case Enqueue => s.(jobs := s.jobs + [NEW_JOB])
    case ExpireLease(j) =>
      if j < |s.jobs| && s.jobs[j].status == Claimed then
        s.(jobs := s.jobs[j := s.jobs[j].(status := Queued)])
      else s
    case Run(g, act) =>
      if g >= |s.gens| then s
      else match RunStep(s.gens[g], Cancelled(s, g), s.wsUp, Ready(s.jobs), act) {
        case None => s
        case Some(gen) => s.(gens := s.gens[g := gen], jobs := JobsAfter(s.jobs, s.gens[g].run, act))
      }
    case Socket(g, act) =>
      if g >= |s.gens| then s
      else match SocketStep(s.gens[g], Cancelled(s, g), Ready(s.jobs), act) {
        case None => s
        case Some(gen) => s.(gens := s.gens[g := gen], wsUp := FlagAfter(s.gens[g].socket, s.wsUp))
      }
  }

  /** The state after a run's events. */
  function After(es: seq<Event>): State {
    if es == [] then START else Step(After(es[..|es| - 1]), es[|es| - 1])
  }

  lemma AfterOneMore(es: seq<Event>, i: nat)
    requires i < |es|
    ensures After(es[..i + 1]) == Step(After(es[..i]), es[i])
  {
    assert es[..i + 1][..i] == es[..i];
  }

  // ---------------------------------------------------------------- backoff and sleeping

  function Pow2(k: nat): nat { if k == 0 then 1 else 2 * Pow2(k - 1) }

  function Backoff(k: nat): nat { if k == 0 then 1 else Doubled(Backoff(k - 1)) }

  /** Doubling while below 30 seconds stops at 32, not at 30. */
  lemma {:induction false} BackoffIsCappedPowerOfTwo(k: nat)
    ensures Backoff(k) == if k <= 5 then Pow2(k) else LONGEST_BACKOFF
    ensures k >= 5 ==> Pow2(k) >= LONGEST_BACKOFF
  {
    if k > 0 {
      BackoffIsCappedPowerOfTwo(k - 1);
      if k <= 5 {
        assert Pow2(1) == 2 && Pow2(2) == 4 && Pow2(3) == 8 && Pow2(4) == 16 && Pow2(5) == 32;
      }
    }
  }

  predicate InDrain(pc: RunPc) {
    || pc.DrainCheck? || pc.DrainClaim?
    || (pc.Dispatching? && pc.draining) || (pc.Acking? && pc.draining)
  }

  predicate AtClaim(pc: RunPc) { pc.DrainClaim? || pc.PollClaim? }

  /** After k failed polls in a row the next backoff is Backoff(k); real-time passes leave it alone. */
  predicate PollBackoffInv(gen: Generation) {
    if gen.run.PollFailed? || gen.run.Sleeping? then gen.failures > 0 && gen.backoff == Backoff(gen.failures - 1)
    else gen.run.Exited? || gen.backoff == Backoff(gen.failures)
  }

  /** So it is with failed dials; a connection starts over. */
  predicate DialBackoffInv(gen: Generation) {
    && (gen.socket.Announcing? ==> gen.dials == 0)
    && (if gen.socket.DialFailed? || gen.socket.SocketSleeping? then
          gen.dials > 0 && gen.socketBackoff == Backoff(gen.dials - 1)
        else gen.socket.SocketExited? || gen.socketBackoff == Backoff(gen.dials))
  }

  predicate SmallBackoff(b: nat) { b == 1 || b == 2 || b == 4 || b == 8 || b == 16 || b == LONGEST_BACKOFF }

  ghost predicate SleepInv(gen: Generation, cancelled: bool) {
    && gen.slept <= LONGEST_BACKOFF + SAFETY_NET
    && (gen.run.PollFailed? || gen.run.Sleeping? || gen.run.Dispatching? || gen.run.Acking? ==> gen.slept == 0)
    && (gen.run.LoadFlag? || gen.run.Select? || gen.run.PollClaim? || (gen.run.Top? && !cancelled) ==>
          gen.slept <= LONGEST_BACKOFF)
  }

  /** A job announced and not yet served keeps a token in the channel, or a drain going. */
  ghost predicate OwedInv(gen: Generation, cancelled: bool) {
    gen.owed != {} ==> gen.wake || InDrain(gen.run) || gen.drainFailed || cancelled
  }

  /** What one generation always satisfies, whatever the others do. */
  ghost predicate GenerationInv(gen: Generation, cancelled: bool) {
    && (gen.run.Exited? ==> cancelled)
    && PollBackoffInv(gen) && DialBackoffInv(gen) && SmallBackoff(gen.socketBackoff)
    && SleepInv(gen, cancelled) && OwedInv(gen, cancelled)
  }

  lemma RunStepOnBackoff(gen: Generation, cancelled: bool, wsUp: bool, ready: set<nat>, act: RunAct)
    ensures var r := RunStep(gen, cancelled, wsUp, ready, act);
            r.Some? ==>
              && r.value.socket == gen.socket && r.value.socketBackoff == gen.socketBackoff
              && r.value.dials == gen.dials && !gen.run.Exited?
              && (if gen.run.PollClaim? then
                    if r.value.run.PollFailed?
                    then r.value.failures == gen.failures + 1 && r.value.backoff == gen.backoff
                    else r.value.failures == 0 && r.value.backoff == 1 && !r.value.run.Sleeping?
                  else if gen.run.Sleeping? && !r.value.run.Exited? then
                    r.value.run.Top? && r.value.failures == gen.failures && r.value.backoff == Doubled(gen.backoff)
                  else
                    && r.value.failures == gen.failures && r.value.backoff == gen.backoff && !r.value.run.PollFailed?
                    && (r.value.run.Sleeping? || r.value.run.Exited? || !gen.run.PollFailed?)
                    && (r.value.run.Sleeping? ==> gen.run.PollFailed?))
  {
    hide Doubled;
  }

  lemma RunStepKeepsBackoff(gen: Generation, cancelled: bool, wsUp: bool, ready: set<nat>, act: RunAct)
    requires PollBackoffInv(gen)
    ensures var r := RunStep(gen, cancelled, wsUp, ready, act);
            r.Some? ==> && PollBackoffInv(r.value) && r.value.socket == gen.socket
                        && r.value.socketBackoff == gen.socketBackoff && r.value.dials == gen.dials
  {
    RunStepOnBackoff(gen, cancelled, wsUp, ready, act);
    hide RunStep;
    assert Backoff(0) == 1;
    assert gen.failures > 0 ==> Backoff(gen.failures) == Doubled(Backoff(gen.failures - 1));
  }

  lemma SmallPowers()
    ensures forall k: nat :: k <= 5 ==> Pow2(k) <= LONGEST_BACKOFF
  {
    assert Pow2(1) == 2 && Pow2(2) == 4 && Pow2(3) == 8 && Pow2(4) == 16 && Pow2(5) == 32;
  }

  lemma RunStepKeepsSleep(gen: Generation, cancelled: bool, wsUp: bool, ready: set<nat>, act: RunAct)
    requires PollBackoffInv(gen) && SleepInv(gen, cancelled)
    ensures var r := RunStep(gen, cancelled, wsUp, ready, act); r.Some? ==> SleepInv(r.value, cancelled)
  {
    if gen.run.Sleeping? { BackoffIsCappedPowerOfTwo(gen.failures - 1); SmallPowers(); }
    hide Backoff, Doubled;
  }

  lemma RunStepKeepsChannel(gen: Generation, cancelled: bool, wsUp: bool, ready: set<nat>, act: RunAct)
    requires OwedInv(gen, cancelled)
    ensures var r := RunStep(gen, cancelled, wsUp, ready, act);
            r.Some? ==> OwedInv(r.value, cancelled) && (r.value.run.Exited? ==> cancelled)
  {
    hide Doubled;
  }

  lemma RunStepKeepsInv(gen: Generation, cancelled: bool, wsUp: bool, ready: set<nat>, act: RunAct)
    requires GenerationInv(gen, cancelled)
    ensures var r := RunStep(gen, cancelled, wsUp, ready, act); r.Some? ==> GenerationInv(r.value, cancelled)
  {
    RunStepKeepsBackoff(gen, cancelled, wsUp, ready, act);
    RunStepKeepsSleep(gen, cancelled, wsUp, ready, act);
    RunStepKeepsChannel(gen, cancelled, wsUp, ready, act);
    assert DialBackoffInv(gen);
    hide RunStep, PollBackoffInv, SmallBackoff, SleepInv, OwedInv;
  }

  lemma SocketStepFrame(gen: Generation, cancelled: bool, ready: set<nat>, act: SocketAct)
    ensures var r := SocketStep(gen, cancelled, ready, act);
            r.Some? ==>
              && r.value == gen.(socket := r.value.socket, wake := r.value.wake, socketBackoff := r.value.socketBackoff,
                                 dials := r.value.dials, owed := r.value.owed)
              && r.value.socketBackoff in {1, gen.socketBackoff, Doubled(gen.socketBackoff)}
              && ((r.value.owed == gen.owed && r.value.wake == gen.wake) || r.value.wake)
  {
    hide Doubled;
  }

  lemma SocketStepKeepsDials(gen: Generation, cancelled: bool, ready: set<nat>, act: SocketAct)
    requires DialBackoffInv(gen)
    ensures var r := SocketStep(gen, cancelled, ready, act); r.Some? ==> DialBackoffInv(r.value)
  {
    hide Doubled;
    assert Backoff(0) == 1;
    assert gen.dials > 0 ==> Backoff(gen.dials) == Doubled(Backoff(gen.dials - 1));
  }

  lemma SocketStepKeepsInv(gen: Generation, cancelled: bool, ready: set<nat>, act: SocketAct)
    requires GenerationInv(gen, cancelled)
    ensures var r := SocketStep(gen, cancelled, ready, act); r.Some? ==> GenerationInv(r.value, cancelled)
  {
    SocketStepFrame(gen, cancelled, ready, act);
    SocketStepKeepsDials(gen, cancelled, ready, act);
    assert SmallBackoff(1) && SmallBackoff(Doubled(gen.socketBackoff));
    hide SocketStep, SmallBackoff, DialBackoffInv, Backoff, Doubled;
  }

  ghost predicate LocalInv(s: State) {
    && |s.gens| == |s.pairing.contexts|
    && P.OneLiveContext(s.pairing)
    && (forall g :: 0 <= g < |s.gens| ==> GenerationInv(s.gens[g], s.pairing.contexts[g].cancelled))
  }

  lemma PairKeepsLocalInv(s: State, step: P.PairingStep)
    requires LocalInv(s)
    ensures LocalInv(Step(s, Pair(step)))
  {
    P.ApplyKeepsOneLiveContext(s.pairing, step);
    assert Backoff(0) == 1;
    assert GenerationInv(FRESH_GENERATION, false);
    hide P.Normalize, P.OneLiveContext, PollBackoffInv, SmallBackoff;
    var s' := Step(s, Pair(step));
    forall g | 0 <= g < |s'.gens| ensures GenerationInv(s'.gens[g], s'.pairing.contexts[g].cancelled) {
      if g < |s.gens| {
        assert GenerationInv(s.gens[g], s.pairing.contexts[g].cancelled);
      }
    }
  }

  lemma StepKeepsLocalInv(s: State, e: Event)
    requires LocalInv(s)
    ensures LocalInv(Step(s, e))
  {
    match e
    case Pair(step) =>
      PairKeepsLocalInv(s, step);
    case Run(g, act) =>
      if g < |s.gens| { RunStepKeepsInv(s.gens[g], Cancelled(s, g), s.wsUp, Ready(s.jobs), act); }
      hide RunStep, GenerationInv, P.OneLiveContext;
    case Socket(g, act) =>
      if g < |s.gens| { SocketStepKeepsInv(s.gens[g], Cancelled(s, g), Ready(s.jobs), act); }
      hide SocketStep, GenerationInv, P.OneLiveContext;
    case _ =>
      hide GenerationInv, P.OneLiveContext;
  }

  lemma {:induction false} RunsKeepLocalInv(es: seq<Event>)
    ensures LocalInv(After(es))
  {
    if es != [] {
      RunsKeepLocalInv(es[..|es| - 1]);
      StepKeepsLocalInv(After(es[..|es| - 1]), es[|es| - 1]);
    }
  }

  /** Whatever the flag does: since its last claim attempt a claim loop about to claim has slept at
      most 77 seconds, one backoff and one real-time wait, and after k failed polls in a row the backoff
      that it will sleep after the next failure is min(2^k, 32) seconds. */
  lemma SleepBetweenClaimsIsBounded(es: seq<Event>, g: nat)
    requires g < |After(es).gens|
    ensures var gen := After(es).gens[g];
            && (AtClaim(gen.run) ==> gen.slept <= 77)
            && (AtClaim(gen.run) ==> gen.backoff == if gen.failures <= 5 then Pow2(gen.failures) else 32)
            && (gen.run.Sleeping? ==> gen.failures > 0 && gen.backoff == Backoff(gen.failures - 1))
  {
    RunsKeepLocalInv(es);
    var gen := After(es).gens[g];
    BackoffIsCappedPowerOfTwo(gen.failures);
  }

  lemma DialBackoffIsCapped(gen: Generation)
    requires DialBackoffInv(gen)
    ensures gen.socket.SocketSleeping? ==>
              gen.dials > 0 && gen.socketBackoff == if gen.dials <= 6 then Pow2(gen.dials - 1) else 32
    ensures gen.socket.Announcing? ==> gen.socketBackoff == 1
  {
    assert Backoff(0) == 1;
    if gen.dials > 0 { BackoffIsCappedPowerOfTwo(gen.dials - 1); }
    hide Backoff, Pow2;
  }

  /** The socket loop backs off in the same way: after k failed dials in a row it sleeps 2^(k - 1) seconds,
      32 at most, and the first failure after a connection counts from one again. */
  lemma ReconnectBackoff(es: seq<Event>, g: nat)
    requires g < |After(es).gens|
    ensures var gen := After(es).gens[g];
            && (gen.socket.SocketSleeping? ==>
                  gen.dials > 0 && gen.socketBackoff == if gen.dials <= 6 then Pow2(gen.dials - 1) else 32)
            && (gen.socket.Announcing? ==> gen.socketBackoff == 1)
  {
    RunsKeepLocalInv(es);
    hide After, PollBackoffInv, DialBackoffInv, SleepInv, OwedInv, SmallBackoff, Pow2, P.OneLiveContext;
    assert GenerationInv(After(es).gens[g], After(es).pairing.contexts[g].cancelled);
    DialBackoffIsCapped(After(es).gens[g]);
  }

  /** How many of its own steps separate a live claim loop from its next claim attempt. */
  function StepsToClaim(pc: RunPc): nat {
    match pc
    case DrainClaim => 0
    case PollClaim => 0
    case DrainCheck => 1
    case Select => 2
    case LoadFlag => 3
    case Top => 4
    case Sleeping => 5
    case PollFailed => 6
    case Acking(_, _, _) => 5
    case Dispatching(_, _) => 6
    case Exited => 0
  }

  /** A live claim loop can never go on without claiming: every step of its own that is not a
      claim attempt brings it strictly nearer to one. */
  lemma LiveLoopReachesClaim(gen: Generation, wsUp: bool, ready: set<nat>, act: RunAct)
    requires !AtClaim(gen.run)
    ensures var r := RunStep(gen, false, wsUp, ready, act);
            r.Some? ==> !r.value.run.Exited? && StepsToClaim(r.value.run) < StepsToClaim(gen.run)
  {
  }

  lemma LiveLoopIsNeverStuck(gen: Generation, wsUp: bool, ready: set<nat>)
    requires !gen.run.Exited?
    ensures exists act :: RunStep(gen, false, wsUp, ready, act).Some?
  {
    var act := if gen.run.Select? then Tick
               else if AtClaim(gen.run) then ClaimError
               else if gen.run.Dispatching? then Print(true)
               else if gen.run.Acking? then AckDropped
               else Proceed;
    assert RunStep(gen, false, wsUp, ready, act).Some?;
  }

  /** What a claim loop can do where it stands, and nothing else: take the token only if there is one, claim
      only what is ready, find nothing only when nothing is; any request can fail, any reply be lost. */
  lemma WhatAClaimLoopCanDo(gen: Generation, cancelled: bool, wsUp: bool, ready: set<nat>, act: RunAct)
    ensures RunStep(gen, cancelled, wsUp, ready, act).Some? <==>
            match gen.run
            case Top | LoadFlag | DrainCheck | PollFailed => act == Proceed
            case Select =>
              (act.TakeWake? && gen.wake && act.waited <= 45) || act == Tick || (act == SeeCancel && cancelled)
            case DrainClaim | PollClaim =>
              || ((act.Claim? || act.ClaimReplyLost?) && act.job in ready)
              || (act == ClaimNothing && ready == {}) || act == ClaimError
            case Sleeping => act == Proceed || (act == SeeCancel && cancelled)
            case Dispatching(_, _) => act.Print?
            case Acking(_, _, _) => act == AckDelivered || act == AckDropped
            case Exited => false
  {
  }

  /** What a claim comes to: a job in hand, a clean end if nothing is ready, or an error, after which a drain
      is given up and a poll backs off. */
  lemma WhatAClaimComesTo(gen: Generation, cancelled: bool, wsUp: bool, ready: set<nat>, act: RunAct)
    requires AtClaim(gen.run) && RunStep(gen, cancelled, wsUp, ready, act).Some?
    ensures var next, drain := RunStep(gen, cancelled, wsUp, ready, act).value, gen.run.DrainClaim?;
            match act
            case Claim(j) =>
              next.run == Dispatching(j, drain) && next.owed == gen.owed - {j} && next.drainFailed == gen.drainFailed
            case ClaimNothing => next.run == Top && next.owed == {} && next.drainFailed == gen.drainFailed
            case _ =>
              && next.run == (if drain then Top else PollFailed) && next.owed == gen.owed
              && next.drainFailed == (drain || gen.drainFailed)
  {
  }

  /** On the server a claim is the same whether its reply arrives or not: the job is claimed, one attempt is
      used, and no other job is touched. A claim that finds nothing, or fails, changes nothing. */
  lemma WhatAClaimDoesToItsJob(jobs: seq<JobRecord>, pc: RunPc, j: nat)
    requires AtClaim(pc) && j < |jobs|
    ensures var r := jobs[j].(status := Claimed, attempts := jobs[j].attempts + 1);
            && JobsAfter(jobs, pc, Claim(j)) == jobs[j := r]
            && JobsAfter(jobs, pc, ClaimReplyLost(j)) == jobs[j := r.(lostReplies := r.lostReplies + 1)]
            && JobsAfter(jobs, pc, ClaimNothing) == jobs && JobsAfter(jobs, pc, ClaimError) == jobs
  {
  }

  /** A cancellation is seen at once while the loop waits or backs off, and before anything else is done. */
  lemma CancellationEndsWaiting(gen: Generation, wsUp: bool, ready: set<nat>)
    requires gen.run.Select? || gen.run.Sleeping? || gen.run.Top? || gen.run.PollFailed?
    ensures var act := if gen.run.Select? || gen.run.Sleeping? then SeeCancel else Proceed;
            RunStep(gen, true, wsUp, ready, act) == Some(gen.(run := Exited))
  {
  }

  /** How sleep is counted: a claim attempt, whatever comes of it, starts it over. */
  lemma SleepIsCounted(gen: Generation, cancelled: bool, wsUp: bool, ready: set<nat>, act: RunAct)
    ensures var r := RunStep(gen, cancelled, wsUp, ready, act);
            r.Some? ==>
              r.value.slept == if AtClaim(gen.run) then 0
                               else if gen.run.Select? && act.TakeWake? then gen.slept + act.waited
                               else if gen.run.Select? && act.Tick? then gen.slept + 45
                               else if gen.run.Sleeping? && act.Proceed? then gen.slept + gen.backoff
                               else gen.slept
  {
    hide Doubled;
  }

  /** What the socket loop can do where it stands. */
  lemma WhatASocketLoopCanDo(gen: Generation, cancelled: bool, ready: set<nat>, act: SocketAct)
    ensures SocketStep(gen, cancelled, ready, act).Some? <==>
            match gen.socket
            case Dialing => act == DialOk || act == DialError
            case SocketSleeping => act == Advance || (act == SocketSeeCancel && cancelled)
            case Reading => act == Frame || act == ReadError
            case SocketExited => false
            case _ => act == Advance
  {
    hide Doubled;
  }

  /** How many of its own steps separate a socket loop that is not connected from its next dial. */
  function StepsToDial(pc: SocketPc): nat {
    match pc
    case Dialing => 0
    case SocketTop => 1
    case SocketSleeping => 2
    case Dropped => 2
    case DialFailed => 3
    case Dropping => 3
    case _ => 4
  }

  /** A live socket loop never gives up: it does not exit, after a failed dial or a dropped connection each
      step brings it nearer to the next dial, and while it is connected every frame is followed by a
      signal, before anything else is read. */
  lemma LiveSocketRedialsAndSignals(gen: Generation, ready: set<nat>, act: SocketAct)
    ensures var r := SocketStep(gen, false, ready, act);
            r.Some? ==>
              && !r.value.socket.SocketExited?
              && (0 < StepsToDial(gen.socket) < 4 ==> StepsToDial(r.value.socket) < StepsToDial(gen.socket))
              && (act.Frame? ==> r.value.socket.FrameRead?)
              && (gen.socket.FrameRead? || gen.socket.Announcing? ==>
                    r.value.wake && ready <= r.value.owed && r.value.socket.ReadCheck?)
              && (gen.socket.ReadCheck? ==> r.value.socket.Reading?)
              && (gen.socket.Dialing? ==> if act.DialOk? then r.value.socket.Connected? else r.value.socket.DialFailed?)
              && (gen.socket.Connected? ==> r.value.socket.Announcing?)
              && (act.ReadError? ==> r.value.socket.Dropping?)
    ensures SocketStep(gen.(socket := SocketSleeping), true, ready, SocketSeeCancel) ==
            Some(gen.(socket := SocketExited))
  {
    hide Doubled;
  }

  function RunWindDown(pc: RunPc): nat {
    match pc
    case Exited => 0
    case Top => 1
    case PollFailed => 1
    case DrainCheck => 2
    case Sleeping => 2
    case Acking(_, _, _) => 3
    case Dispatching(_, _) => 4
    case DrainClaim => 5
    case PollClaim => 5
    case Select => 6
    case LoadFlag => 7
  }

  function SocketWindDown(pc: SocketPc): nat {
    match pc
    case SocketExited => 0
    case SocketTop => 1
    case DialFailed => 1
    case Dropped => 1
    case SocketSleeping => 2
    case Dropping => 2
    case ReadCheck => 3
    case FrameRead => 4
    case Announcing => 4
    case Reading => 5
    case Connected => 5
    case Dialing => 6
  }

  /** A cancelled generation winds down: each of its steps strictly lowers a bound on how many it
      has left, so it takes at most 7 claim-loop and 6 socket-loop steps, and at most one claim. */
  lemma CancelledGenerationWindsDown(gen: Generation, wsUp: bool, ready: set<nat>, act: RunAct, sact: SocketAct)
    ensures var r := RunStep(gen, true, wsUp, ready, act);
            r.Some? ==>
              && RunWindDown(r.value.run) < RunWindDown(gen.run)
              && (AtClaim(gen.run) ==> RunWindDown(r.value.run) < 5)
    ensures var r := SocketStep(gen, true, ready, sact);
            r.Some? ==> SocketWindDown(r.value.socket) < SocketWindDown(gen.socket)
    ensures RunWindDown(gen.run) == 0 <==> gen.run.Exited?
    ensures SocketWindDown(gen.socket) == 0 <==> gen.socket.SocketExited?
  {
  }

  function One(b: bool): nat { if b then 1 else 0 }

  /** The steps that generation g's two loops take among events a to b - 1, and its claim attempts. */
  function RunSteps(es: seq<Event>, a: nat, b: nat, g: nat): nat
    requires a <= b <= |es|
    decreases b - a
  {
    if a == b then 0
    else
      var s, e := After(es[..b - 1]), es[b - 1];
      RunSteps(es, a, b - 1, g)
      + One(&& e.Run? && e.g == g && g < |s.gens|
            && RunStep(s.gens[g], Cancelled(s, g), s.wsUp, Ready(s.jobs), e.act).Some?)
  }

  function ClaimAttempts(es: seq<Event>, a: nat, b: nat, g: nat): nat
    requires a <= b <= |es|
    decreases b - a
  {
    if a == b then 0
    else
      var s, e := After(es[..b - 1]), es[b - 1];
      ClaimAttempts(es, a, b - 1, g)
      + One(&& e.Run? && e.g == g && g < |s.gens| && AtClaim(s.gens[g].run)
            && RunStep(s.gens[g], Cancelled(s, g), s.wsUp, Ready(s.jobs), e.act).Some?)
  }

  function SocketSteps(es: seq<Event>, a: nat, b: nat, g: nat): nat
    requires a <= b <= |es|
    decreases b - a
  {
    if a == b then 0
    else
      var s, e := After(es[..b - 1]), es[b - 1];
      SocketSteps(es, a, b - 1, g)
      + One(&& e.Socket? && e.g == g && g < |s.gens|
            && SocketStep(s.gens[g], Cancelled(s, g), Ready(s.jobs), e.sact).Some?)
  }

  lemma RunStepKeepsSocket(gen: Generation, cancelled: bool, wsUp: bool, ready: set<nat>, act: RunAct)
    ensures var r := RunStep(gen, cancelled, wsUp, ready, act); r.Some? ==> r.value.socket == gen.socket
  {
  }

  lemma SocketStepKeepsRun(gen: Generation, cancelled: bool, ready: set<nat>, act: SocketAct)
    ensures var r := SocketStep(gen, cancelled, ready, act); r.Some? ==> r.value.run == gen.run
  {
  }

  lemma CancelledStep(s: State, e: Event, g: nat)
    requires LocalInv(s) && g < |s.gens| && Cancelled(s, g)
    ensures var s' := Step(s, e);
            && g < |s'.gens| && Cancelled(s', g)
            && RunWindDown(s'.gens[g].run)
               + One(e.Run? && e.g == g && RunStep(s.gens[g], true, s.wsUp, Ready(s.jobs), e.act).Some?)
               <= RunWindDown(s.gens[g].run)
            && SocketWindDown(s'.gens[g].socket)
               + One(e.Socket? && e.g == g && SocketStep(s.gens[g], true, Ready(s.jobs), e.sact).Some?)
               <= SocketWindDown(s.gens[g].socket)
            && (e.Run? && e.g == g && AtClaim(s.gens[g].run)
                && RunStep(s.gens[g], true, s.wsUp, Ready(s.jobs), e.act).Some? ==>
                  RunWindDown(s.gens[g].run) == 5 && RunWindDown(s'.gens[g].run) < 5)
  {
    match e
    case Pair(step) =>
      P.ApplyKeepsOneLiveContext(s.pairing, step);
      hide P.Apply, RunStep, SocketStep;
    case Run(h, act) =>
      CancelledGenerationWindsDown(s.gens[g], s.wsUp, Ready(s.jobs), act, Advance);
      if h == g { RunStepKeepsSocket(s.gens[g], true, s.wsUp, Ready(s.jobs), act); }
      hide RunStep, SocketStep, SocketWindDown, JobsAfter;
    case Socket(h, act) =>
      CancelledGenerationWindsDown(s.gens[g], s.wsUp, Ready(s.jobs), Proceed, act);
      if h == g { SocketStepKeepsRun(s.gens[g], true, Ready(s.jobs), act); }
      hide RunStep, SocketStep, RunWindDown;
    case _ =>
      hide RunStep, SocketStep;
  }

  lemma WindDownIsShort(pc: RunPc, socket: SocketPc)
    ensures RunWindDown(pc) <= 7 && SocketWindDown(socket) <= 6
  {
  }

  /** From the moment generation g is cancelled, in every run: its claim loop takes at most seven more
      steps, one claim attempt among them, and its socket loop at most six. */
  lemma {:induction false} CancelledGenerationStops(es: seq<Event>, a: nat, b: nat, g: nat)
    requires a <= b <= |es| && g < |After(es[..a]).gens| && Cancelled(After(es[..a]), g)
    ensures g < |After(es[..b]).gens| && Cancelled(After(es[..b]), g)
    ensures RunSteps(es, a, b, g) + RunWindDown(After(es[..b]).gens[g].run) <= 7
    ensures SocketSteps(es, a, b, g) + SocketWindDown(After(es[..b]).gens[g].socket) <= 6
    ensures ClaimAttempts(es, a, b, g) + One(RunWindDown(After(es[..b]).gens[g].run) >= 5) <= 1
    decreases b - a
  {
    hide After, Step, RunStep, SocketStep, LocalInv, RunWindDown, SocketWindDown, AtClaim;
    var gen := After(es[..b]).gens;
    if a == b {
      WindDownIsShort(gen[g].run, gen[g].socket);
    } else {
      CancelledGenerationStops(es, a, b - 1, g);
      RunsKeepLocalInv(es[..b - 1]);
      AfterOneMore(es, b - 1);
      CancelledStep(After(es[..b - 1]), es[b - 1], g);
    }
  }

  // ---------------------------------------------------------------- the shared flag

  /** Between a socket loop's Store(true) and its Store(false). */
  predicate InWindow(pc: SocketPc) {
    pc.Announcing? || pc.ReadCheck? || pc.Reading? || pc.FrameRead? || pc.Dropping?
  }

  ghost predicate FlagInv(s: State) {
    && (s.wsUp ==> exists g :: 0 <= g < |s.gens| && InWindow(s.gens[g].socket))
    && (|s.gens| == 1 && InWindow(s.gens[0].socket) ==> s.wsUp)
  }

  lemma SocketStepWindow(gen: Generation, cancelled: bool, wsUp: bool, ready: set<nat>, act: SocketAct)
    ensures var r := SocketStep(gen, cancelled, ready, act);
            r.Some? ==>
              var up := FlagAfter(gen.socket, wsUp);
              && (InWindow(r.value.socket) ==> up || (InWindow(gen.socket) && up == wsUp))
              && (up ==> InWindow(r.value.socket) || (!InWindow(gen.socket) && up == wsUp))
  {
  }

  lemma StepKeepsFlagInv(s: State, e: Event)
    requires LocalInv(s) && FlagInv(s)
    ensures FlagInv(Step(s, e))
  {
    var s' := Step(s, e);
    match e
    case Socket(g, act) =>
      if g < |s.gens| {
        var r := SocketStep(s.gens[g], Cancelled(s, g), Ready(s.jobs), act);
        SocketStepWindow(s.gens[g], Cancelled(s, g), s.wsUp, Ready(s.jobs), act);
        if r.Some? && s'.wsUp {
          if InWindow(r.value.socket) {
            assert s'.gens[g] == r.value;
          } else {
            var h :| 0 <= h < |s.gens| && InWindow(s.gens[h].socket);
            assert s'.gens[h] == s.gens[h];
          }
        }
      }
    case Run(g, act) =>
      if g < |s.gens| {
        RunStepKeepsSocket(s.gens[g], Cancelled(s, g), s.wsUp, Ready(s.jobs), act);
        assert forall h :: 0 <= h < |s.gens| ==> s'.gens[h].socket == s.gens[h].socket;
      }
    case _ =>
      assert forall h :: 0 <= h < |s.gens| ==> s'.gens[h] == s.gens[h];
  }

  lemma {:induction false} RunsKeepFlagInv(es: seq<Event>)
    ensures FlagInv(After(es))
  {
    if es != [] {
      RunsKeepFlagInv(es[..|es| - 1]);
      RunsKeepLocalInv(es[..|es| - 1]);
      StepKeepsFlagInv(After(es[..|es| - 1]), es[|es| - 1]);
    }
  }

  /** In every run, with any number of re-pairings and stops and however the writes of different
      generations interleave: the flag is down whenever no socket loop stands between its two
      writes, in particular once all of them have exited. With one pairing only, the flag is up
      exactly while its socket loop stands between them. */
  lemma FlagDownOnceSocketsExit(es: seq<Event>)
    ensures var s := After(es);
            && ((forall g :: 0 <= g < |s.gens| ==> s.gens[g].socket.SocketExited?) ==> !s.wsUp)
            && ((forall g :: 0 <= g < |s.gens| ==> !InWindow(s.gens[g].socket)) ==> !s.wsUp)
            && (|s.gens| == 1 ==> (s.wsUp <==> InWindow(s.gens[0].socket)))
  {
    RunsKeepFlagInv(es);
  }

  /** Extends a run by one step of a claim loop, of a socket loop, or by pairing. */
  lemma ThenRun(es: seq<Event>, s: State, g: nat, act: RunAct, gen: Generation) returns (es': seq<Event>, s': State)
    requires After(es) == s && g < |s.gens|
    requires RunStep(s.gens[g], Cancelled(s, g), s.wsUp, Ready(s.jobs), act) == Some(gen)
    ensures es <= es' && After(es') == s' == s.(gens := s.gens[g := gen], jobs := JobsAfter(s.jobs, s.gens[g].run, act))
  {
    es' := es + [Run(g, act)];
    assert es'[..|es'| - 1] == es;
    s' := Step(s, Run(g, act));
  }

  lemma ThenSocket(es: seq<Event>, s: State, g: nat, act: SocketAct, gen: Generation) returns (es': seq<Event>,
                                                                                               s': State)
    requires After(es) == s && g < |s.gens|
    requires SocketStep(s.gens[g], Cancelled(s, g), Ready(s.jobs), act) == Some(gen)
    ensures After(es') == s' == s.(gens := s.gens[g := gen], wsUp := FlagAfter(s.gens[g].socket, s.wsUp))
  {
    es' := es + [Socket(g, act)];
    assert es'[..|es'| - 1] == es;
    s' := Step(s, Socket(g, act));
  }

  lemma ThenPair(es: seq<Event>, s: State, cfg: P.Config) returns (es': seq<Event>, s': State)
    requires After(es) == s && P.Normalize(cfg).Paired()
    ensures es <= es' && After(es') == s' == s.(pairing := s'.pairing, gens := s.gens + [FRESH_GENERATION])
    ensures |s'.pairing.contexts| == |s.gens| + 1 && !s'.pairing.contexts[|s.gens|].cancelled
    ensures forall g :: 0 <= g < |s.gens| ==> s'.pairing.contexts[g].cancelled
  {
    es' := es + [Pair(P.Install(cfg))];
    assert es'[..|es'| - 1] == es;
    s' := Step(s, Pair(P.Install(cfg)));
    RunsKeepLocalInv(es');
    RunsKeepLocalInv(es);
  }

  lemma ThenEnqueue(es: seq<Event>, s: State) returns (es': seq<Event>, s': State)
    requires After(es) == s
    ensures After(es') == s' == s.(jobs := s.jobs + [NEW_JOB])
  {
    es' := es + [Enqueue];
    assert es'[..|es'| - 1] == es;
    s' := Step(s, Enqueue);
  }

  /** A live generation's socket loop dials and raises the flag. */
  lemma ThenRaise(es: seq<Event>, s: State, g: nat) returns (es': seq<Event>, s': State)
    requires After(es) == s && g < |s.gens| && !Cancelled(s, g) && s.gens[g].socket.SocketTop?
    ensures After(es') == s'
    ensures s' == s.(wsUp := true,
                     gens := s.gens[g := s.gens[g].(socket := Announcing, socketBackoff := 1, dials := 0)])
  {
    hide After;
    var gen := s.gens[g];
    es', s' := ThenSocket(es, s, g, Advance, gen.(socket := Dialing));
    es', s' := ThenSocket(es', s', g, DialOk, gen.(socket := Connected));
    gen := gen.(socket := Announcing, socketBackoff := 1, dials := 0);
    es', s' := ThenSocket(es', s', g, Advance, gen); // Store(true)
    assert s'.gens == s.gens[g := gen];
  }

  /** A live generation's socket loop connects, signals, and settles in Read. */
  lemma ThenConnect(es: seq<Event>, s: State, g: nat) returns (es': seq<Event>, s': State)
    requires After(es) == s && g < |s.gens| && !Cancelled(s, g)
    requires s.gens[g] == FRESH_GENERATION
    ensures After(es') == s'
    ensures s' == s.(wsUp := true,
                     gens := s.gens[g := FRESH_GENERATION.(socket := Reading, wake := true, owed := Ready(s.jobs))])
  {
    hide After;
    var gen := FRESH_GENERATION;
    es', s' := ThenRaise(es, s, g);
    assert gen.owed + Ready(s.jobs) == Ready(s.jobs);
    gen := gen.(wake := true, owed := Ready(s.jobs));
    es', s' := ThenSocket(es', s', g, Advance, gen.(socket := ReadCheck)); // signal
    es', s' := ThenSocket(es', s', g, Advance, gen.(socket := Reading));
    assert s'.gens == s.gens[g := gen.(socket := Reading)];
  }

  /** A cancelled generation whose socket has just connected still lowers the flag on its way out. */
  lemma ThenDisconnect(es: seq<Event>, s: State, g: nat) returns (es': seq<Event>, s': State)
    requires After(es) == s && g < |s.gens| && Cancelled(s, g) && s.gens[g].socket.Announcing?
    ensures After(es') == s' && !s'.wsUp && s'.pairing == s.pairing && |s'.gens| == |s.gens|
    ensures forall h :: 0 <= h < |s.gens| && h != g ==> s'.gens[h] == s.gens[h]
  {
    hide After;
    var gen := Signalled(s.gens[g], Ready(s.jobs));
    es', s' := ThenSocket(es, s, g, Advance, gen.(socket := ReadCheck));
    es', s' := ThenSocket(es', s', g, Advance, gen.(socket := Dropping));
    es', s' := ThenSocket(es', s', g, Advance, gen.(socket := Dropped)); // Store(false)
  }

  /** Event number c stores to the flag: some socket loop takes its step at Connected or Dropping. */
  predicate Stores(s: State, e: Event) {
    && e.Socket? && e.sact.Advance? && e.g < |s.gens|
    && (s.gens[e.g].socket.Connected? || s.gens[e.g].socket.Dropping?)
  }

  /** The generation that stored to the flag last, if any has. */
  function LastStorer(es: seq<Event>): Option<nat> {
    if es == [] then None
    else
      var init, e := es[..|es| - 1], es[|es| - 1];
      if Stores(After(init), e) then Some(e.g) else LastStorer(init)
  }

  ghost predicate LastStorerInv(s: State, last: Option<nat>) {
    && (s.wsUp <==> last.Some? && last.value < |s.gens| && InWindow(s.gens[last.value].socket))
    && (last.Some? ==> last.value < |s.gens|)
    && (last.None? ==> forall g :: 0 <= g < |s.gens| ==> !InWindow(s.gens[g].socket))
  }

  /** A step that does not store neither enters nor leaves the stretch between the two stores. */
  lemma SocketStepStores(gen: Generation, cancelled: bool, wsUp: bool, ready: set<nat>, act: SocketAct)
    ensures var r := SocketStep(gen, cancelled, ready, act);
            r.Some? ==>
              if act.Advance? && (gen.socket.Connected? || gen.socket.Dropping?)
              then FlagAfter(gen.socket, wsUp) == InWindow(r.value.socket)
              else FlagAfter(gen.socket, wsUp) == wsUp && InWindow(r.value.socket) == InWindow(gen.socket)
    ensures act.Advance? && (gen.socket.Connected? || gen.socket.Dropping?) ==>
              SocketStep(gen, cancelled, ready, act).Some?
  {
  }

  lemma StepKeepsLastStorer(s: State, e: Event, last: Option<nat>)
    requires LastStorerInv(s, last)
    ensures LastStorerInv(Step(s, e), if Stores(s, e) then Some(e.g) else last)
  {
    var s' := Step(s, e);
    match e
    case Socket(g, act) =>
      if g < |s.gens| {
        SocketStepStores(s.gens[g], Cancelled(s, g), s.wsUp, Ready(s.jobs), act);
        hide SocketStep, FlagAfter;
      }
    case Run(g, act) =>
      if g < |s.gens| {
        RunStepKeepsSocket(s.gens[g], Cancelled(s, g), s.wsUp, Ready(s.jobs), act);
        assert forall h :: 0 <= h < |s.gens| ==> s'.gens[h].socket == s.gens[h].socket;
      }
    case _ =>
      assert forall h :: 0 <= h < |s.gens| ==> s'.gens[h] == s.gens[h];
  }

  /** What the flag says, exactly and in every run: that the generation which stored last stands between
      its two stores, hence is connected or about to store again. */
  lemma {:induction false} FlagIsLastStorers(es: seq<Event>)
    ensures LastStorerInv(After(es), LastStorer(es))
  {
    if es != [] {
      FlagIsLastStorers(es[..|es| - 1]);
      StepKeepsLastStorer(After(es[..|es| - 1]), es[|es| - 1], LastStorer(es[..|es| - 1]));
    }
  }

  ghost predicate FlagDescribes(s: State, g: nat) {
    g < |s.gens| && (s.wsUp <==> InWindow(s.gens[g].socket))
  }

  /** So it describes a generation exactly when that one and the last storer are both, or both not,
      between their stores. */
  lemma FlagDescribesExactly(es: seq<Event>, g: nat)
    requires g < |After(es).gens|
    ensures var s, last := After(es), LastStorer(es);
            && (last.Some? ==> last.value < |s.gens|)
            && (FlagDescribes(s, g) <==>
                  (last.Some? ==> (InWindow(s.gens[g].socket) <==> InWindow(s.gens[last.value].socket))))
  {
    FlagIsLastStorers(es);
  }

  ghost predicate OthersExited(s: State, g: nat) {
    g < |s.gens| && forall h :: 0 <= h < |s.gens| && h != g ==> s.gens[h].socket.SocketExited?
  }

  lemma OthersStayExited(s: State, e: Event, g: nat)
    requires OthersExited(s, g) && |Step(s, e).gens| == |s.gens|
    ensures OthersExited(Step(s, e), g) && (Stores(s, e) ==> e.g == g)
  {
    match e
    case Socket(h, act) =>
      hide RunStep;
    case Run(h, act) =>
      if h < |s.gens| { RunStepKeepsSocket(s.gens[h], Cancelled(s, h), s.wsUp, Ready(s.jobs), act); }
      hide RunStep;
    case _ =>
      hide RunStep, SocketStep;
  }

  lemma StepKeepsGenerations(s: State, e: Event)
    ensures |s.gens| <= |Step(s, e).gens|
  {
    hide RunStep, SocketStep, JobsAfter, P.Apply;
  }

  lemma {:induction false} GenerationsGrow(es: seq<Event>, a: nat, b: nat)
    requires a <= b <= |es|
    ensures |After(es[..a]).gens| <= |After(es[..b]).gens|
    decreases b - a
  {
    hide After, Step;
    if a < b {
      GenerationsGrow(es, a, b - 1);
      AfterOneMore(es, b - 1);
      StepKeepsGenerations(After(es[..b - 1]), es[b - 1]);
    }
  }

  /** Unless generation g itself stores, a step leaves it between its stores or not as it was. */
  lemma StoresOrKeepsWindow(s: State, e: Event, g: nat)
    requires g < |s.gens|
    ensures g < |Step(s, e).gens|
    ensures (Stores(s, e) && e.g == g) || (InWindow(Step(s, e).gens[g].socket) <==> InWindow(s.gens[g].socket))
  {
    match e
    case Socket(h, act) =>
      if h == g { SocketStepStores(s.gens[g], Cancelled(s, g), s.wsUp, Ready(s.jobs), act); }
      hide SocketStep;
    case Run(h, act) =>
      if h == g { RunStepKeepsSocket(s.gens[g], Cancelled(s, g), s.wsUp, Ready(s.jobs), act); }
      hide RunStep;
    case _ =>
      hide P.Apply;
  }

  /** All other socket loops have exited, and generation g either was the last to store or is not between
      its stores. */
  ghost predicate Settled(s: State, last: Option<nat>, g: nat) {
    OthersExited(s, g) && (last == Some(g) || !InWindow(s.gens[g].socket))
  }

  lemma StepKeepsSettled(s: State, e: Event, last: Option<nat>, g: nat)
    requires Settled(s, last, g) && |Step(s, e).gens| == |s.gens|
    ensures Settled(Step(s, e), if Stores(s, e) then Some(e.g) else last, g)
  {
    OthersStayExited(s, e, g);
    StoresOrKeepsWindow(s, e, g);
    hide Step;
  }

  lemma SettledFlagDescribes(s: State, last: Option<nat>, g: nat)
    requires Settled(s, last, g) && LastStorerInv(s, last)
    ensures FlagDescribes(s, g)
  {
  }

  /** The condition to see to: once a run has settled on generation g, the flag describes g until the
      next re-pairing. */
  lemma {:induction false} FlagDescribesUntilNextPairing(es: seq<Event>, a: nat, b: nat, g: nat)
    requires a <= b <= |es| && |After(es[..a]).gens| == |After(es[..b]).gens|
    requires Settled(After(es[..a]), LastStorer(es[..a]), g)
    ensures Settled(After(es[..b]), LastStorer(es[..b]), g)
    ensures FlagDescribes(After(es[..b]), g)
    decreases b - a
  {
    hide After, Step, LastStorerInv, Settled, FlagDescribes, Stores;
    if a < b {
      GenerationsGrow(es, a, b - 1);
      AfterOneMore(es, b - 1);
      StepKeepsGenerations(After(es[..b - 1]), es[b - 1]);
      FlagDescribesUntilNextPairing(es, a, b - 1, g);
      StepKeepsSettled(After(es[..b - 1]), es[b - 1], LastStorer(es[..b - 1]), g);
      assert es[..b][..b - 1] == es[..b - 1];
    }
    FlagIsLastStorers(es[..b]);
    SettledFlagDescribes(After(es[..b]), LastStorer(es[..b]), g);
  }

  /** Otherwise it may not, in either direction. The old loop's late Store(false) hides a live, connected
      socket; the claim loop then polls. */
  lemma StaleStoreHidesLiveSocket(a: P.Config, b: P.Config) returns (es: seq<Event>)
    requires P.Normalize(a).Paired() && P.Normalize(b).Paired()
    ensures var s := After(es);
            |s.gens| == 2 && !Cancelled(s, 1) && s.gens[1].socket.Reading? && !s.wsUp
  {
    assert After([]) == START;
    hide After;
    var s := START;
    es, s := ThenPair([], s, a);
    es, s := ThenRaise(es, s, 0);
    es, s := ThenPair(es, s, b);
    assert Cancelled(s, 0);
    es, s := ThenConnect(es, s, 1);
    es, s := ThenDisconnect(es, s, 0);
  }

  /** The socket loop of the only generation dials, and raises the flag after the next pairing has
      cancelled it. */
  lemma ThenLateRaise(es: seq<Event>, s: State, b: P.Config) returns (es': seq<Event>, s': State)
    requires After(es) == s && s.gens == [FRESH_GENERATION] && !Cancelled(s, 0) && P.Normalize(b).Paired()
    ensures After(es') == s' && s'.wsUp && !Cancelled(s', 1) && s'.jobs == s.jobs
    ensures |s'.gens| == 2 && s'.gens[1] == FRESH_GENERATION
  {
    hide After;
    var gen := FRESH_GENERATION;
    es', s' := ThenSocket(es, s, 0, Advance, gen.(socket := Dialing));
    es', s' := ThenSocket(es', s', 0, DialOk, gen.(socket := Connected));
    es', s' := ThenPair(es', s', b);
    es', s' := ThenSocket(es', s', 0, Advance, gen.(socket := Announcing));
  }

  /** A live generation fails to connect, and its claim loop finds the flag up and waits. */
  lemma ThenWaitInVain(es: seq<Event>, s: State, g: nat) returns (es': seq<Event>, s': State)
    requires After(es) == s && g < |s.gens| && !Cancelled(s, g) && s.wsUp && s.gens[g] == FRESH_GENERATION
    ensures After(es') == s'
    ensures s' == s.(gens := s.gens[g := FRESH_GENERATION.(socket := SocketSleeping, run := Select, dials := 1)])
  {
    hide After;
    var gen := FRESH_GENERATION;
    es', s' := ThenSocket(es, s, g, Advance, gen.(socket := Dialing));
    es', s' := ThenSocket(es', s', g, DialError, gen.(socket := DialFailed, dials := 1));
    gen := gen.(socket := SocketSleeping, dials := 1);
    es', s' := ThenSocket(es', s', g, Advance, gen);
    es', s' := ThenRun(es', s', g, Proceed, gen.(run := LoadFlag));
    es', s' := ThenRun(es', s', g, Proceed, gen.(run := Select));
    assert s'.gens == s.gens[g := gen.(run := Select)];
  }

  /** The old loop's late Store(true) feigns one: the live socket could not connect, and yet the live
      claim loop waits for it, on an empty channel, while a job is ready. */
  lemma StaleStoreFeignsLiveSocket(a: P.Config, b: P.Config) returns (es: seq<Event>)
    requires P.Normalize(a).Paired() && P.Normalize(b).Paired()
    ensures var s := After(es);
            && |s.gens| == 2 && !Cancelled(s, 1) && s.wsUp && 0 in Ready(s.jobs)
            && s.gens[1].socket.SocketSleeping? && s.gens[1].run.Select? && !s.gens[1].wake
  {
    assert After([]) == START;
    hide After;
    var s := START;
    es, s := ThenPair([], s, a);
    es, s := ThenLateRaise(es, s, b);
    es, s := ThenWaitInVain(es, s, 1);
    es, s := ThenEnqueue(es, s);
  }

  // ---------------------------------------------------------------- no lost wake-up

  /** Nothing is on its way to generation g: it is live, its channel is empty, it is not draining,
      and its latest drain ended cleanly. */
  predicate Quiet(s: State, g: nat) {
    && g < |s.gens| && !Cancelled(s, g)
    && !s.gens[g].wake && !InDrain(s.gens[g].run) && !s.gens[g].drainFailed
  }

  lemma RunStepKeepsOwed(gen: Generation, cancelled: bool, wsUp: bool, jobs: seq<JobRecord>, act: RunAct, j: nat)
    requires j in gen.owed && j in Ready(jobs)
    ensures var next := RunStep(gen, cancelled, wsUp, Ready(jobs), act);
            next.Some? && j in Ready(JobsAfter(jobs, gen.run, act)) ==> j in next.value.owed
  {
  }

  lemma SocketStepKeepsOwed(gen: Generation, cancelled: bool, ready: set<nat>, act: SocketAct)
    ensures var next := SocketStep(gen, cancelled, ready, act); next.Some? ==> gen.owed <= next.value.owed
  {
  }

  lemma OwedUntilServed(s: State, e: Event, g: nat, j: nat)
    requires g < |s.gens| && j in s.gens[g].owed
    requires j in Ready(s.jobs) && j in Ready(Step(s, e).jobs)
    requires |s.gens| == |s.pairing.contexts|
    ensures g < |Step(s, e).gens| && j in Step(s, e).gens[g].owed
  {
    match e
    case Run(h, act) =>
      if h == g { RunStepKeepsOwed(s.gens[g], Cancelled(s, g), s.wsUp, s.jobs, act, j); }
      hide RunStep, JobsAfter;
    case Socket(h, act) =>
      if h == g { SocketStepKeepsOwed(s.gens[g], Cancelled(s, g), Ready(s.jobs), act); }
      hide SocketStep;
    case _ =>
      hide P.Apply;
  }

  /** Event number a is generation g's socket loop signalling, on connect or for a received frame. */
  predicate Signals(es: seq<Event>, a: nat, g: nat)
    requires a < |es|
  {
    var s := After(es[..a]);
    && es[a] == Socket(g, Advance) && g < |s.gens|
    && (s.gens[g].socket.Announcing? || s.gens[g].socket.FrameRead?)
  }

  lemma SignalStep(s: State, g: nat)
    requires g < |s.gens| && (s.gens[g].socket.Announcing? || s.gens[g].socket.FrameRead?)
    ensures Step(s, Socket(g, Advance)).gens ==
            s.gens[g := Signalled(s.gens[g], Ready(s.jobs)).(socket := ReadCheck)]
  {
    hide Ready, Doubled, FlagAfter;
  }

  lemma SignalOwes(es: seq<Event>, a: nat, g: nat, j: nat)
    requires a < |es| && Signals(es, a, g) && j in Ready(After(es[..a]).jobs)
    ensures g < |After(es[..a + 1]).gens| && j in After(es[..a + 1]).gens[g].owed
  {
    AfterOneMore(es, a);
    SignalStep(After(es[..a]), g);
    hide After, Step;
  }

  lemma OwedOneMore(es: seq<Event>, c: nat, g: nat, j: nat)
    requires c < |es| && g < |After(es[..c]).gens| && j in After(es[..c]).gens[g].owed
    requires j in Ready(After(es[..c]).jobs) && j in Ready(After(es[..c + 1]).jobs)
    ensures g < |After(es[..c + 1]).gens| && j in After(es[..c + 1]).gens[g].owed
  {
    AfterOneMore(es, c);
    RunsKeepLocalInv(es[..c]);
    OwedUntilServed(After(es[..c]), es[c], g, j);
  }

  lemma {:induction false} OwedThroughout(es: seq<Event>, a: nat, b: nat, g: nat, j: nat)
    requires a < b <= |es| && Signals(es, a, g)
    requires forall c :: a <= c <= b ==> j in Ready(After(es[..c]).jobs)
    ensures g < |After(es[..b]).gens| && j in After(es[..b]).gens[g].owed
  {
    hide After;
    if b == a + 1 {
      SignalOwes(es, a, g, j);
    } else {
      OwedThroughout(es, a, b - 1, g, j);
      OwedOneMore(es, b - 1, g, j);
    }
  }

  lemma QuietOwesNothing(es: seq<Event>, g: nat)
    requires Quiet(After(es), g)
    ensures After(es).gens[g].owed == {}
  {
    RunsKeepLocalInv(es);
    assert GenerationInv(After(es).gens[g], false);
  }

  /** Event number c claims job j: it was ready, and some loop's claim takes it. */
  predicate ClaimedAt(es: seq<Event>, c: nat, j: nat)
    requires c < |es|
  {
    && j in Ready(After(es[..c]).jobs) && j !in Ready(After(es[..c + 1]).jobs)
    && es[c].Run? && (es[c].act == Claim(j) || es[c].act == ClaimReplyLost(j))
  }

  lemma RunStepTakesOnlyItsClaim(gen: Generation, cancelled: bool, wsUp: bool, jobs: seq<JobRecord>, act: RunAct,
                                 j: nat)
    requires j in Ready(jobs)
    ensures RunStep(gen, cancelled, wsUp, Ready(jobs), act).Some? && j !in Ready(JobsAfter(jobs, gen.run, act)) ==>
              act == Claim(j) || act == ClaimReplyLost(j)
  {
    hide RunStep;
  }

  lemma OnlyClaimsTakeReadyJobs(s: State, e: Event, j: nat)
    requires j in Ready(s.jobs) && j !in Ready(Step(s, e).jobs)
    ensures e.Run? && (e.act == Claim(j) || e.act == ClaimReplyLost(j))
  {
    if e.Run? && e.g < |s.gens| {
      RunStepTakesOnlyItsClaim(s.gens[e.g], Cancelled(s, e.g), s.wsUp, s.jobs, e.act, j);
    }
    hide RunStep, SocketStep, JobsAfter;
  }

  lemma {:induction false} FirstClaim(es: seq<Event>, a: nat, b: nat, j: nat) returns (c: nat)
    requires a < b <= |es| && j in Ready(After(es[..a]).jobs) && j !in Ready(After(es[..b]).jobs)
    ensures a <= c < b && ClaimedAt(es, c, j)
    decreases b - a
  {
    hide After, Step, Ready;
    if j in Ready(After(es[..a + 1]).jobs) {
      c := FirstClaim(es, a + 1, b, j);
    } else {
      c := a;
      AfterOneMore(es, a);
      OnlyClaimsTakeReadyJobs(After(es[..a]), es[a], j);
    }
  }

  /** No wake-up is lost. Take any run, and a job that is ready for claiming when generation g's
      socket loop signals a frame (or its connection). If g is quiet at some later point, then in
      between the job was claimed. The signal stays in the one-slot channel until a drain starts
      after it, and a clean drain ends with nothing ready. */
  lemma WakeUpIsNeverLost(es: seq<Event>, a: nat, b: nat, g: nat, j: nat)
    requires a < b <= |es| && Signals(es, a, g)
    requires j in Ready(After(es[..a]).jobs)
    requires Quiet(After(es[..b]), g)
    ensures exists c :: a <= c < b && ClaimedAt(es, c, j)
  {
    QuietOwesNothing(es[..b], g);
    hide After, Signals, Quiet;
    if c :| a < c <= b && j !in Ready(After(es[..c]).jobs) {
      var claim := FirstClaim(es, a, c, j);
    } else {
      OwedThroughout(es, a, b, g, j);
      assert false;
    }
  }

  /** A clean end of a drain or of a poll: the server had nothing ready at that claim. */
  lemma NothingClaimedMeansNothingReady(s: State, g: nat)
    requires g < |s.gens| && Step(s, Run(g, ClaimNothing)) != s
    ensures AtClaim(s.gens[g].run) && Ready(s.jobs) == {}
    ensures Step(s, Run(g, ClaimNothing)).gens[g].owed == {}
  {
  }

  /** Event number b ends a drain or a poll of generation g cleanly: the claim finds no job. */
  predicate EndsCleanly(es: seq<Event>, b: nat, g: nat)
    requires b < |es|
  {
    es[b] == Run(g, ClaimNothing) && g < |After(es[..b]).gens| && After(es[..b + 1]) != After(es[..b])
  }

  /** Event number b is generation g's claim loop taking the token. */
  predicate TakesToken(es: seq<Event>, b: nat, g: nat)
    requires b < |es|
  {
    var s := After(es[..b]);
    && es[b].Run? && es[b].g == g && es[b].act.TakeWake? && g < |s.gens|
    && RunStep(s.gens[g], Cancelled(s, g), s.wsUp, Ready(s.jobs), es[b].act).Some?
  }

  lemma StepKeepsToken(s: State, e: Event, g: nat)
    requires g < |s.gens| && s.gens[g].wake
    ensures g < |Step(s, e).gens|
    ensures Step(s, e).gens[g].wake ||
            (&& e.Run? && e.g == g && e.act.TakeWake?
             && RunStep(s.gens[g], Cancelled(s, g), s.wsUp, Ready(s.jobs), e.act).Some?)
  {
    if e.Socket? && e.g < |s.gens| { SocketStepFrame(s.gens[e.g], Cancelled(s, e.g), Ready(s.jobs), e.sact); }
    hide SocketStep, JobsAfter, P.Apply;
  }

  lemma SignalSetsToken(es: seq<Event>, a: nat, g: nat)
    requires a < |es| && Signals(es, a, g)
    ensures g < |After(es[..a + 1]).gens| && After(es[..a + 1]).gens[g].wake
  {
    AfterOneMore(es, a);
    SignalStep(After(es[..a]), g);
    hide After, Step, Ready;
  }

  /** From a signal on, the token is in the channel until generation g's claim loop takes it. */
  lemma {:induction false} TokenStaysUntilTaken(es: seq<Event>, a: nat, b: nat, g: nat)
    requires a < b <= |es| && Signals(es, a, g)
    requires forall c :: a < c < b ==> !TakesToken(es, c, g)
    ensures g < |After(es[..b]).gens| && After(es[..b]).gens[g].wake
    decreases b - a
  {
    hide After, Step, Signals;
    if b == a + 1 {
      SignalSetsToken(es, a, g);
    } else {
      TokenStaysUntilTaken(es, a, b - 1, g);
      assert !TakesToken(es, b - 1, g);
      AfterOneMore(es, b - 1);
      StepKeepsToken(After(es[..b - 1]), es[b - 1], g);
    }
  }

  /** A ready job is claimed no later than the next clean end of a drain or poll, whatever frames arrive
      meanwhile. */
  lemma AnnouncedJobIsClaimedByCleanEnd(es: seq<Event>, a: nat, b: nat, g: nat, j: nat)
    requires a <= b < |es| && EndsCleanly(es, b, g)
    requires j in Ready(After(es[..a]).jobs)
    ensures exists c :: a <= c < b && ClaimedAt(es, c, j)
  {
    AfterOneMore(es, b);
    NothingClaimedMeansNothingReady(After(es[..b]), g);
    hide After, Step;
    var c := FirstClaim(es, a, b, j);
  }

  predicate InDrainAt(es: seq<Event>, n: nat, g: nat)
    requires n <= |es|
  {
    g < |After(es[..n]).gens| && InDrain(After(es[..n]).gens[g].run)
  }

  /** Event number n starts, or ends, a drain of generation g. */
  predicate StartsDrain(es: seq<Event>, n: nat, g: nat)
    requires n < |es|
  {
    !InDrainAt(es, n, g) && InDrainAt(es, n + 1, g)
  }

  predicate EndsDrain(es: seq<Event>, n: nat, g: nat)
    requires n < |es|
  {
    InDrainAt(es, n, g) && !InDrainAt(es, n + 1, g)
  }

  /** The three ways out of a drain, and what taking the token starts. */
  lemma DrainSteps(gen: Generation, cancelled: bool, wsUp: bool, ready: set<nat>, act: RunAct)
    ensures var next := RunStep(gen, cancelled, wsUp, ready, act);
            next.Some? ==>
              && (InDrain(gen.run) && !InDrain(next.value.run) ==>
                    act.ClaimNothing? || cancelled || next.value.drainFailed)
              && (act.TakeWake? ==> !InDrain(gen.run) && InDrain(next.value.run))
  {
    hide Doubled;
  }

  lemma TakingStartsDrain(es: seq<Event>, n: nat, g: nat)
    requires n < |es| && TakesToken(es, n, g)
    ensures StartsDrain(es, n, g)
  {
    var s := After(es[..n]);
    AfterOneMore(es, n);
    DrainSteps(s.gens[g], Cancelled(s, g), s.wsUp, Ready(s.jobs), es[n].act);
    hide After, RunStep, JobsAfter, InDrain, Ready;
  }

  lemma HowDrainsEnd(es: seq<Event>, n: nat, g: nat)
    requires n < |es| && EndsDrain(es, n, g) && !Cancelled(After(es[..n]), g)
    ensures g < |After(es[..n + 1]).gens|
    ensures EndsCleanly(es, n, g) || After(es[..n + 1]).gens[g].drainFailed
  {
    var s, e := After(es[..n]), es[n];
    AfterOneMore(es, n);
    if e.Run? { DrainSteps(s.gens[g], Cancelled(s, g), s.wsUp, Ready(s.jobs), e.act); }
    if e.Socket? && e.g == g { SocketStepKeepsRun(s.gens[g], Cancelled(s, g), Ready(s.jobs), e.sact); }
    hide After, RunStep, SocketStep, JobsAfter, InDrain, Ready, P.Apply;
  }

  /** What a frame is for. From the signal to the first drain that starts after it, the token is in the
      channel; and if that drain, or a later one, ends neither by cancellation nor in an error, it ends
      because the server has nothing left, and the announced job was claimed by then. */
  lemma FirstDrainServesAnnouncedJob(es: seq<Event>, a: nat, d: nat, b: nat, g: nat, j: nat)
    requires a < d < b < |es| && Signals(es, a, g) && j in Ready(After(es[..a]).jobs)
    requires StartsDrain(es, d, g) && forall c :: a < c < d ==> !StartsDrain(es, c, g)
    requires EndsDrain(es, b, g) && !Cancelled(After(es[..b]), g)
    ensures forall c :: a < c <= d ==> g < |After(es[..c]).gens| && After(es[..c]).gens[g].wake
    ensures g < |After(es[..b + 1]).gens|
    ensures !After(es[..b + 1]).gens[g].drainFailed ==>
              EndsCleanly(es, b, g) && exists c :: a <= c < b && ClaimedAt(es, c, j)
  {
    HowDrainsEnd(es, b, g);
    hide After, Signals, StartsDrain, EndsDrain, TakesToken, EndsCleanly, ClaimedAt, Ready;
    forall c | a < c < d ensures !TakesToken(es, c, g) {
      if TakesToken(es, c, g) { TakingStartsDrain(es, c, g); }
    }
    forall c | a < c <= d ensures g < |After(es[..c]).gens| && After(es[..c]).gens[g].wake {
      TokenStaysUntilTaken(es, a, c, g);
    }
    if EndsCleanly(es, b, g) { AnnouncedJobIsClaimedByCleanEnd(es, a, b, g, j); }
  }

  /** A woken claim loop drains, the claim fails, and the loop is back waiting, its token spent. */
  lemma ThenDrainFails(es: seq<Event>, s: State, g: nat) returns (es': seq<Event>, s': State)
    requires After(es) == s && g < |s.gens| && !Cancelled(s, g)
    requires s.wsUp && s.gens[g].run.Top? && s.gens[g].wake
    ensures After(es') == s'
    ensures s' == s.(gens := s.gens[g := s.gens[g].(run := Select, wake := false, slept := 0, drainFailed := true)])
  {
    hide After;
    var gen := s.gens[g];
    es', s' := ThenRun(es, s, g, Proceed, gen.(run := LoadFlag));
    es', s' := ThenRun(es', s', g, Proceed, gen.(run := Select));
    gen := gen.(wake := false, drainFailed := false);
    es', s' := ThenRun(es', s', g, TakeWake(0), gen.(run := DrainCheck));
    es', s' := ThenRun(es', s', g, Proceed, gen.(run := DrainClaim));
    gen := gen.(drainFailed := true, slept := 0);
    es', s' := ThenRun(es', s', g, ClaimError, gen);
    es', s' := ThenRun(es', s', g, Proceed, gen.(run := LoadFlag));
    es', s' := ThenRun(es', s', g, Proceed, gen.(run := Select));
    assert s'.gens == s.gens[g := gen.(run := Select)];
  }

  /** "Latest drain ended cleanly" cannot be dropped: after a drain that ended in an error an
      announced job can be left ready, with nothing but the safety-net tick to fetch it. */
  lemma FailedDrainStrandsJob(a: P.Config) returns (es: seq<Event>)
    requires P.Normalize(a).Paired()
    ensures var s := After(es);
            && |s.gens| == 1 && !Cancelled(s, 0) && s.gens[0].run.Select? && s.gens[0].socket.Reading?
            && !s.gens[0].wake && s.gens[0].drainFailed && 0 in s.gens[0].owed && 0 in Ready(s.jobs)
  {
    assert After([]) == START;
    hide After;
    var s := START;
    es, s := ThenPair([], s, a);
    es, s := ThenEnqueue(es, s);
    assert Ready(s.jobs) == {0};
    es, s := ThenConnect(es, s, 0);
    es, s := ThenDrainFails(es, s, 0);
  }

  // ---------------------------------------------------------------- the bound on sleeping is reached

  /** A claim loop that finds the flag up waits for the real-time tick, and comes to a claim. */
  lemma ThenTick(es: seq<Event>, s: State, g: nat) returns (es': seq<Event>, s': State)
    requires After(es) == s && g < |s.gens| && !Cancelled(s, g) && s.wsUp && s.gens[g].run.Top?
    ensures After(es') == s' && |s'.gens| == |s.gens|
    ensures s'.gens[g].run.DrainClaim? && s'.gens[g].slept == s.gens[g].slept + 45
  {
    hide After;
    var gen := s.gens[g];
    es', s' := ThenRun(es, s, g, Proceed, gen.(run := LoadFlag));
    es', s' := ThenRun(es', s', g, Proceed, gen.(run := Select));
    gen := gen.(slept := gen.slept + 45, drainFailed := false);
    es', s' := ThenRun(es', s', g, Tick, gen.(run := DrainCheck));
    es', s' := ThenRun(es', s', g, Proceed, gen.(run := DrainClaim));
  }

  /** One failed poll of a live claim loop. */
  lemma ThenFailedPoll(es: seq<Event>, s: State, g: nat) returns (es': seq<Event>, s': State)
    requires After(es) == s && g < |s.gens| && !Cancelled(s, g) && !s.wsUp && s.gens[g].run.Top?
    ensures After(es') == s'
    ensures s' == s.(gens := s.gens[g := s.gens[g].(slept := s.gens[g].backoff, backoff := Doubled(s.gens[g].backoff),
                                                   failures := s.gens[g].failures + 1)])
  {
    hide After, Doubled;
    var gen := s.gens[g];
    es', s' := ThenRun(es, s, g, Proceed, gen.(run := LoadFlag));
    es', s' := ThenRun(es', s', g, Proceed, gen.(run := PollClaim));
    gen := gen.(slept := 0, failures := gen.failures + 1);
    es', s' := ThenRun(es', s', g, ClaimError, gen.(run := PollFailed));
    es', s' := ThenRun(es', s', g, Proceed, gen.(run := Sleeping));
    gen := gen.(slept := gen.backoff, backoff := Doubled(gen.backoff), run := Top);
    es', s' := ThenRun(es', s', g, Proceed, gen);
    assert s'.gens == s.gens[g := gen];
  }

  /** After k of them in a row. */
  lemma {:induction false} ThenFailedPolls(es: seq<Event>, s: State, g: nat, k: nat)
    returns (es': seq<Event>, s': State)
    requires After(es) == s && g < |s.gens| && !Cancelled(s, g) && !s.wsUp && s.gens[g] == FRESH_GENERATION && k > 0
    ensures After(es') == s'
    ensures s' == s.(gens := s.gens[g := FRESH_GENERATION.(slept := Backoff(k - 1), backoff := Backoff(k),
                                                           failures := k)])
  {
    hide After, Doubled;
    es', s' := es, s;
    if k > 1 { es', s' := ThenFailedPolls(es, s, g, k - 1); }
    assert Backoff(0) == 1 && Backoff(k) == Doubled(Backoff(k - 1));
    es', s' := ThenFailedPoll(es', s', g);
  }

  /** A loop that finds the flag up right after its longest backoff waits 45 seconds more if no frame comes,
      so that 77 seconds between two claims do occur. */
  lemma LongestSleepOccurs(a: P.Config) returns (es: seq<Event>)
    requires P.Normalize(a).Paired()
    ensures var s := After(es); |s.gens| == 1 && AtClaim(s.gens[0].run) && s.gens[0].slept == 77
  {
    assert After([]) == START;
    BackoffIsCappedPowerOfTwo(5);
    assert Pow2(5) == 32 by { SmallPowers(); }
    hide After, Backoff, Pow2, Doubled;
    var s := START;
    es, s := ThenPair([], s, a);
    assert s.gens == [FRESH_GENERATION] && !s.wsUp && !Cancelled(s, 0);
    es, s := ThenFailedPolls(es, s, 0, 6);
    var gen := s.gens[0];
    assert gen.slept == 32 && gen.run.Top? && s.gens == [gen];
    es, s := ThenRaise(es, s, 0);
    assert s.gens[0].slept == 32 && s.gens[0].run.Top? && |s.gens| == 1;
    es, s := ThenTick(es, s, 0);
  }

  // ---------------------------------------------------------------- jobs: conservation, bounds, no double print

  /** What a claim loop can owe a job it holds: a dispatch, an ack, an ack that says "printed". */
  datatype Duty = ToDispatch(job: nat) | ToAck(job: nat) | ToAckPrinted(job: nat)

  predicate Owes(pc: RunPc, d: Duty) {
    match d
    case ToDispatch(j) => pc.Dispatching? && pc.job == j
    case ToAck(j) => pc.Acking? && pc.job == j
    case ToAckPrinted(j) => pc.Acking? && pc.job == j && pc.printed
  }

  ghost function Owing(gens: seq<Generation>, d: Duty): set<nat> {
    set g: nat | g < |gens| && Owes(gens[g].run, d)
  }

  lemma SizeAround(a: set<nat>, g: nat)
    ensures |a| == |a - {g}| + One(g in a)
  {
    assert a == if g in a then (a - {g}) + {g} else a - {g};
  }

  lemma OwingUpdate(gens: seq<Generation>, g: nat, gen: Generation, d: Duty)
    requires g < |gens|
    ensures |Owing(gens[g := gen], d)| + One(Owes(gens[g].run, d)) == |Owing(gens, d)| + One(Owes(gen.run, d))
  {
    hide Owes;
    var before, after := Owing(gens, d), Owing(gens[g := gen], d);
    assert g in before <==> Owes(gens[g].run, d);
    assert g in after <==> Owes(gen.run, d);
    assert before - {g} == after - {g};
    SizeAround(before, g);
    SizeAround(after, g);
    hide Owing, One;
  }

  /** The books of one job balance: every claim was lost on the way back, dispatched, or is in some
      loop's hands; every dispatch was reported once, with its outcome, or is about to be. */
  ghost predicate Balanced(r: JobRecord, gens: seq<Generation>, j: nat) {
    && r.attempts <= MAX_ATTEMPTS
    && r.attempts == r.lostReplies + r.dispatches + |Owing(gens, ToDispatch(j))|
    && r.dispatches == r.acks + |Owing(gens, ToAck(j))|
    && r.prints == r.printedAcks + |Owing(gens, ToAckPrinted(j))|
    && r.prints <= r.dispatches
  }

  predicate InHand(pc: RunPc) { pc.Dispatching? || pc.Acking? }

  ghost predicate JobsInv(s: State) {
    && (forall g: nat :: g < |s.gens| && InHand(s.gens[g].run) ==> s.gens[g].run.job < |s.jobs|)
    && (forall j: nat :: j < |s.jobs| ==> Balanced(s.jobs[j], s.gens, j))
  }

  /** What one claim-loop step does to the claims and dispatches of one job. */
  lemma RunStepOnClaims(gen: Generation, cancelled: bool, wsUp: bool, jobs: seq<JobRecord>, act: RunAct, j: nat)
    requires j < |jobs|
    ensures var next := RunStep(gen, cancelled, wsUp, Ready(jobs), act);
            var jobs' := JobsAfter(jobs, gen.run, act);
            next.Some? ==>
              && |jobs'| == |jobs|
              && (jobs[j].attempts <= MAX_ATTEMPTS ==> jobs'[j].attempts <= MAX_ATTEMPTS)
              && jobs'[j].attempts - jobs'[j].lostReplies - jobs'[j].dispatches + One(Owes(gen.run, ToDispatch(j)))
                 == jobs[j].attempts - jobs[j].lostReplies - jobs[j].dispatches
                    + One(Owes(next.value.run, ToDispatch(j)))
  {
    hide Doubled;
  }

  /** What it does to its acks. */
  lemma RunStepOnAcks(gen: Generation, cancelled: bool, wsUp: bool, jobs: seq<JobRecord>, act: RunAct, j: nat)
    requires j < |jobs|
    ensures var next := RunStep(gen, cancelled, wsUp, Ready(jobs), act);
            var jobs' := JobsAfter(jobs, gen.run, act);
            next.Some? && |jobs'| == |jobs| ==>
              && jobs'[j].dispatches - jobs'[j].acks + One(Owes(gen.run, ToAck(j)))
                 == jobs[j].dispatches - jobs[j].acks + One(Owes(next.value.run, ToAck(j)))
              && jobs'[j].prints - jobs'[j].printedAcks + One(Owes(gen.run, ToAckPrinted(j)))
                 == jobs[j].prints - jobs[j].printedAcks + One(Owes(next.value.run, ToAckPrinted(j)))
              && jobs'[j].prints - jobs[j].prints <= jobs'[j].dispatches - jobs[j].dispatches
  {
    hide Doubled;
  }

  /** A loop gets a job in hand only by claiming it, with nothing in hand. */
  lemma RunStepOnHands(gen: Generation, cancelled: bool, wsUp: bool, jobs: seq<JobRecord>, act: RunAct)
    ensures var next := RunStep(gen, cancelled, wsUp, Ready(jobs), act);
            next.Some? && InHand(next.value.run) ==>
              || (InHand(gen.run) && next.value.run.job == gen.run.job)
              || (&& act.Claim? && next.value.run == Dispatching(act.job, next.value.run.draining)
                  && act.job in Ready(jobs) && !InHand(gen.run))
    ensures var next := RunStep(gen, cancelled, wsUp, Ready(jobs), act);
            next.Some? && (act.Claim? || act.ClaimReplyLost?) ==> act.job in Ready(jobs) && !InHand(gen.run)
  {
  }

  /** What it does to all its books together. */
  lemma RunStepOnJob(gen: Generation, cancelled: bool, wsUp: bool, jobs: seq<JobRecord>, act: RunAct, j: nat)
    requires j < |jobs|
    ensures var next := RunStep(gen, cancelled, wsUp, Ready(jobs), act);
            var jobs' := JobsAfter(jobs, gen.run, act);
            next.Some? ==>
              && |jobs'| == |jobs|
              && (InHand(next.value.run) ==>
                    next.value.run.job < |jobs| || (InHand(gen.run) && next.value.run.job == gen.run.job))
              && (jobs[j].attempts <= MAX_ATTEMPTS ==> jobs'[j].attempts <= MAX_ATTEMPTS)
              && jobs'[j].attempts - jobs'[j].lostReplies - jobs'[j].dispatches + One(Owes(gen.run, ToDispatch(j)))
                 == jobs[j].attempts - jobs[j].lostReplies - jobs[j].dispatches
                    + One(Owes(next.value.run, ToDispatch(j)))
              && jobs'[j].dispatches - jobs'[j].acks + One(Owes(gen.run, ToAck(j)))
                 == jobs[j].dispatches - jobs[j].acks + One(Owes(next.value.run, ToAck(j)))
              && jobs'[j].prints - jobs'[j].printedAcks + One(Owes(gen.run, ToAckPrinted(j)))
                 == jobs[j].prints - jobs[j].printedAcks + One(Owes(next.value.run, ToAckPrinted(j)))
              && jobs'[j].prints - jobs[j].prints <= jobs'[j].dispatches - jobs[j].dispatches
  {
    RunStepOnClaims(gen, cancelled, wsUp, jobs, act, j);
    RunStepOnAcks(gen, cancelled, wsUp, jobs, act, j);
    RunStepOnHands(gen, cancelled, wsUp, jobs, act);
    hide RunStep, JobsAfter, Owes, One;
  }

  lemma RunStepKeepsBalance(s: State, g: nat, act: RunAct, gen: Generation, j: nat)
    requires JobsInv(s) && g < |s.gens| && j < |s.jobs|
    requires RunStep(s.gens[g], Cancelled(s, g), s.wsUp, Ready(s.jobs), act) == Some(gen)
    ensures var jobs' := JobsAfter(s.jobs, s.gens[g].run, act);
            && |jobs'| == |s.jobs| && Balanced(jobs'[j], s.gens[g := gen], j)
            && (InHand(gen.run) ==> gen.run.job < |jobs'|)
  {
    RunStepOnJob(s.gens[g], Cancelled(s, g), s.wsUp, s.jobs, act, j);
    OwingUpdate(s.gens, g, gen, ToDispatch(j));
    OwingUpdate(s.gens, g, gen, ToAck(j));
    OwingUpdate(s.gens, g, gen, ToAckPrinted(j));
    hide RunStep, JobsAfter, Owing, Owes;
    assert Balanced(s.jobs[j], s.gens, j);
  }

  lemma SameHandsSameDuties(gens: seq<Generation>, gens': seq<Generation>, d: Duty)
    requires |gens| <= |gens'|
    requires forall g: nat :: g < |gens| ==> gens'[g].run == gens[g].run
    requires forall g: nat :: |gens| <= g < |gens'| ==> !InHand(gens'[g].run)
    ensures Owing(gens', d) == Owing(gens, d)
  {
  }

  lemma RunKeepsJobsInv(s: State, g: nat, act: RunAct)
    requires JobsInv(s)
    ensures JobsInv(Step(s, Run(g, act)))
  {
    var s' := Step(s, Run(g, act));
    if g < |s.gens| {
      var r := RunStep(s.gens[g], Cancelled(s, g), s.wsUp, Ready(s.jobs), act);
      if r.Some? {
        hide RunStep, Owing, Balanced;
        if s.jobs != [] { RunStepKeepsBalance(s, g, act, r.value, 0); }
        forall j: nat | j < |s.jobs| ensures j < |s'.jobs| && Balanced(s'.jobs[j], s'.gens, j) {
          RunStepKeepsBalance(s, g, act, r.value, j);
        }
      }
    }
  }

  lemma OtherKeepsJobsInv(s: State, e: Event)
    requires JobsInv(s) && !e.Run?
    ensures JobsInv(Step(s, e))
  {
    var s' := Step(s, e);
    if e.Socket? && e.g < |s.gens| { SocketStepKeepsRun(s.gens[e.g], Cancelled(s, e.g), Ready(s.jobs), e.sact); }
    hide SocketStep, RunStep;
    assert forall g: nat :: g < |s.gens| ==> s'.gens[g].run == s.gens[g].run;
    forall j: nat | j < |s'.jobs| ensures Balanced(s'.jobs[j], s'.gens, j) {
      SameHandsSameDuties(s.gens, s'.gens, ToDispatch(j));
      SameHandsSameDuties(s.gens, s'.gens, ToAck(j));
      SameHandsSameDuties(s.gens, s'.gens, ToAckPrinted(j));
      if j == |s.jobs| {
        assert Owing(s.gens, ToDispatch(j)) == {};
        assert Owing(s.gens, ToAck(j)) == {} && Owing(s.gens, ToAckPrinted(j)) == {};
      } else {
        assert Balanced(s.jobs[j], s.gens, j);
      }
    }
  }

  lemma StepKeepsJobsInv(s: State, e: Event)
    requires JobsInv(s)
    ensures JobsInv(Step(s, e))
  {
    hide JobsInv, Step;
    if e.Run? { RunKeepsJobsInv(s, e.g, e.act); } else { OtherKeepsJobsInv(s, e); }
  }

  /** In every run, lease expiries, lost replies, lost acks and re-pairings included: each claim the
      agent receives is dispatched once and each dispatch is followed by one ack attempt carrying
      its outcome, and no job goes to a printer more than three times. */
  lemma {:induction false} EveryReceiptIsDispatchedAndAcked(es: seq<Event>)
    ensures JobsInv(After(es))
    ensures forall j: nat :: j < |After(es).jobs| ==>
      var r := After(es).jobs[j]; r.prints <= r.dispatches <= 3 && r.attempts <= 3
    ensures (forall g: nat :: g < |After(es).gens| ==> !InHand(After(es).gens[g].run)) ==>
      forall j: nat :: j < |After(es).jobs| ==>
        var r := After(es).jobs[j];
        r.attempts == r.lostReplies + r.dispatches && r.dispatches == r.acks && r.prints == r.printedAcks
  {
    if es != [] {
      EveryReceiptIsDispatchedAndAcked(es[..|es| - 1]);
      StepKeepsJobsInv(After(es[..|es| - 1]), es[|es| - 1]);
    }
    var s := After(es);
    if forall g: nat :: g < |s.gens| ==> !InHand(s.gens[g].run) {
      forall j: nat | j < |s.jobs|
        ensures Owing(s.gens, ToDispatch(j)) == {}
        ensures Owing(s.gens, ToAck(j)) == {} && Owing(s.gens, ToAckPrinted(j)) == {}
      {}
    }
  }

  function PrintsExpected(pc: RunPc): nat { if pc.Acking? && pc.printed then 1 else 0 }

  predicate Holds(pc: RunPc, j: nat) { InHand(pc) && pc.job == j }

  /** While no lease of job j has run out: if it is in a loop's hands it is claimed, in no other loop's
      hands, and was printed before only by that loop; if it can be claimed it was never printed. */
  ghost predicate SoleOf(s: State, j: nat) {
    && (forall g: nat :: g < |s.gens| && Holds(s.gens[g].run, j) ==>
          j < |s.jobs| && s.jobs[j].status == Claimed && s.jobs[j].prints == PrintsExpected(s.gens[g].run))
    && (forall g: nat, h: nat :: g < h < |s.gens| && Holds(s.gens[g].run, j) ==> !Holds(s.gens[h].run, j))
    && (j < |s.jobs| ==>
          && s.jobs[j].prints <= 1
          && (s.jobs[j].status == Queued || s.jobs[j].status == Failed ==> s.jobs[j].prints == 0))
  }

  lemma RunKeepsSoleOf(s: State, g: nat, act: RunAct, j: nat)
    requires SoleOf(s, j)
    ensures SoleOf(Step(s, Run(g, act)), j)
  {
    if g < |s.gens| {
      RunStepOnHands(s.gens[g], Cancelled(s, g), s.wsUp, s.jobs, act);
      hide RunStep;
    }
  }

  lemma OtherKeepsSoleOf(s: State, e: Event, j: nat)
    requires SoleOf(s, j) && !e.Run?
    requires e == ExpireLease(j) && j < |s.jobs| ==> s.jobs[j].status != Claimed
    ensures SoleOf(Step(s, e), j)
  {
    var s' := Step(s, e);
    if e.Socket? && e.g < |s.gens| { SocketStepKeepsRun(s.gens[e.g], Cancelled(s, e.g), Ready(s.jobs), e.sact); }
    hide SocketStep, RunStep;
    assert forall g: nat :: g < |s.gens| ==> s'.gens[g].run == s.gens[g].run;
  }

  /** Event number i lets the lease of job j run out, which is then claimed. */
  predicate Lapses(es: seq<Event>, i: nat, j: nat)
    requires i < |es|
  {
    var s := After(es[..i]);
    es[i] == ExpireLease(j) && j < |s.jobs| && s.jobs[j].status == Claimed
  }

  lemma {:induction false} SoleUntilLapse(es: seq<Event>, n: nat, j: nat)
    requires n <= |es| && forall i :: 0 <= i < n ==> !Lapses(es, i, j)
    ensures SoleOf(After(es[..n]), j)
  {
    if n > 0 {
      SoleUntilLapse(es, n - 1, j);
      AfterOneMore(es, n - 1);
      assert !Lapses(es, n - 1, j);
      var s, e := After(es[..n - 1]), es[n - 1];
      hide After, SoleOf, Step;
      if e.Run? { RunKeepsSoleOf(s, e.g, e.act, j); } else { OtherKeepsSoleOf(s, e, j); }
    }
  }

  /** In every run: as long as no lease of a job has run out, that job is not printed twice, by any number
      of generations, whatever replies and acks are lost, and whatever becomes of other jobs. */
  lemma NoDoublePrintWithoutLapse(es: seq<Event>, j: nat)
    requires forall i :: 0 <= i < |es| ==> !Lapses(es, i, j)
    ensures j < |After(es).jobs| ==> After(es).jobs[j].prints <= 1
  {
    SoleUntilLapse(es, |es|, j);
    assert es[..|es|] == es;
  }

  // ---------------------------------------------------------------- what becomes of a job

  /** A job has failed only for good, at its third attempt and by an ack that said so; it counts as printed
      only by an ack that said printed. */
  predicate Earned(r: JobRecord) {
    && r.attempts <= 3 && r.printedAcks <= r.acks
    && (r.status == Failed ==> r.attempts == 3 && r.printedAcks < r.acks)
    && (r.status == Printed ==> 0 < r.printedAcks)
  }

  lemma RunStepKeepsEarned(gen: Generation, cancelled: bool, wsUp: bool, jobs: seq<JobRecord>, act: RunAct, j: nat)
    requires j < |jobs| && Earned(jobs[j])
    ensures RunStep(gen, cancelled, wsUp, Ready(jobs), act).Some? ==>
              |JobsAfter(jobs, gen.run, act)| == |jobs| && Earned(JobsAfter(jobs, gen.run, act)[j])
  {
    hide Doubled;
  }

  lemma StepKeepsEarned(s: State, e: Event)
    requires forall j :: 0 <= j < |s.jobs| ==> Earned(s.jobs[j])
    ensures forall j :: 0 <= j < |Step(s, e).jobs| ==> Earned(Step(s, e).jobs[j])
  {
    if e.Run? && e.g < |s.gens| {
      forall j: nat | j < |s.jobs| {
        RunStepKeepsEarned(s.gens[e.g], Cancelled(s, e.g), s.wsUp, s.jobs, e.act, j);
      }
    }
    hide RunStep, SocketStep, JobsAfter, P.Apply;
  }

  /** In every run. */
  lemma {:induction false} OutcomesAreEarned(es: seq<Event>)
    ensures forall j :: 0 <= j < |After(es).jobs| ==> Earned(After(es).jobs[j])
  {
    if es != [] {
      OutcomesAreEarned(es[..|es| - 1]);
      StepKeepsEarned(After(es[..|es| - 1]), es[|es| - 1]);
      hide Step, Earned;
    }
  }

  /** What an ack that arrives does to the jobs: one that said printed settles the job; one that said failed
      puts it back into the queue if it was attempted less than three times, and settles it otherwise.
      An ack for a job that is not claimed any more changes nothing, and none touches another job. */
  predicate AckSettles(jobs: seq<JobRecord>, jobs': seq<JobRecord>, j: nat, printed: bool) {
    && j < |jobs| == |jobs'|
    && (jobs[j].status != Claimed ==> jobs'[j].status == jobs[j].status)
    && (jobs[j].status == Claimed ==>
          if printed then jobs'[j].status == Printed
          else if jobs[j].attempts < 3 then jobs'[j].status == Queued && j in Ready(jobs')
          else jobs'[j].status == Failed && j !in Ready(jobs'))
    && jobs'[j].attempts == jobs[j].attempts && jobs'[j].acks == jobs[j].acks + 1
    && forall i :: 0 <= i < |jobs| && i != j ==> jobs'[i] == jobs[i]
  }

  lemma AckStep(gen: Generation, cancelled: bool, wsUp: bool, jobs: seq<JobRecord>)
    requires gen.run.Acking? && gen.run.job < |jobs|
    ensures RunStep(gen, cancelled, wsUp, Ready(jobs), AckDelivered).Some?
    ensures AckSettles(jobs, JobsAfter(jobs, gen.run, AckDelivered), gen.run.job, gen.run.printed)
  {
  }

  /** In every run, whatever the other loops do: an ack that arrives has that effect; and one that is lost
      leaves every job's status as it was. */
  lemma DeliveredAckSettlesItsJob(es: seq<Event>, n: nat, g: nat)
    requires n < |es| && g < |After(es[..n]).gens| && After(es[..n]).gens[g].run.Acking?
    ensures var s, s' := After(es[..n]), After(es[..n + 1]);
            var pc := s.gens[g].run;
            && (es[n] == Run(g, AckDelivered) ==> AckSettles(s.jobs, s'.jobs, pc.job, pc.printed))
            && (es[n] == Run(g, AckDropped) ==>
                  |s'.jobs| == |s.jobs| && forall j :: 0 <= j < |s.jobs| ==> s'.jobs[j].status == s.jobs[j].status)
  {
    var s := After(es[..n]);
    EveryReceiptIsDispatchedAndAcked(es[..n]);
    AfterOneMore(es, n);
    AckStep(s.gens[g], Cancelled(s, g), s.wsUp, s.jobs);
    hide After, Ready, AckSettles, Balanced;
  }

  /** A settled job stays settled, whatever happens. */
  lemma SettledJobsStaySettled(s: State, e: Event, j: nat)
    requires j < |s.jobs| && s.jobs[j].status in {Printed, Failed}
    ensures j < |Step(s, e).jobs| && Step(s, e).jobs[j].status == s.jobs[j].status
  {
    hide SocketStep, Doubled, P.Apply;
  }

  // ---------------------------------------------------------------- how often a job can still be printed

  /** The claims that a job can still take. */
  function ClaimsLeft(r: JobRecord): nat {
    if (r.status == Queued || r.status == Claimed) && r.attempts < MAX_ATTEMPTS then MAX_ATTEMPTS - r.attempts else 0
  }

  /** Its prints so far, the loops that are about to send it to a printer, and the claims left. */
  ghost function Potential(s: State, j: nat): nat
    requires j < |s.jobs|
  {
    s.jobs[j].prints + |Owing(s.gens, ToDispatch(j))| + ClaimsLeft(s.jobs[j])
  }

  lemma RunStepOnPotential(gen: Generation, cancelled: bool, wsUp: bool, jobs: seq<JobRecord>, act: RunAct, j: nat)
    requires j < |jobs|
    ensures var next := RunStep(gen, cancelled, wsUp, Ready(jobs), act);
            var jobs' := JobsAfter(jobs, gen.run, act);
            next.Some? ==>
              && |jobs'| == |jobs|
              && jobs'[j].prints + ClaimsLeft(jobs'[j]) + One(Owes(next.value.run, ToDispatch(j)))
                 <= jobs[j].prints + ClaimsLeft(jobs[j]) + One(Owes(gen.run, ToDispatch(j)))
  {
    hide Doubled;
  }

  /** No event raises it. */
  lemma StepKeepsPotential(s: State, e: Event, j: nat)
    requires j < |s.jobs|
    ensures j < |Step(s, e).jobs| && Potential(Step(s, e), j) <= Potential(s, j)
  {
    var s' := Step(s, e);
    if e.Run? {
      if e.g < |s.gens| {
        var r := RunStep(s.gens[e.g], Cancelled(s, e.g), s.wsUp, Ready(s.jobs), e.act);
        RunStepOnPotential(s.gens[e.g], Cancelled(s, e.g), s.wsUp, s.jobs, e.act, j);
        if r.Some? { OwingUpdate(s.gens, e.g, r.value, ToDispatch(j)); }
        hide RunStep, JobsAfter, Owing, Owes, ClaimsLeft;
      }
    } else {
      if e.Socket? && e.g < |s.gens| { SocketStepKeepsRun(s.gens[e.g], Cancelled(s, e.g), Ready(s.jobs), e.sact); }
      hide SocketStep, RunStep;
      assert forall g: nat :: g < |s.gens| ==> s'.gens[g].run == s.gens[g].run;
      SameHandsSameDuties(s.gens, s'.gens, ToDispatch(j));
    }
  }

  lemma {:induction false} PotentialOnlyFalls(es: seq<Event>, es': seq<Event>, j: nat)
    requires es <= es' && j < |After(es).jobs|
    ensures j < |After(es').jobs| && Potential(After(es'), j) <= Potential(After(es), j)
    decreases |es'|
  {
    if |es| < |es'| {
      PotentialOnlyFalls(es, es'[..|es'| - 1], j);
      StepKeepsPotential(After(es'[..|es'| - 1]), es'[|es'| - 1], j);
      hide Step, Potential;
    } else {
      assert es' == es;
    }
  }

  lemma AppendKeepsOwing(gens: seq<Generation>, gen: Generation, d: Duty)
    requires !Owes(gen.run, d)
    ensures Owing(gens + [gen], d) == Owing(gens, d)
  {
  }

  /** A new pairing's claim loop comes to a claim, by whichever way the flag sends it. */
  lemma ThenFreshLoopAtClaim(es: seq<Event>, s: State) returns (es': seq<Event>, s': State, gen: Generation)
    requires After(es) == s
    ensures es <= es' && After(es') == s' && s'.jobs == s.jobs && s'.gens == s.gens + [gen] && AtClaim(gen.run)
  {
    hide After;
    P.TrimUnclean();
    var g := |s.gens|;
    gen := FRESH_GENERATION;
    es', s' := ThenPair(es, s, P.Config("u /", "k"));
    gen := gen.(run := LoadFlag);
    es', s' := ThenRun(es', s', g, Proceed, gen);
    if s.wsUp {
      es', s' := ThenRun(es', s', g, Proceed, gen.(run := Select));
      gen := gen.(slept := SAFETY_NET);
      es', s' := ThenRun(es', s', g, Tick, gen.(run := DrainCheck));
      gen := gen.(run := DrainClaim);
    } else {
      gen := gen.(run := PollClaim);
    }
    es', s' := ThenRun(es', s', g, Proceed, gen);
    assert s'.gens == s.gens + [gen];
  }

  function PrintedAgain(r: JobRecord): JobRecord {
    r.(status := Claimed, attempts := r.attempts + 1, dispatches := r.dispatches + 1, prints := r.prints + 1)
  }

  /** What claiming and printing do to a loop at a claim, and to the job. */
  lemma ClaimAndPrintSteps(gen: Generation, cancelled: bool, wsUp: bool, jobs: seq<JobRecord>, j: nat)
    returns (claimed: Generation, acking: Generation)
    requires AtClaim(gen.run) && j in Ready(jobs)
    ensures RunStep(gen, cancelled, wsUp, Ready(jobs), Claim(j)) == Some(claimed)
    ensures var jobs' := JobsAfter(jobs, gen.run, Claim(j));
            && RunStep(claimed, cancelled, wsUp, Ready(jobs'), Print(true)) == Some(acking) && acking.run.Acking?
            && JobsAfter(jobs', claimed.run, Print(true)) == jobs[j := PrintedAgain(jobs[j])]
  {
    var jobs' := JobsAfter(jobs, gen.run, Claim(j));
    claimed := RunStep(gen, cancelled, wsUp, Ready(jobs), Claim(j)).value;
    assert claimed.run == Dispatching(j, gen.run.DrainClaim?);
    acking := claimed.(run := Acking(j, true, gen.run.DrainClaim?));
  }

  /** A loop at a claim claims job j, which is ready, and prints it. */
  lemma ThenClaimAndPrint(es: seq<Event>, s: State, g: nat, j: nat)
    returns (es': seq<Event>, s': State, acking: Generation)
    requires After(es) == s && g < |s.gens| && AtClaim(s.gens[g].run) && j < |s.jobs| && j in Ready(s.jobs)
    ensures es <= es' && After(es') == s' && s'.gens == s.gens[g := acking] && acking.run.Acking?
    ensures s'.jobs == s.jobs[j := PrintedAgain(s.jobs[j])]
  {
    var gen := s.gens[g];
    var claimed;
    claimed, acking := ClaimAndPrintSteps(gen, Cancelled(s, g), s.wsUp, s.jobs, j);
    hide After, RunStep, JobsAfter, Ready, AtClaim, PrintedAgain;
    es', s' := ThenRun(es, s, g, Claim(j), claimed);
    assert s'.gens[g] == claimed && s'.gens[g := acking] == s.gens[g := acking];
    es', s' := ThenRun(es', s', g, Print(true), acking);
  }

  lemma ThenExpire(es: seq<Event>, s: State, j: nat) returns (es': seq<Event>, s': State)
    requires After(es) == s && j < |s.jobs| && s.jobs[j].status == Claimed
    ensures es <= es' && After(es') == s' == s.(jobs := s.jobs[j := s.jobs[j].(status := Queued)])
  {
    es' := es + [ExpireLease(j)];
    assert es'[..|es'| - 1] == es;
    s' := Step(s, ExpireLease(j));
  }

  /** While claims are left and no loop is about to print the job, a new loop prints it. */
  lemma ThenNewLoopPrints(es: seq<Event>, s: State, j: nat) returns (es': seq<Event>, s': State)
    requires After(es) == s && j < |s.jobs| && ClaimsLeft(s.jobs[j]) > 0
    ensures es <= es' && After(es') == s' && |s'.jobs| == |s.jobs|
    ensures s'.jobs[j].prints == s.jobs[j].prints + 1 && ClaimsLeft(s'.jobs[j]) == ClaimsLeft(s.jobs[j]) - 1
    ensures Owing(s'.gens, ToDispatch(j)) == Owing(s.gens, ToDispatch(j))
  {
    hide After;
    es', s' := es, s;
    if s.jobs[j].status == Claimed { es', s' := ThenExpire(es, s, j); }
    assert j in Ready(s'.jobs);
    var gen;
    es', s', gen := ThenFreshLoopAtClaim(es', s');
    var g := |s.gens|;
    assert s'.gens[g] == gen;
    es', s', gen := ThenClaimAndPrint(es', s', g, j);
    assert s'.gens == s.gens + [gen];
    AppendKeepsOwing(s.gens, gen, ToDispatch(j));
  }

  /** While some are left, a continuation prints the job once more and wastes none. */
  lemma ThenPrintOnceMore(es: seq<Event>, j: nat) returns (es': seq<Event>)
    requires j < |After(es).jobs| && After(es).jobs[j].prints < Potential(After(es), j)
    ensures es <= es' && j < |After(es').jobs|
    ensures After(es').jobs[j].prints == After(es).jobs[j].prints + 1
    ensures Potential(After(es'), j) == Potential(After(es), j)
  {
    hide After;
    var s, s' := After(es), After(es);
    if g: nat :| g < |s.gens| && Owes(s.gens[g].run, ToDispatch(j)) {
      var gen := s.gens[g].(run := Acking(j, true, s.gens[g].run.draining));
      OwingUpdate(s.gens, g, gen, ToDispatch(j));
      hide Owing;
      es', s' := ThenRun(es, s, g, Print(true), gen);
    } else {
      assert Owing(s.gens, ToDispatch(j)) == {};
      hide Owing, ClaimsLeft;
      es', s' := ThenNewLoopPrints(es, s, j);
    }
  }

  lemma {:induction false} ThenPrintUpTo(es: seq<Event>, j: nat, n: nat) returns (es': seq<Event>)
    requires j < |After(es).jobs| && n <= Potential(After(es), j)
    ensures es <= es' && j < |After(es').jobs| && After(es').jobs[j].prints >= n
    decreases n - After(es).jobs[j].prints
  {
    hide After, Potential;
    if After(es).jobs[j].prints >= n {
      es' := es;
    } else {
      es' := ThenPrintOnceMore(es, j);
      es' := ThenPrintUpTo(es', j, n);
    }
  }

  /** Exactly how often: from any point of any run, there is a continuation that has the job printed n
      times in all if and only if n is no more than that. */
  lemma PotentialIsExact(es: seq<Event>, j: nat, n: nat)
    requires j < |After(es).jobs|
    ensures (exists es' :: es <= es' && j < |After(es').jobs| && After(es').jobs[j].prints >= n) <==>
            n <= Potential(After(es), j)
  {
    if es' :| es <= es' && j < |After(es').jobs| && After(es').jobs[j].prints >= n {
      PotentialOnlyFalls(es, es', j);
    }
    if n <= Potential(After(es), j) {
      var es' := ThenPrintUpTo(es, j, n);
    }
  }

  /** A job just queued can be printed three times in all, and no more. */
  lemma NewJobPrintsThriceAtMost(es: seq<Event>, n: nat)
    ensures var es1, j := es + [Enqueue], |After(es).jobs|;
            j < |After(es1).jobs| &&
            ((exists es' :: es1 <= es' && j < |After(es').jobs| && After(es').jobs[j].prints >= n) <==> n <= 3)
  {
    var es1, s, j := es + [Enqueue], After(es), |After(es).jobs|;
    assert es1[..|es1| - 1] == es;
    EveryReceiptIsDispatchedAndAcked(es);
    var s1 := After(es1);
    assert s1.jobs == s.jobs + [NEW_JOB] && s1.gens == s.gens && s1.jobs[j] == NEW_JOB;
    assert forall g: nat :: g < |s1.gens| && InHand(s1.gens[g].run) ==> s1.gens[g].run.job < j;
    assert Owing(s1.gens, ToDispatch(j)) == {};
    hide After, Owing, JobsInv;
    PotentialIsExact(es1, j, n);
  }

  /** One polled claim whose job prints and whose ack never arrives. */
  lemma ThenPrintUnacked(es: seq<Event>, s: State, g: nat, j: nat) returns (es': seq<Event>, s': State)
    requires After(es) == s && g < |s.gens| && !Cancelled(s, g)
    requires !s.wsUp && s.gens[g].run.Top? && j in Ready(s.jobs)
    ensures After(es') == s' && s'.pairing == s.pairing && s'.wsUp == s.wsUp
    ensures |s'.gens| == |s.gens| && s'.gens[g].run.Top? && |s'.jobs| == |s.jobs|
    ensures s'.jobs[j].status == Claimed && s'.jobs[j].attempts == s.jobs[j].attempts + 1
    ensures s'.jobs[j].prints == s.jobs[j].prints + 1
  {
    hide After;
    var gen := s.gens[g];
    es', s' := ThenRun(es, s, g, Proceed, gen.(run := LoadFlag));
    es', s' := ThenRun(es', s', g, Proceed, gen.(run := PollClaim));
    gen := gen.(slept := 0, owed := gen.owed - {j}, backoff := 1, failures := 0);
    es', s' := ThenRun(es', s', g, Claim(j), gen.(run := Dispatching(j, false)));
    es', s' := ThenRun(es', s', g, Print(true), gen.(run := Acking(j, true, false)));
    es', s' := ThenRun(es', s', g, AckDropped, gen.(run := Top));
  }

  /** Lease expiry is the exception: an ack that is lost lets the lease run out and the job, already
      printed, is handed out again. */
  lemma LeaseExpiryCanPrintTwice(a: P.Config) returns (es: seq<Event>)
    requires P.Normalize(a).Paired()
    ensures var s := After(es); |s.jobs| == 1 && s.jobs[0].prints == 2
  {
    assert After([]) == START;
    hide After;
    var s := START;
    es, s := ThenPair([], s, a);
    es, s := ThenEnqueue(es, s);
    assert s.jobs == [NEW_JOB] && 0 in Ready(s.jobs);
    es, s := ThenPrintUnacked(es, s, 0, 0);
    es, s := ThenExpire(es, s, 0);
    assert Claimable(s.jobs[0]) && 0 in Ready(s.jobs);
    es, s := ThenPrintUnacked(es, s, 0, 0);
  }
}
