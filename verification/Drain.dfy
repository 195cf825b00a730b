/** Draining the queue after a wake-up, one claimed job at a time, and what is sent to which printer
    (cmd/print-agent/spooler.go). The concurrent protocol around it is in SpoolProtocol. */
module Drain {
  import opened Prelude

  type Byte = b: int | 0 <= b < 256

  /** A queued job; `created` is its place in the order of creation. */
  datatype Job = Job(
    id: nat, created: nat, payloadHex: string, printerIP: string, printerPort: int, printerName: string)

  // ---------------------------------------------------------------- dispatch

  datatype Route =
    | Network(ip: string, port: int, payload: seq<Byte>)
    | LocalPrinter(name: string, payload: seq<Byte>)
    | BadHex | EmptyPayload | NoTarget

  function HexDigit(n: int): char
    requires 0 <= n < 16
  {
    "0123456789abcdef"[n]
  }

  function HexValue(c: char): Option<int> {
    if '0' <= c <= '9' then Some(c as int - '0' as int)
    else if 'a' <= c <= 'f' then Some(c as int - 'a' as int + 10)
    else if 'A' <= c <= 'F' then Some(c as int - 'A' as int + 10)
    else None
  }

  function EncodeHex(bytes: seq<Byte>): string {
    if bytes == [] then "" else [HexDigit(bytes[0] / 16), HexDigit(bytes[0] % 16)] + EncodeHex(bytes[1..])
  }

  function DecodeHex(s: string): Option<seq<Byte>> {
    if s == "" then Some([])
    else if |s| < 2 then None
    else
      match (HexValue(s[0]), HexValue(s[1]), DecodeHex(s[2..]))
      case (Some(hi), Some(lo), Some(rest)) => if 0 <= 16 * hi + lo < 256 then Some([16 * hi + lo] + rest) else None
      case _ => None
  }

  function WithoutSpaces(s: string): string {
    if s == "" then "" else (if s[0] == ' ' then "" else [s[0]]) + WithoutSpaces(s[1..])
  }

  function Port(port: int): int { if port <= 0 || port > 65535 then 9100 else port }

  function RouteOf(job: Job): Route {
    match DecodeHex(WithoutSpaces(job.payloadHex))
    case None => BadHex
    case Some(payload) =>
      if payload == [] then EmptyPayload
      else if job.printerIP != "" then Network(job.printerIP, Port(job.printerPort), payload)
      else if job.printerName != "" then LocalPrinter(job.printerName, payload)
      else NoTarget
  }

  /** A printer profile, and the job the server queues for it; it refuses an unprintable target. */
  datatype Profile = Profile(ip: string, port: int, name: string)

  predicate Printable(p: Profile) { p.ip != "" || (p.name != "" && p.name != "browser") }

  function Enqueue(id: nat, created: nat, p: Profile, payload: seq<Byte>): Option<Job> {
    if Printable(p) then Some(Job(id, created, EncodeHex(payload), p.ip, Port(p.port), p.name)) else None
  }

  lemma HexDigitRoundTrip(n: int)
    requires 0 <= n < 16
    ensures HexValue(HexDigit(n)) == Some(n) && HexDigit(n) != ' '
  {
  }

  lemma {:induction false} HexDecodes(bytes: seq<Byte>)
    ensures DecodeHex(EncodeHex(bytes)) == Some(bytes)
  {
    if bytes != [] {
      var hi, lo := bytes[0] / 16, bytes[0] % 16;
      HexDigitRoundTrip(hi);
      HexDigitRoundTrip(lo);
      HexDecodes(bytes[1..]);
      hide HexDigit, HexValue;
      var s, rest := EncodeHex(bytes), EncodeHex(bytes[1..]);
      assert s == [HexDigit(hi), HexDigit(lo)] + rest;
      assert s[2..] == rest;
      assert 16 * hi + lo == bytes[0];
      assert [bytes[0]] + bytes[1..] == bytes;
    }
  }

  lemma NoSpaceInFront(c: char, s: string)
    requires c != ' ' && WithoutSpaces(s) == s
    ensures WithoutSpaces([c] + s) == [c] + s
  {
    assert ([c] + s)[1..] == s;
  }

  lemma {:induction false} HexHasNoSpaces(bytes: seq<Byte>)
    ensures WithoutSpaces(EncodeHex(bytes)) == EncodeHex(bytes)
  {
    if bytes != [] {
      HexDigitRoundTrip(bytes[0] / 16);
      HexDigitRoundTrip(bytes[0] % 16);
      HexHasNoSpaces(bytes[1..]);
      hide HexDigit, HexValue;
      var hi, lo, rest := HexDigit(bytes[0] / 16), HexDigit(bytes[0] % 16), EncodeHex(bytes[1..]);
      NoSpaceInFront(lo, rest);
      NoSpaceInFront(hi, [lo] + rest);
      assert EncodeHex(bytes) == [hi] + ([lo] + rest);
    }
  }

  lemma HexRoundTrip(bytes: seq<Byte>)
    ensures DecodeHex(WithoutSpaces(EncodeHex(bytes))) == Some(bytes)
  {
    HexHasNoSpaces(bytes);
    HexDecodes(bytes);
  }

  predicate IsHexDigit(c: char) { '0' <= c <= '9' || 'a' <= c <= 'f' || 'A' <= c <= 'F' }

  lemma HexValueFacts(c: char)
    ensures HexValue(c).Some? <==> IsHexDigit(c)
    ensures HexValue(c).Some? ==> 0 <= HexValue(c).value < 16
  {
  }

  lemma DecodesFirstTwo(s: string)
    requires |s| >= 2
    ensures DecodeHex(s).Some? <==> IsHexDigit(s[0]) && IsHexDigit(s[1]) && DecodeHex(s[2..]).Some?
  {
    HexValueFacts(s[0]);
    HexValueFacts(s[1]);
    hide HexValue, IsHexDigit;
  }

  predicate AllHexDigits(s: string) { forall i :: 0 <= i < |s| ==> IsHexDigit(s[i]) }

  lemma FirstTwoDigits(s: string)
    requires |s| >= 2
    ensures AllHexDigits(s) <==> IsHexDigit(s[0]) && IsHexDigit(s[1]) && AllHexDigits(s[2..])
  {
    hide IsHexDigit;
    var rest := s[2..];
    assert forall i :: 0 <= i < |rest| ==> rest[i] == s[i + 2];
    assert forall i :: 2 <= i < |s| ==> s[i] == rest[i - 2];
  }

  /** What decodes: an even number of hex digits of either case, and nothing else. */
  lemma {:induction false} WhatDecodes(s: string)
    ensures DecodeHex(s).Some? <==> |s| % 2 == 0 && AllHexDigits(s)
  {
    if |s| < 2 {
      assert DecodeHex(s).Some? <==> s == "";
      hide DecodeHex, IsHexDigit;
    } else {
      hide DecodeHex, IsHexDigit, AllHexDigits;
      WhatDecodes(s[2..]);
      DecodesFirstTwo(s);
      FirstTwoDigits(s);
      assert |s[2..]| + 2 == |s|;
    }
  }

  /** What is sent for a byte: its high digit and its low one, in lower case. */
  lemma {:induction false} EncodedByteByByte(bytes: seq<Byte>, i: nat)
    requires i < |bytes|
    ensures var s, digits := EncodeHex(bytes), "0123456789abcdef";
            |s| == 2 * |bytes| && s[2 * i] == digits[bytes[i] / 16] && s[2 * i + 1] == digits[bytes[i] % 16]
  {
    if i > 0 {
      EncodedByteByByte(bytes[1..], i - 1);
    } else if |bytes| > 1 {
      EncodedByteByByte(bytes[1..], 0);
    }
  }

  /** Upper case reads as lower case does. */
  lemma {:induction false} CaseDoesNotMatter(s: string, t: string)
    requires |s| == |t|
    requires forall i :: 0 <= i < |s| ==> s[i] == t[i] || ('a' <= s[i] <= 'f' && t[i] as int == s[i] as int - 32)
    ensures DecodeHex(s) == DecodeHex(t)
  {
    if |s| >= 2 {
      assert HexValue(s[0]) == HexValue(t[0]) && HexValue(s[1]) == HexValue(t[1]);
      CaseDoesNotMatter(s[2..], t[2..]);
      hide HexValue;
    }
  }

  lemma {:induction false} SpacesAreSkipped(a: string, b: string)
    ensures WithoutSpaces(a + " " + b) == WithoutSpaces(a + b)
  {
    if a == "" {
      assert a + b == b && a + " " + b == " " + b && (" " + b)[1..] == b;
    } else {
      assert (a + b)[0] == a[0] && (a + b)[1..] == a[1..] + b;
      assert (a + " " + b)[0] == a[0] && (a + " " + b)[1..] == a[1..] + " " + b;
      SpacesAreSkipped(a[1..], b);
    }
  }

  /** Where a job goes: to its address if it has one, else to its local printer; on its own port if that is
      one, else on 9100. */
  lemma JobGoesToItsTarget(job: Job, payload: seq<Byte>)
    requires DecodeHex(WithoutSpaces(job.payloadHex)) == Some(payload)
    ensures RouteOf(job) == if payload == [] then EmptyPayload
                            else if job.printerIP != "" && 0 < job.printerPort <= 65535
                            then Network(job.printerIP, job.printerPort, payload)
                            else if job.printerIP != "" then Network(job.printerIP, 9100, payload)
                            else if job.printerName != "" then LocalPrinter(job.printerName, payload)
                            else NoTarget
  {
  }

  /** The server refuses a profile exactly if it names neither an address nor a local printer, for which
      "browser" does not count. Every job it accepts can be dispatched exactly when its payload is not
      empty, and then the agent sends the very bytes that were queued to the printer the profile names,
      on the profile's port if that is a legal one, else on 9100. */
  lemma QueuedJobReachesItsPrinter(id: nat, created: nat, p: Profile, payload: seq<Byte>)
    ensures Enqueue(id, created, p, payload) == None <==> p.ip == "" && (p.name == "" || p.name == "browser")
    ensures var job := Enqueue(id, created, p, payload);
            job.Some? ==>
              && job.value.id == id && job.value.created == created
              && RouteOf(job.value) == if payload == [] then EmptyPayload
                                       else if p.ip == "" then LocalPrinter(p.name, payload)
                                       else if 0 < p.port <= 65535 then Network(p.ip, p.port, payload)
                                       else Network(p.ip, 9100, payload)
  {
    HexRoundTrip(payload);
  }

  // ---------------------------------------------------------------- the queue on the server

  const MAX_ATTEMPTS := 3

  /** A job and how often it has been claimed. */
  datatype Ticket = Ticket(job: Job, attempts: nat)

  /** Jobs that can be claimed, the oldest first; jobs that are claimed with no ack in sight; jobs that
      were acked as printed, and as failed for the last time. */
  datatype Server = Server(ready: seq<Ticket>, limbo: seq<Ticket>, printed: seq<Ticket>, failed: seq<Ticket>)

  /** Back into the order of creation. */
  function Insert(s: seq<Ticket>, t: Ticket): seq<Ticket> {
    if s == [] || t.job.created < s[0].job.created then [t] + s else [s[0]] + Insert(s[1..], t)
  }

  function InsertAll(s: seq<Ticket>, ts: seq<Ticket>): seq<Ticket>
    decreases |ts|
  {
    if ts == [] then s else InsertAll(Insert(s, ts[0]), ts[1..])
  }

  function Enqueued(jobs: seq<Job>): seq<Ticket> {
    if jobs == [] then [] else [Ticket(jobs[0], 0)] + Enqueued(jobs[1..])
  }

  /** Claims whose lease runs out, unless their job has used up its attempts, and the others. */
  predicate Lapses(t: Ticket, lapsed: set<nat>) { t.job.id in lapsed && t.attempts < MAX_ATTEMPTS }

  function Lapsing(limbo: seq<Ticket>, lapsed: set<nat>): seq<Ticket> {
    if limbo == [] then []
    else (if Lapses(limbo[0], lapsed) then [limbo[0]] else []) + Lapsing(limbo[1..], lapsed)
  }

  function Staying(limbo: seq<Ticket>, lapsed: set<nat>): seq<Ticket> {
    if limbo == [] then []
    else (if Lapses(limbo[0], lapsed) then [] else [limbo[0]]) + Staying(limbo[1..], lapsed)
  }

  /** The server after jobs were queued and leases ran out. */
  function Refreshed(s: Server, arrivals: seq<Job>, lapsed: set<nat>): Server {
    s.(ready := InsertAll(s.ready, Enqueued(arrivals) + Lapsing(s.limbo, lapsed)), limbo := Staying(s.limbo, lapsed))
  }

  /** The server after attempt t was dispatched and acked: a lost ack leaves the claim standing; a failure
      goes back to its place in the queue while attempts are left. */
  function Settled(s: Server, t: Ticket, printed: bool, ackArrives: bool): Server {
    if !ackArrives then s.(limbo := s.limbo + [t])
    else if printed then s.(printed := s.printed + [t])
    else if t.attempts >= MAX_ATTEMPTS then s.(failed := s.failed + [t])
    else s.(ready := Insert(s.ready, t))
  }

  predicate Sorted(s: seq<Ticket>) { forall i, j :: 0 <= i < j < |s| ==> s[i].job.created <= s[j].job.created }

  /** How many more claims a ticket, or all of them, can take. */
  function Left(t: Ticket): nat { if t.attempts < MAX_ATTEMPTS then MAX_ATTEMPTS - t.attempts else 0 }

  function Weight(ts: seq<Ticket>): nat { if ts == [] then 0 else Left(ts[0]) + Weight(ts[1..]) }

  function Jobs(ts: seq<Ticket>): multiset<Job> {
    if ts == [] then multiset{} else Jobs(ts[1..]) + multiset{ts[0].job}
  }

  /** What is ready can be claimed, oldest first. */
  predicate Proper(s: Server) { Sorted(s.ready) && forall t :: t in s.ready ==> t.attempts < MAX_ATTEMPTS }

  lemma FirstFacts(t: Ticket, ts: seq<Ticket>)
    ensures Weight([t] + ts) == Left(t) + Weight(ts) && Jobs([t] + ts) == Jobs(ts) + multiset{t.job}
  {
    assert ([t] + ts)[1..] == ts;
  }

  lemma {:induction false} InsertMembers(s: seq<Ticket>, t: Ticket)
    ensures forall u :: u in Insert(s, t) <==> u in s || u == t
  {
    if s != [] {
      InsertMembers(s[1..], t);
      assert s == [s[0]] + s[1..];
    }
  }

  lemma SortedFirst(t: Ticket, s: seq<Ticket>)
    requires Sorted(s) && forall u :: u in s ==> t.job.created <= u.job.created
    ensures Sorted([t] + s)
  {
    var r := [t] + s;
    forall i, j | 0 <= i < j < |r| ensures r[i].job.created <= r[j].job.created {
      assert r[j] == s[j - 1] && s[j - 1] in s;
    }
  }

  lemma {:induction false} InsertKeepsOrder(s: seq<Ticket>, t: Ticket)
    requires Sorted(s)
    ensures Sorted(Insert(s, t))
  {
    if s != [] && s[0].job.created <= t.job.created {
      InsertKeepsOrder(s[1..], t);
      InsertMembers(s[1..], t);
      SortedFirst(s[0], Insert(s[1..], t));
    }
  }

  lemma {:induction false} InsertSums(s: seq<Ticket>, t: Ticket)
    ensures Weight(Insert(s, t)) == Weight(s) + Left(t) && Jobs(Insert(s, t)) == Jobs(s) + multiset{t.job}
  {
    if s == [] || t.job.created < s[0].job.created {
      FirstFacts(t, s);
    } else {
      InsertSums(s[1..], t);
      FirstFacts(s[0], Insert(s[1..], t));
      assert Insert(s, t) == [s[0]] + Insert(s[1..], t);
      assert Weight(s) == Left(s[0]) + Weight(s[1..]) && Jobs(s) == Jobs(s[1..]) + multiset{s[0].job};
      var rest, a, b := Jobs(s[1..]), multiset{s[0].job}, multiset{t.job};
      hide *;
      assert rest + b + a == rest + a + b;
    }
  }

  lemma {:induction false} InsertAllKeepsOrder(s: seq<Ticket>, ts: seq<Ticket>)
    ensures Sorted(s) ==> Sorted(InsertAll(s, ts))
    ensures forall u :: u in InsertAll(s, ts) <==> u in s || u in ts
    decreases |ts|
  {
    if ts != [] {
      if Sorted(s) { InsertKeepsOrder(s, ts[0]); }
      InsertMembers(s, ts[0]);
      InsertAllKeepsOrder(Insert(s, ts[0]), ts[1..]);
      assert ts == [ts[0]] + ts[1..];
      hide Sorted, Insert;
    }
  }

  lemma OneMoreOfTwo(a: multiset<Job>, b: multiset<Job>, job: Job)
    ensures a + multiset{job} + b == a + b + multiset{job} && a + (b + multiset{job}) == a + b + multiset{job}
  {
  }

  lemma {:induction false} InsertAllSums(s: seq<Ticket>, ts: seq<Ticket>)
    ensures Weight(InsertAll(s, ts)) == Weight(s) + Weight(ts) && Jobs(InsertAll(s, ts)) == Jobs(s) + Jobs(ts)
    decreases |ts|
  {
    if ts != [] {
      InsertSums(s, ts[0]);
      InsertAllSums(Insert(s, ts[0]), ts[1..]);
      hide Insert;
      assert Weight(ts) == Left(ts[0]) + Weight(ts[1..]) && Jobs(ts) == Jobs(ts[1..]) + multiset{ts[0].job};
      OneMoreOfTwo(Jobs(s), Jobs(ts[1..]), ts[0].job);
    }
  }

  lemma {:induction false} ConcatFacts(a: seq<Ticket>, b: seq<Ticket>)
    ensures Weight(a + b) == Weight(a) + Weight(b) && Jobs(a + b) == Jobs(a) + Jobs(b)
  {
    if a == [] {
      assert a + b == b;
    } else {
      assert (a + b)[0] == a[0] && (a + b)[1..] == a[1..] + b;
      ConcatFacts(a[1..], b);
    }
  }

  lemma {:induction false} EnqueuedFacts(jobs: seq<Job>)
    ensures Weight(Enqueued(jobs)) == MAX_ATTEMPTS * |jobs| && Jobs(Enqueued(jobs)) == multiset(jobs)
    ensures forall t :: t in Enqueued(jobs) ==> t.attempts < MAX_ATTEMPTS
  {
    if jobs != [] {
      EnqueuedFacts(jobs[1..]);
      assert Enqueued(jobs)[1..] == Enqueued(jobs[1..]) && jobs == [jobs[0]] + jobs[1..];
    }
  }

  lemma LastFacts(ts: seq<Ticket>, t: Ticket)
    ensures Weight(ts + [t]) == Weight(ts) + Left(t) && Jobs(ts + [t]) == Jobs(ts) + multiset{t.job}
  {
    ConcatFacts(ts, [t]);
    var none: seq<Ticket> := [];
    FirstFacts(t, none);
    assert [t] + none == [t];
  }

  lemma LapsingStep(limbo: seq<Ticket>, lapsed: set<nat>)
    requires limbo != []
    ensures var t, going, staying := limbo[0], Lapsing(limbo[1..], lapsed), Staying(limbo[1..], lapsed);
            if Lapses(t, lapsed) then Lapsing(limbo, lapsed) == [t] + going && Staying(limbo, lapsed) == staying
            else Lapsing(limbo, lapsed) == going && Staying(limbo, lapsed) == [t] + staying
  {
  }

  lemma {:induction false} LapsingFacts(limbo: seq<Ticket>, lapsed: set<nat>)
    ensures Weight(Lapsing(limbo, lapsed)) + Weight(Staying(limbo, lapsed)) == Weight(limbo)
    ensures Jobs(Lapsing(limbo, lapsed)) + Jobs(Staying(limbo, lapsed)) == Jobs(limbo)
  {
    if limbo != [] {
      LapsingFacts(limbo[1..], lapsed);
      LapsingStep(limbo, lapsed);
      var t, going, staying := limbo[0], Lapsing(limbo[1..], lapsed), Staying(limbo[1..], lapsed);
      FirstFacts(t, going);
      FirstFacts(t, staying);
      assert Weight(limbo) == Left(t) + Weight(limbo[1..]) && Jobs(limbo) == Jobs(limbo[1..]) + multiset{t.job};
      hide *;
      OneMoreOfTwo(Jobs(going), Jobs(staying), t.job);
    }
  }

  lemma {:induction false} LapsingMembers(limbo: seq<Ticket>, lapsed: set<nat>)
    ensures forall t :: t in Lapsing(limbo, lapsed) ==> t.attempts < MAX_ATTEMPTS
    ensures forall t :: t in Staying(limbo, lapsed) ==> t in limbo
  {
    if limbo != [] {
      LapsingMembers(limbo[1..], lapsed);
      LapsingStep(limbo, lapsed);
      assert limbo == [limbo[0]] + limbo[1..];
      hide Lapsing, Staying;
    }
  }

  lemma {:induction false} LapsedOrStaying(limbo: seq<Ticket>, lapsed: set<nat>, t: Ticket)
    ensures t in Lapsing(limbo, lapsed) <==> t in limbo && t.job.id in lapsed && t.attempts < 3
    ensures t in Staying(limbo, lapsed) <==> t in limbo && !(t.job.id in lapsed && t.attempts < 3)
  {
    if limbo != [] {
      LapsedOrStaying(limbo[1..], lapsed, t);
      assert limbo == [limbo[0]] + limbo[1..];
    }
  }

  lemma {:induction false} EnqueuedMembers(jobs: seq<Job>, t: Ticket)
    ensures t in Enqueued(jobs) <==> t.job in jobs && t.attempts == 0
  {
    if jobs != [] {
      EnqueuedMembers(jobs[1..], t);
      assert jobs == [jobs[0]] + jobs[1..];
    }
  }

  /** What can be claimed after jobs arrived and leases ran out: what could be before, every arrival with no
      attempt used, and every job whose lease ran out before its third attempt. */
  lemma LapsedLeasesComeBack(s: Server, arrivals: seq<Job>, lapsed: set<nat>, t: Ticket)
    ensures var r := Refreshed(s, arrivals, lapsed);
            && (t in r.ready <==> || t in s.ready || (t.job in arrivals && t.attempts == 0)
                                  || (t in s.limbo && t.job.id in lapsed && t.attempts < 3))
            && (t in r.limbo <==> t in s.limbo && !(t.job.id in lapsed && t.attempts < 3))
            && r.printed == s.printed && r.failed == s.failed
  {
    InsertAllKeepsOrder(s.ready, Enqueued(arrivals) + Lapsing(s.limbo, lapsed));
    LapsedOrStaying(s.limbo, lapsed, t);
    EnqueuedMembers(arrivals, t);
    hide InsertAll, Enqueued, Lapsing, Staying;
  }

  /** Jobs of one moment stay in the order in which they came. */
  lemma {:induction false} TiesKeepTheirOrder(s: seq<Ticket>, t: Ticket)
    requires forall u :: u in s ==> u.job.created <= t.job.created
    ensures Insert(s, t) == s + [t]
  {
    if s != [] {
      assert s[0] in s;
      TiesKeepTheirOrder(s[1..], t);
    }
  }

  /** All the jobs that the server knows, wherever they are. */
  function All(s: Server): multiset<Job> { Jobs(s.ready) + Jobs(s.limbo) + Jobs(s.printed) + Jobs(s.failed) }

  lemma RefreshedFacts(s: Server, arrivals: seq<Job>, lapsed: set<nat>)
    requires Proper(s)
    ensures var r := Refreshed(s, arrivals, lapsed);
            && Proper(r) && All(r) == All(s) + multiset(arrivals)
            && Weight(r.ready) + Weight(r.limbo) == Weight(s.ready) + Weight(s.limbo) + MAX_ATTEMPTS * |arrivals|
            && (forall t :: t in r.limbo ==> t in s.limbo)
  {
    var incoming := Enqueued(arrivals) + Lapsing(s.limbo, lapsed);
    EnqueuedFacts(arrivals);
    LapsingFacts(s.limbo, lapsed);
    LapsingMembers(s.limbo, lapsed);
    ConcatFacts(Enqueued(arrivals), Lapsing(s.limbo, lapsed));
    InsertAllKeepsOrder(s.ready, incoming);
    InsertAllSums(s.ready, incoming);
    hide InsertAll, Enqueued, Lapsing, Staying, Weight, Jobs, Sorted;
  }

  lemma OneMoreJob(a: multiset<Job>, b: multiset<Job>, c: multiset<Job>, d: multiset<Job>, job: Job)
    ensures a + multiset{job} + b + c + d == a + b + c + d + multiset{job}
    ensures a + (b + multiset{job}) + c + d == a + b + c + d + multiset{job}
    ensures a + b + (c + multiset{job}) + d == a + b + c + d + multiset{job}
    ensures a + b + c + (d + multiset{job}) == a + b + c + d + multiset{job}
  {
  }

  lemma SettledFacts(s: Server, t: Ticket, printed: bool, ackArrives: bool)
    requires Proper(s)
    ensures var r := Settled(s, t, printed, ackArrives);
            && Proper(r) && All(r) == All(s) + multiset{t.job}
            && Weight(r.ready) + Weight(r.limbo) <= Weight(s.ready) + Weight(s.limbo) + Left(t)
  {
    InsertMembers(s.ready, t);
    InsertKeepsOrder(s.ready, t);
    InsertSums(s.ready, t);
    LastFacts(s.limbo, t);
    LastFacts(s.printed, t);
    LastFacts(s.failed, t);
    hide Weight, Jobs, Sorted, Insert;
    OneMoreJob(Jobs(s.ready), Jobs(s.limbo), Jobs(s.printed), Jobs(s.failed), t.job);
  }

  // ---------------------------------------------------------------- draining

  /** How the server's reply to one claim fares: it arrives, the claim fails, or the job is claimed
      and the reply is lost. */
  datatype Reply = Arrives | Fails | GetsLost

  /** What happens around one pass of the loop: jobs queued and leases run out before its claim, the
      claim's fate, and whether the context is found cancelled. After the script nothing more happens. */
  datatype Beat = Beat(arrivals: seq<Job>, lapsed: set<nat>, reply: Reply, cancelled: bool)

  /** Whether a job's n-th attempt is reported as printed, if it can be dispatched at all, and whether the
      ack of it arrives. No attempt is made twice, so this is any behaviour of printers and network. */
  datatype Fate = Fate(prints: (Job, nat) -> bool, ackArrives: (Job, nat) -> bool)

  predicate Prints(fate: Fate, t: Ticket) {
    (RouteOf(t.job).Network? || RouteOf(t.job).LocalPrinter?) && fate.prints(t.job, t.attempts)
  }

  predicate AckArrives(fate: Fate, t: Ticket) { fate.ackArrives(t.job, t.attempts) }

  datatype Report = Dispatched(id: nat, ok: bool) | Acked(id: nat, printed: bool)

  datatype Link = Link(server: Server, script: seq<Beat>, log: seq<Report>)

  datatype Exit = Emptied | ClaimFailed | Cancelled

  const CALM := Beat([], {}, Arrives, false)

  function Arrivals(script: seq<Beat>): seq<Job> {
    if script == [] then [] else script[0].arrivals + Arrivals(script[1..])
  }

  function Reports(taken: seq<Ticket>, fate: Fate): seq<Report> {
    if taken == [] then []
    else
      var t := taken[0];
      [Dispatched(t.job.id, Prints(fate, t)), Acked(t.job.id, Prints(fate, t))] + Reports(taken[1..], fate)
  }

  /** A dispatch and an ack for each claim received, in order, both with the same outcome. */
  lemma {:induction false} ReportedInPairs(taken: seq<Ticket>, fate: Fate, i: nat)
    requires i < |taken|
    ensures var r, t := Reports(taken, fate), taken[i];
            && |r| == 2 * |taken|
            && r[2 * i] == Dispatched(t.job.id, Prints(fate, t)) && r[2 * i + 1] == Acked(t.job.id, Prints(fate, t))
  {
    if i > 0 {
      ReportedInPairs(taken[1..], fate, i - 1);
    } else if |taken| > 1 {
      ReportedInPairs(taken[1..], fate, 0);
    }
    hide Prints;
  }

  /** An attempt is reported as printed exactly if the printer says so and there was something to send, and
      somewhere to send it. */
  lemma WhatIsPrinted(fate: Fate, t: Ticket)
    ensures Prints(fate, t) <==>
            var payload := DecodeHex(WithoutSpaces(t.job.payloadHex));
            && payload.Some? && payload.value != []
            && (t.job.printerIP != "" || t.job.printerName != "")
            && fate.prints(t.job, t.attempts)
  {
  }

  /** The claims that can still be made. */
  function Pending(l: Link): nat {
    Weight(l.server.ready) + Weight(l.server.limbo) + MAX_ATTEMPTS * |Arrivals(l.script)|
  }

  function FirstBeat(l: Link): Beat { if l.script == [] then CALM else l.script[0] }

  /** The server as the next claim finds it. */
  function Found(l: Link): Server { Refreshed(l.server, FirstBeat(l).arrivals, FirstBeat(l).lapsed) }

  function Later(l: Link): seq<Beat> { if l.script == [] then [] else l.script[1..] }

  /** The oldest ticket, claimed once more. */
  function Claimed(s: Server): Ticket
    requires s.ready != []
  {
    Ticket(s.ready[0].job, s.ready[0].attempts + 1)
  }

  function Unclaimed(s: Server): Server
    requires s.ready != []
  {
    s.(ready := s.ready[1..])
  }

  /** Whether the next pass of the loop receives a job. */
  predicate Receives(l: Link) {
    !FirstBeat(l).cancelled && FirstBeat(l).reply.Arrives? && Found(l).ready != []
  }

  /** One pass that receives a job: claim, dispatch, ack. */
  function AfterPass(l: Link, fate: Fate): Link
    requires Receives(l)
  {
    var t := Claimed(Found(l));
    Link(Settled(Unclaimed(Found(l)), t, Prints(fate, t), AckArrives(fate, t)), Later(l), l.log + Reports([t], fate))
  }

  lemma UnclaimedFacts(s: Server)
    requires Proper(s) && s.ready != []
    ensures var r, t := Unclaimed(s), Claimed(s);
            && Proper(r) && All(s) == All(r) + multiset{t.job} && t.attempts <= MAX_ATTEMPTS
            && Weight(s.ready) == Weight(r.ready) + Left(t) + 1
            && forall u :: u in s.ready ==> t.job.created <= u.job.created
  {
    assert s.ready[0] in s.ready;
    assert forall u :: u in s.ready[1..] ==> u in s.ready;
  }

  lemma PassFacts(l: Link, fate: Fate)
    requires Proper(l.server) && Receives(l)
    ensures var r := AfterPass(l, fate);
            && Proper(r.server) && Pending(r) < Pending(l)
            && All(r.server) == All(l.server) + multiset(FirstBeat(l).arrivals)
  {
    var t := Claimed(Found(l));
    RefreshedFacts(l.server, FirstBeat(l).arrivals, FirstBeat(l).lapsed);
    UnclaimedFacts(Found(l));
    SettledFacts(Unclaimed(Found(l)), t, Prints(fate, t), AckArrives(fate, t));
    assert |Arrivals(l.script)| == |FirstBeat(l).arrivals| + |Arrivals(Later(l))|;
    assert Unclaimed(Found(l)).limbo == Found(l).limbo;
    hide Weight, All, Proper, Refreshed, Settled, Arrivals, Prints, AckArrives, RouteOf;
  }

  /** The drain, pass after pass. It ends, for a failing job comes back at most twice and arrivals are
      finitely many. */
  function Drained(l: Link, fate: Fate): (Link, Exit)
    requires Proper(l.server)
    decreases Pending(l)
  {
    if Receives(l) then
      PassFacts(l, fate);
      Drained(AfterPass(l, fate), fate)
    else if FirstBeat(l).cancelled then (l, Cancelled)
    else if FirstBeat(l).reply.Fails? then (Link(Found(l), Later(l), l.log), ClaimFailed)
    else if Found(l).ready == [] then
      (Link(Found(l), Later(l), l.log), if FirstBeat(l).reply.GetsLost? then ClaimFailed else Emptied)
    else
      var s, t := Unclaimed(Found(l)), Claimed(Found(l));
      (Link(s.(limbo := s.limbo + [t]), Later(l), l.log), ClaimFailed)
  }

  lemma UnfoldDrained(l: Link, fate: Fate)
    requires Proper(l.server)
    ensures Receives(l) ==> Proper(AfterPass(l, fate).server) && Drained(l, fate) == Drained(AfterPass(l, fate), fate)
    ensures FirstBeat(l).cancelled ==> Drained(l, fate) == (l, Cancelled)
    ensures !Receives(l) && !FirstBeat(l).cancelled ==>
              var s, reply := Found(l), FirstBeat(l).reply;
              Drained(l, fate) ==
              if reply.Fails? || (s.ready == [] && reply.GetsLost?) then (Link(s, Later(l), l.log), ClaimFailed)
              else if s.ready == [] then (Link(s, Later(l), l.log), Emptied)
              else (Link(Unclaimed(s).(limbo := Unclaimed(s).limbo + [Claimed(s)]), Later(l), l.log), ClaimFailed)
  {
    if Receives(l) { PassFacts(l, fate); }
    hide Refreshed, Proper;
  }

  /** How one pass can end the drain: a cancelled context leaves everything as it is, a claim that fails or
      whose reply is lost ends it with an error, and one that finds nothing ends it cleanly. */
  lemma HowADrainEnds(l: Link, fate: Fate)
    requires Proper(l.server) && l.script != []
    ensures var beat, (end, exit) := l.script[0], Drained(l, fate);
            var found := Refreshed(l.server, beat.arrivals, beat.lapsed);
            && (beat.cancelled ==> end == l && exit == Cancelled)
            && (!beat.cancelled && !beat.reply.Arrives? ==>
                  && exit == ClaimFailed && end.log == l.log && end.script == l.script[1..]
                  && (beat.reply.Fails? ==> end.server == found))
            && (!beat.cancelled && beat.reply.Arrives? && found.ready == [] ==>
                  exit == Emptied && end == Link(found, l.script[1..], l.log))
  {
    UnfoldDrained(l, fate);
    hide Drained, Refreshed, Proper;
  }

  /** The receipts that were printed, or failed for the last time, with their ack delivered. */
  function PrintedOf(taken: seq<Ticket>, fate: Fate): seq<Ticket> {
    if taken == [] then []
    else (if AckArrives(fate, taken[0]) && Prints(fate, taken[0]) then [taken[0]] else []) + PrintedOf(taken[1..], fate)
  }

  predicate FailsOut(fate: Fate, t: Ticket) {
    AckArrives(fate, t) && !Prints(fate, t) && t.attempts >= MAX_ATTEMPTS
  }

  function FailedOf(taken: seq<Ticket>, fate: Fate): seq<Ticket> {
    if taken == [] then []
    else (if FailsOut(fate, taken[0]) then [taken[0]] else []) + FailedOf(taken[1..], fate)
  }

  /** No job is lost or made up: those there were and those that arrived are all on the server still. */
  ghost predicate Conserved(l: Link, end: Link, n: nat) {
    && n <= |l.script| && end.script == l.script[n..]
    && Proper(end.server) && All(end.server) == All(l.server) + multiset(Arrivals(l.script[..n]))
  }

  /** Each claim received is dispatched once, then acked once with its outcome; those reported printed, and
      those that failed for the last time, are just those filed as such; and what stands claimed was so
      before, or its ack or the reply to its claim was lost. */
  ghost predicate Filed(l: Link, fate: Fate, end: Link, taken: seq<Ticket>, lost: seq<Ticket>) {
    && end.log == l.log + Reports(taken, fate)
    && end.server.printed == l.server.printed + PrintedOf(taken, fate)
    && end.server.failed == l.server.failed + FailedOf(taken, fate)
    && (forall t :: t in end.server.limbo ==> t in l.server.limbo || t in lost || (t in taken && !AckArrives(fate, t)))
    && (forall t :: t in taken ==> 1 <= t.attempts <= MAX_ATTEMPTS)
  }

  /** The books of a drain: with n beats played, `taken` the claims received, in order, and `lost` the one
      whose reply was lost, if any. A clean exit finds nothing ready. */
  ghost predicate Accounts(l: Link, fate: Fate, end: Link, exit: Exit, n: nat, taken: seq<Ticket>, lost: seq<Ticket>) {
    && Conserved(l, end, n) && Filed(l, fate, end, taken, lost)
    && |lost| <= 1 && (lost != [] ==> exit.ClaimFailed?)
    && (exit.Emptied? ==> end.server.ready == [])
  }

  lemma NoReceipts(l: Link, fate: Fate, end: Link, exit: Exit, n: nat, lost: seq<Ticket>)
    requires n <= |l.script| && end.script == l.script[n..] && end.log == l.log
    requires Proper(end.server) && All(end.server) == All(l.server) + multiset(Arrivals(l.script[..n]))
    requires end.server.printed == l.server.printed && end.server.failed == l.server.failed
    requires forall t :: t in end.server.limbo ==> t in l.server.limbo || t in lost
    requires |lost| <= 1 && (lost != [] ==> exit.ClaimFailed?) && (exit.Emptied? ==> end.server.ready == [])
    ensures Accounts(l, fate, end, exit, n, [], lost)
  {
    hide Proper, All, Arrivals;
  }

  lemma BeatPlayed(l: Link) returns (n: nat)
    ensures n <= |l.script| && l.script[n..] == Later(l) && Arrivals(l.script[..n]) == FirstBeat(l).arrivals
  {
    if l.script == [] {
      n := 0;
    } else {
      n := 1;
      assert l.script[..1][1..] == [] && l.script[0].arrivals + [] == l.script[0].arrivals;
    }
  }

  lemma LosesReply(s: Server)
    requires Proper(s) && s.ready != []
    ensures var r := Unclaimed(s).(limbo := s.limbo + [Claimed(s)]); Proper(r) && All(r) == All(s)
  {
    UnclaimedFacts(s);
    LastFacts(s.limbo, Claimed(s));
    var u := Unclaimed(s);
    OneMoreJob(Jobs(u.ready), Jobs(u.limbo), Jobs(u.printed), Jobs(u.failed), Claimed(s).job);
    hide Jobs, Weight, Sorted;
  }

  lemma NoPass(l: Link, fate: Fate) returns (n: nat, lost: seq<Ticket>)
    requires Proper(l.server) && !Receives(l)
    ensures var (end, exit) := Drained(l, fate); Accounts(l, fate, end, exit, n, [], lost)
  {
    n, lost := 0, [];
    var (end, exit) := Drained(l, fate);
    if FirstBeat(l).cancelled {
      assert l.script[..0] == [];
    } else {
      n := BeatPlayed(l);
      RefreshedFacts(l.server, FirstBeat(l).arrivals, FirstBeat(l).lapsed);
      if !FirstBeat(l).reply.Fails? && Found(l).ready != [] {
        lost := [Claimed(Found(l))];
        LosesReply(Found(l));
      }
    }
    hide Insert, InsertAll, Lapsing, Staying, Jobs, Weight, Proper, All, Accounts;
    NoReceipts(l, fate, end, exit, n, lost);
  }

  lemma FirstReport(t: Ticket, more: seq<Ticket>, fate: Fate)
    ensures Reports([t] + more, fate) == Reports([t], fate) + Reports(more, fate)
    ensures PrintedOf([t] + more, fate) ==
            (if AckArrives(fate, t) && Prints(fate, t) then [t] else []) + PrintedOf(more, fate)
    ensures FailedOf([t] + more, fate) == (if FailsOut(fate, t) then [t] else []) + FailedOf(more, fate)
  {
    assert ([t] + more)[1..] == more && [t][1..] == [];
  }

  lemma ArrivalsOfFirst(script: seq<Beat>, m: nat)
    requires m < |script|
    ensures Arrivals(script[..m + 1]) == script[0].arrivals + Arrivals(script[1..][..m])
  {
    assert script[..m + 1][1..] == script[1..][..m];
  }

  /** What one pass adds to the ledgers. */
  ghost predicate Adds(l: Link, fate: Fate, next: Link, t: Ticket) {
    && 1 <= t.attempts <= MAX_ATTEMPTS && next.log == l.log + Reports([t], fate)
    && next.server.printed == l.server.printed + (if AckArrives(fate, t) && Prints(fate, t) then [t] else [])
    && next.server.failed == l.server.failed + (if FailsOut(fate, t) then [t] else [])
    && forall u :: u in next.server.limbo ==> u in l.server.limbo || (u == t && !AckArrives(fate, t))
  }

  lemma FoundLedger(l: Link)
    requires Proper(l.server) && Found(l).ready != []
    ensures var s, t := Unclaimed(Found(l)), Claimed(Found(l));
            && s.printed == l.server.printed && s.failed == l.server.failed && 1 <= t.attempts <= MAX_ATTEMPTS
            && forall u :: u in s.limbo ==> u in l.server.limbo
  {
    RefreshedFacts(l.server, FirstBeat(l).arrivals, FirstBeat(l).lapsed);
    UnclaimedFacts(Found(l));
    hide InsertAll, Lapsing, Staying, Proper, All, Weight, FirstBeat;
  }

  lemma SettledLedger(s: Server, t: Ticket, printed: bool, ackArrives: bool)
    ensures var r := Settled(s, t, printed, ackArrives);
            && r.printed == s.printed + (if ackArrives && printed then [t] else [])
            && r.failed == s.failed + (if ackArrives && !printed && t.attempts >= MAX_ATTEMPTS then [t] else [])
            && forall u :: u in r.limbo ==> u in s.limbo || (u == t && !ackArrives)
  {
    assert s.printed + [] == s.printed && s.failed + [] == s.failed;
    hide Insert;
  }

  lemma PassLedger(l: Link, fate: Fate)
    requires Proper(l.server) && Receives(l)
    ensures Adds(l, fate, AfterPass(l, fate), Claimed(Found(l)))
  {
    var t := Claimed(Found(l));
    FoundLedger(l);
    SettledLedger(Unclaimed(Found(l)), t, Prints(fate, t), AckArrives(fate, t));
    hide Refreshed, Found, Unclaimed, Claimed, Settled, Proper, Prints, AckArrives, Reports, Later;
  }

  lemma Glue<T>(a: seq<T>, b: seq<T>, c: seq<T>)
    ensures a + b + c == a + (b + c)
  {
  }

  lemma PlayedOneMore(l: Link, m: nat)
    requires m <= |Later(l)|
    ensures var n := if l.script == [] then 0 else m + 1;
            && n <= |l.script| && Later(l)[m..] == l.script[n..]
            && Arrivals(l.script[..n]) == FirstBeat(l).arrivals + Arrivals(Later(l)[..m])
  {
    if l.script == [] {
      assert Later(l)[..m] == [] && l.script[..0] == [];
    } else {
      ArrivalsOfFirst(l.script, m);
    }
  }

  lemma FiledFirst(l: Link, fate: Fate, next: Link, end: Link, t: Ticket, more: seq<Ticket>, lost: seq<Ticket>)
    requires Adds(l, fate, next, t) && Filed(next, fate, end, more, lost)
    ensures Filed(l, fate, end, [t] + more, lost)
  {
    FirstReport(t, more, fate);
    assert forall u :: u in [t] + more <==> u == t || u in more;
    var printed := if AckArrives(fate, t) && Prints(fate, t) then [t] else [];
    var failed := if FailsOut(fate, t) then [t] else [];
    var reports, morePrinted, moreFailed := Reports(more, fate), PrintedOf(more, fate), FailedOf(more, fate);
    hide Reports, PrintedOf, FailedOf, Prints, AckArrives, FailsOut;
    Glue(l.log, Reports([t], fate), reports);
    Glue(l.server.printed, printed, morePrinted);
    Glue(l.server.failed, failed, moreFailed);
  }

  lemma BagOfConcat(a: seq<Job>, b: seq<Job>, bag: multiset<Job>)
    ensures bag + multiset(a) + multiset(b) == bag + multiset(a + b)
  {
  }

  lemma ConservedFirst(l: Link, fate: Fate, end: Link, m: nat)
    requires Proper(l.server) && Receives(l) && Conserved(AfterPass(l, fate), end, m)
    ensures Conserved(l, end, if l.script == [] then 0 else m + 1)
  {
    PassFacts(l, fate);
    assert AfterPass(l, fate).script == Later(l);
    PlayedOneMore(l, m);
    BagOfConcat(FirstBeat(l).arrivals, Arrivals(Later(l)[..m]), All(l.server));
    hide AfterPass, Later, Receives, All, Proper, Arrivals, FirstBeat;
  }

  /** Drain conservation: the books of every drain balance. */
  lemma {:induction false} DrainConserves(l: Link, fate: Fate) returns (n: nat, taken: seq<Ticket>, lost: seq<Ticket>)
    requires Proper(l.server)
    ensures var (end, exit) := Drained(l, fate); Accounts(l, fate, end, exit, n, taken, lost)
    decreases Pending(l)
  {
    if Receives(l) {
      PassFacts(l, fate);
      var m, more, lost' := DrainConserves(AfterPass(l, fate), fate);
      var (end, exit) := Drained(l, fate);
      ConservedFirst(l, fate, end, m);
      PassLedger(l, fate);
      FiledFirst(l, fate, AfterPass(l, fate), end, Claimed(Found(l)), more, lost');
      hide Conserved, Filed, Adds, AfterPass, Found;
      n, taken, lost := if l.script == [] then 0 else m + 1, [Claimed(Found(l))] + more, lost';
    } else {
      n, lost := NoPass(l, fate);
      taken := [];
    }
  }

  lemma {:induction false} JobsMembers(ts: seq<Ticket>, job: Job)
    ensures job in Jobs(ts) <==> exists t :: t in ts && t.job == job
  {
    if ts != [] {
      JobsMembers(ts[1..], job);
      assert ts == [ts[0]] + ts[1..];
    }
  }

  lemma {:induction false} FiledMembers(taken: seq<Ticket>, fate: Fate)
    ensures forall t :: t in PrintedOf(taken, fate) ==> t in taken && AckArrives(fate, t) && Prints(fate, t)
    ensures forall t :: t in FailedOf(taken, fate) ==> t in taken && FailsOut(fate, t)
  {
    if taken != [] {
      FiledMembers(taken[1..], fate);
      assert taken == [taken[0]] + taken[1..];
      hide Prints, AckArrives;
    }
  }

  lemma {:induction false} ArrivalsOfPrefix(script: seq<Beat>, n: nat)
    requires n <= |script|
    ensures multiset(Arrivals(script[..n])) <= multiset(Arrivals(script))
  {
    if n > 0 {
      ArrivalsOfFirst(script, n - 1);
      ArrivalsOfPrefix(script[1..], n - 1);
    } else {
      assert script[..0] == [];
    }
  }

  /** The job was received, and that attempt was the end of it: reported printed, or failed as its third
      and last; or else the ack of it was lost. */
  ghost predicate Served(taken: seq<Ticket>, fate: Fate, job: Job) {
    exists t :: t in taken && t.job == job && (AckArrives(fate, t) ==> Prints(fate, t) || t.attempts == MAX_ATTEMPTS)
  }

  lemma ServedWhenGone(l: Link, fate: Fate, end: Link, n: nat, taken: seq<Ticket>, job: Job)
    requires Accounts(l, fate, end, Emptied, n, taken, [])
    requires (All(l.server) + multiset(Arrivals(l.script)))[job] <= 1
    requires job in Jobs(l.server.ready) || job in Arrivals(l.script[..n])
    ensures Served(taken, fate, job)
  {
    var s, e := l.server, end.server;
    ArrivalsOfPrefix(l.script, n);
    FiledMembers(taken, fate);
    JobsMembers(s.limbo, job);
    JobsMembers(s.printed, job);
    JobsMembers(s.failed, job);
    JobsMembers(e.limbo, job);
    JobsMembers(e.printed, job);
    JobsMembers(e.failed, job);
    assert Jobs(e.ready) == multiset{};
    assert multiset(Arrivals(l.script[..n]))[job] <= multiset(Arrivals(l.script))[job];
    assert job !in Jobs(s.limbo) && job !in Jobs(s.printed) && job !in Jobs(s.failed);
    assert job in All(e);
    hide Jobs, Arrivals, Prints, AckArrives, PrintedOf, FailedOf, Proper, Reports;
  }

  /** What a clean exit means: every job that was ready, or arrived while the drain went on, was printed,
      or failed out at its third attempt, or is left claimed by an attempt whose ack was lost. Jobs are
      told apart by their ids. */
  lemma CleanExitServesAll(l: Link, fate: Fate) returns (n: nat, taken: seq<Ticket>)
    requires Proper(l.server) && Drained(l, fate).1.Emptied?
    requires forall job :: (All(l.server) + multiset(Arrivals(l.script)))[job] <= 1
    ensures Accounts(l, fate, Drained(l, fate).0, Emptied, n, taken, [])
    ensures forall job :: job in Jobs(l.server.ready) || job in Arrivals(l.script[..n]) ==> Served(taken, fate, job)
  {
    var lost;
    n, taken, lost := DrainConserves(l, fate);
    var end := Drained(l, fate).0;
    forall job | job in Jobs(l.server.ready) || job in Arrivals(l.script[..n]) ensures Served(taken, fate, job) {
      ServedWhenGone(l, fate, end, n, taken, job);
    }
    hide *;
  }

  /** A job that fails is next in line again: the printer that is off holds up every job after it. */
  lemma FailedJobIsNextInLine(l: Link, fate: Fate)
    requires Proper(l.server) && Receives(l)
    requires var t := Claimed(Found(l)); AckArrives(fate, t) && !Prints(fate, t) && t.attempts < MAX_ATTEMPTS
    requires forall u :: u in Found(l).ready[1..] ==> Found(l).ready[0].job.created < u.job.created
    ensures AfterPass(l, fate).server.ready == [Claimed(Found(l))] + Found(l).ready[1..]
  {
    var rest := Found(l).ready[1..];
    assert rest != [] ==> rest[0] in rest;
  }

  lemma FourReports(r: seq<Report>, s: seq<Report>, t: seq<Report>, u: seq<Report>)
    ensures [] + r + s + t + u == r + (s + (t + u))
  {
  }

  /** One pass over two jobs, the older of which fails its next attempt. */
  lemma TwoJobsPass(a: Job, b: Job, n: nat, log: seq<Report>, fate: Fate)
    requires a.created < b.created && n < MAX_ATTEMPTS
    requires var t := Ticket(a, n + 1); AckArrives(fate, t) && !Prints(fate, t)
    ensures var l := Link(Server([Ticket(a, n), Ticket(b, 0)], [], [], []), [], log);
            var t := Ticket(a, n + 1);
            var next := if n + 1 < MAX_ATTEMPTS then Server([t, Ticket(b, 0)], [], [], [])
                        else Server([Ticket(b, 0)], [], [], [t]);
            && Proper(l.server) && Proper(next)
            && Drained(l, fate) == Drained(Link(next, [], log + Reports([t], fate)), fate)
  {
    var l := Link(Server([Ticket(a, n), Ticket(b, 0)], [], [], []), [], log);
    var t, rest := Ticket(a, n + 1), Server([Ticket(b, 0)], [], [], []);
    assert Found(l) == l.server;
    UnfoldDrained(l, fate);
    hide Drained, Prints, AckArrives, Reports;
    assert Claimed(l.server) == t && Unclaimed(l.server) == rest;
    assert Insert(rest.ready, t) == [t] + rest.ready == [t, Ticket(b, 0)];
    assert Settled(rest, t, false, true) == if t.attempts < MAX_ATTEMPTS then Server([t, Ticket(b, 0)], [], [], [])
                                            else Server([Ticket(b, 0)], [], [], [t]);
    hide Refreshed, Insert, Settled, Unclaimed, Claimed;
  }

  /** One job left, which prints. */
  lemma OneJobLeft(b: Job, failed: Ticket, log: seq<Report>, fate: Fate)
    requires var t := Ticket(b, 1); AckArrives(fate, t) && Prints(fate, t)
    ensures var l, t := Link(Server([Ticket(b, 0)], [], [], [failed]), [], log), Ticket(b, 1);
            && Proper(l.server)
            && Drained(l, fate) == (Link(Server([], [], [t], [failed]), [], log + Reports([t], fate)), Emptied)
  {
    var l, t := Link(Server([Ticket(b, 0)], [], [], [failed]), [], log), Ticket(b, 1);
    var last := Link(Server([], [], [t], [failed]), [], log + Reports([t], fate));
    assert Found(l) == l.server && Found(last) == last.server;
    UnfoldDrained(l, fate);
    UnfoldDrained(last, fate);
    hide Drained, Prints, AckArrives, Reports;
    assert AfterPass(l, fate) == last;
  }

  /** Two jobs, and the first one's printer off: three attempts at the first come before the second. */
  lemma FirstJobThriceThenSecond(a: Job, b: Job, fate: Fate)
    requires a.created < b.created && (forall t :: AckArrives(fate, t))
    requires (forall t: Ticket :: t.job == a ==> !Prints(fate, t)) && Prints(fate, Ticket(b, 1))
    ensures var l := Link(Server([Ticket(a, 0), Ticket(b, 0)], [], [], []), [], []);
            var taken := [Ticket(a, 1), Ticket(a, 2), Ticket(a, 3), Ticket(b, 1)];
            var server := Server([], [], [Ticket(b, 1)], [Ticket(a, 3)]);
            Drained(l, fate) == (Link(server, [], Reports(taken, fate)), Emptied)
  {
    hide Drained, AfterPass, Found, Receives, Proper, Prints, AckArrives, Reports;
    var a1, a2, a3, b1 := Ticket(a, 1), Ticket(a, 2), Ticket(a, 3), Ticket(b, 1);
    TwoJobsPass(a, b, 0, [], fate);
    TwoJobsPass(a, b, 1, [] + Reports([a1], fate), fate);
    TwoJobsPass(a, b, 2, [] + Reports([a1], fate) + Reports([a2], fate), fate);
    OneJobLeft(b, a3, [] + Reports([a1], fate) + Reports([a2], fate) + Reports([a3], fate), fate);
    FirstReport(a1, [a2, a3, b1], fate);
    FirstReport(a2, [a3, b1], fate);
    FirstReport(a3, [b1], fate);
    assert [a1] + [a2, a3, b1] == [a1, a2, a3, b1] && [a2] + [a3, b1] == [a2, a3, b1] && [a3] + [b1] == [a3, b1];
    FourReports(Reports([a1], fate), Reports([a2], fate), Reports([a3], fate), Reports([b1], fate));
  }

  // ---------------------------------------------------------------- the agent

  /** The agent's side of the connection, with the script of what the world does to it. */
  class Agent {
    var server: Server
    var script: seq<Beat>
    var log: seq<Report>
    const fate: Fate

    constructor (server: Server, script: seq<Beat>, fate: Fate)
      ensures View() == Link(server, script, []) && this.fate == fate
    {
      this.server, this.script, this.fate := server, script, fate;
      log := [];
    }

    function View(): Link
      reads this
    {
      Link(server, script, log)
    }

    predicate ContextCancelled()
      reads this
    {
      script != [] && script[0].cancelled
    }

    /** One claim, of the oldest job there is; `err` stands for any failed request, None without err for
        an empty queue. */
    method NextJob() returns (t: Option<Ticket>, err: bool)
      requires Proper(server)
      modifies this
      ensures log == old(log) && script == Later(old(View()))
      ensures var reply, found := FirstBeat(old(View())).reply, Found(old(View()));
              && err == !reply.Arrives?
              && t == (if err || found.ready == [] then None else Some(Claimed(found)))
              && (t.Some? ==> forall u :: u in found.ready ==> t.value.job.created <= u.job.created)
              && server == if reply.Fails? || found.ready == [] then found
                           else if reply.Arrives? then Unclaimed(found)
                           else Unclaimed(found).(limbo := Unclaimed(found).limbo + [Claimed(found)])
    {
      var beat := if script == [] then CALM else script[0];
      RefreshedFacts(server, beat.arrivals, beat.lapsed);
      if Found(View()).ready != [] { UnclaimedFacts(Found(View())); }
      hide Refreshed, Proper, Weight, All, Claimed, Unclaimed;
      if script != [] { script := script[1..]; }
      server := Refreshed(server, beat.arrivals, beat.lapsed);
      t, err := None, !beat.reply.Arrives?;
      if !beat.reply.Fails? && server.ready != [] {
        var first := Claimed(server);
        server := Unclaimed(server);
        if beat.reply.Arrives? {
          t := Some(first);
        } else {
          server := server.(limbo := server.limbo + [first]);
        }
      }
    }

    /** A dispatch, then an ack that carries its outcome and may not arrive. */
    method PrintAndAck(t: Ticket)
      modifies this`server, this`log
      ensures log == old(log) + Reports([t], fate)
      ensures server == Settled(old(server), t, Prints(fate, t), AckArrives(fate, t))
    {
      var ok := Prints(fate, t);
      log := log + [Dispatched(t.job.id, ok)];
      log := log + [Acked(t.job.id, ok)];
      server := Settled(server, t, ok, AckArrives(fate, t));
    }

    method DrainJobs() returns (exit: Exit)
      requires Proper(server)
      modifies this
      ensures (View(), exit) == Drained(old(View()), fate)
    {
      hide Drained, Proper, Pending, Refreshed, Settled, Reports, Prints, AckArrives;
      while !ContextCancelled()
        invariant Proper(server) && Drained(View(), fate) == Drained(old(View()), fate)
        decreases Pending(View())
      {
        ghost var before := View();
        UnfoldDrained(before, fate);
        var t, err := NextJob();
        if err {
          return ClaimFailed;
        }
        if t.None? {
          return Emptied;
        }
        PassFacts(before, fate);
        PrintAndAck(t.value);
      }
      UnfoldDrained(View(), fate);
      return Cancelled;
    }
  }
}
