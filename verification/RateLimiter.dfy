/**
 The per-IP token bucket of the API rate limiter (internal/api_security.go).  Clock readings are
 parameters, and arithmetic is over the reals.
 */
module RateLimiter {
  datatype Entry = Entry(tokens: real, lastTime: real)

  // One call with its clock readings in program order: the creation of the entry (read only when
  // there is none), the elapsed time, and the new lastTime.
  datatype Call = Call(ip: string, created: real, since: real, stored: real)

  type Visitors = map<string, Entry>

  function EntryFor(m: Visitors, burst: int, c: Call): Entry {
    if c.ip in m then m[c.ip] else Entry(burst as real, c.created)
  }

  // The tokens earned in a span of time.
  function Earned(elapsed: real, rate: real): real { elapsed * rate }

  // The tokens a call finds after the refill, at most `burst`.
  function Refilled(e: Entry, rate: real, burst: int, now: real): real {
    var tokens := e.tokens + Earned(now - e.lastTime, rate);
    if tokens > burst as real then burst as real else tokens
  }

  predicate Admits(m: Visitors, rate: real, burst: int, c: Call) {
    Refilled(EntryFor(m, burst, c), rate, burst, c.since) >= 1.0
  }

  function Step(m: Visitors, rate: real, burst: int, c: Call): Visitors {
    var tokens := Refilled(EntryFor(m, burst, c), rate, burst, c.since);
    m[c.ip := Entry(if tokens >= 1.0 then tokens - 1.0 else tokens, c.stored)]
  }

  // The limiter's lock makes the clock readings of successive calls increase.
  predicate Ordered(calls: seq<Call>) {
    (forall i :: 0 <= i < |calls| ==> calls[i].created <= calls[i].since <= calls[i].stored) &&
    (forall i :: 0 <= i < |calls| - 1 ==> calls[i].stored <= calls[i + 1].created)
  }

  ghost predicate Past(m: Visitors, now: real) {
    forall ip :: ip in m ==> m[ip].lastTime <= now
  }

  ghost predicate NonNegative(m: Visitors) {
    forall ip :: ip in m ==> m[ip].tokens >= 0.0
  }

  // The state before a run of calls.
  ghost predicate Ready(m: Visitors, rate: real, burst: int, calls: seq<Call>) {
    rate > 0.0 && burst > 0 && NonNegative(m) && Ordered(calls) &&
    (calls != [] ==> Past(m, calls[0].created))
  }

  lemma StepKeeps(m: Visitors, rate: real, burst: int, c: Call)
    requires Ready(m, rate, burst, [c])
    ensures NonNegative(Step(m, rate, burst, c)) && Past(Step(m, rate, burst, c), c.stored)
    ensures 0.0 <= Step(m, rate, burst, c)[c.ip].tokens <= burst as real
  {
    hide Earned;
    var e := EntryFor(m, burst, c);
    assert [c][0].created <= [c][0].since <= [c][0].stored;
    assert e.lastTime <= c.created && e.tokens >= 0.0;
    EarnedIsPositive(c.since - e.lastTime, rate);
    assert 0.0 <= Refilled(e, rate, burst, c.since) <= burst as real;
  }

  lemma Product(x: real, y: real)
    requires x >= 0.0 && y >= 0.0
    ensures x * y >= 0.0
  {
  }

  lemma EarnedIsPositive(elapsed: real, rate: real)
    requires elapsed >= 0.0 && rate > 0.0
    ensures Earned(elapsed, rate) >= 0.0
  {
    Product(elapsed, rate);
  }

  lemma RefillSteps(e: Entry, rate: real, burst: int, now: real, elapsed: real, tokens: real)
    requires elapsed == now - e.lastTime && tokens == e.tokens + Earned(elapsed, rate)
    ensures Refilled(e, rate, burst, now) == if tokens > burst as real then burst as real else tokens
  {
    hide Earned;
  }

  class Limiter {
    var visitors: Visitors
    var rate: real
    var burst: int

    ghost predicate Valid()
      reads this
    {
      rate > 0.0 && burst > 0 && forall ip :: ip in visitors ==> visitors[ip].tokens >= 0.0
    }

    constructor ()
      ensures Valid() && visitors == map[] && rate == 10.0 && burst == 20
    {
      visitors, rate, burst := map[], 10.0, 20;
    }

    method Init(ratePerSec: real, newBurst: int)
      requires Valid()
      modifies this
      ensures Valid() && visitors == old(visitors)
      ensures rate == (if ratePerSec > 0.0 then ratePerSec else old(rate))
      ensures burst == (if newBurst > 0 then newBurst else old(burst))
    {
      if ratePerSec > 0.0 {
        rate := ratePerSec;
      }
      if newBurst > 0 {
        burst := newBurst;
      }
    }

    method AllowRequest(c: Call) returns (ok: bool)
      requires Valid() && Ordered([c]) && Past(visitors, c.created)
      modifies this`visitors
      ensures Valid() && Past(visitors, c.stored)
      ensures visitors == Step(old(visitors), rate, burst, c)
      ensures ok == Admits(old(visitors), rate, burst, c)
      ensures forall ip :: ip != c.ip ==> (ip in visitors <==> ip in old(visitors))
      ensures forall ip :: ip != c.ip && ip in visitors ==> visitors[ip] == old(visitors)[ip]
      ensures 0.0 <= visitors[c.ip].tokens <= burst as real
    {
      hide Refilled, Earned;
      StepKeeps(visitors, rate, burst, c);
      assert [c][0] == c;
      if c.ip !in visitors {
        visitors := visitors[c.ip := Entry(burst as real, c.created)];
      }
      var entry := visitors[c.ip];
      ghost var found := entry;
      assert found == EntryFor(old(visitors), burst, c);
      var elapsed := c.since - entry.lastTime;
      entry := entry.(tokens := entry.tokens + Earned(elapsed, rate));
      RefillSteps(found, rate, burst, c.since, elapsed, entry.tokens);
      if entry.tokens > burst as real {
        entry := entry.(tokens := burst as real);
      }
      entry := entry.(lastTime := c.stored);
      if entry.tokens < 1.0 {
        visitors := visitors[c.ip := entry];
        return false;
      }
      entry := entry.(tokens := entry.tokens - 1.0);
      visitors := visitors[c.ip := entry];
      return true;
    }
  }

  // ---------- whole runs ----------

  lemma ReadyNext(m: Visitors, rate: real, burst: int, calls: seq<Call>)
    requires Ready(m, rate, burst, calls) && calls != []
    ensures Ready(Step(m, rate, burst, calls[0]), rate, burst, calls[1..])
  {
    var c := calls[0];
    assert Ordered([c]);
    StepKeeps(m, rate, burst, c);
    if |calls| > 1 {
      assert calls[0].stored <= calls[0 + 1].created;
    }
  }

  // The answers to a run of calls, in order.
  function Answers(m: Visitors, rate: real, burst: int, calls: seq<Call>): (r: seq<bool>)
    ensures |r| == |calls|
    decreases |calls|
  {
    if calls == [] then []
    else [Admits(m, rate, burst, calls[0])] + Answers(Step(m, rate, burst, calls[0]), rate, burst, calls[1..])
  }

  // A call overlaps a time window when some of its readings may fall inside.
  predicate Overlaps(c: Call, s: real, t: real) { s <= c.stored && c.since <= t }

  // How many calls of one address that overlap the window are admitted.
  function Admitted(m: Visitors, rate: real, burst: int, calls: seq<Call>, ip: string, s: real, t: real): nat
    decreases |calls|
  {
    if calls == [] then 0
    else
      var c := calls[0];
      (if c.ip == ip && Overlaps(c, s, t) then Paid(m, rate, burst, c) else 0) +
      Admitted(Step(m, rate, burst, c), rate, burst, calls[1..], ip, s, t)
  }

  lemma {:induction false} LateCallsDoNotCount(m: Visitors, rate: real, burst: int, calls: seq<Call>, ip: string, s: real, t: real)
    requires Ready(m, rate, burst, calls)
    requires calls != [] ==> calls[0].since > t
    ensures Admitted(m, rate, burst, calls, ip, s, t) == 0
    decreases |calls|
  {
    if calls != [] {
      ReadyNext(m, rate, burst, calls);
      if |calls| > 1 {
        assert calls[0].stored <= calls[0 + 1].created;
      }
      LateCallsDoNotCount(Step(m, rate, burst, calls[0]), rate, burst, calls[1..], ip, s, t);
    }
  }

  // The refill an entry can still get until time t, ignoring the burst limit.
  function Refill(e: Entry, rate: real, t: real): real {
    if t > e.lastTime then Earned(t - e.lastTime, rate) else 0.0
  }

  lemma RefillIsPositive(e: Entry, rate: real, t: real)
    requires rate > 0.0
    ensures Refill(e, rate, t) >= 0.0
  {
    hide Earned;
    if t > e.lastTime {
      EarnedIsPositive(t - e.lastTime, rate);
    }
  }

  function Paid(m: Visitors, rate: real, burst: int, c: Call): nat {
    if Admits(m, rate, burst, c) then 1 else 0
  }

  lemma OthersUntouched(m: Visitors, rate: real, burst: int, c: Call, ip: string)
    requires ip != c.ip
    ensures ip in Step(m, rate, burst, c) <==> ip in m
    ensures ip in m ==> Step(m, rate, burst, c)[ip] == m[ip]
  {
  }

  // What an existing entry can still pay for until time t: its tokens, and the refill.
  lemma {:induction false} EntryBound(m: Visitors, rate: real, burst: int, calls: seq<Call>, ip: string, s: real, t: real)
    requires Ready(m, rate, burst, calls) && ip in m
    ensures Admitted(m, rate, burst, calls, ip, s, t) as real <= m[ip].tokens + Refill(m[ip], rate, t)
    decreases |calls|
  {
    RefillIsPositive(m[ip], rate, t);
    if calls != [] {
      var c := calls[0];
      var next := Step(m, rate, burst, c);
      ReadyNext(m, rate, burst, calls);
      if c.since > t {
        LateCallsDoNotCount(m, rate, burst, calls, ip, s, t);
      } else if c.ip == ip {
        hide Step, Refill, Admits, Earned;
        Spend(m, rate, burst, c, t);
        EntryBound(next, rate, burst, calls[1..], ip, s, t);
      } else {
        hide Step, Refill, Admits, Earned;
        OthersUntouched(m, rate, burst, c, ip);
        EntryBound(next, rate, burst, calls[1..], ip, s, t);
      }
    }
  }

  // One call pays for itself out of the bound.
  lemma Spend(m: Visitors, rate: real, burst: int, c: Call, t: real)
    requires Ready(m, rate, burst, [c]) && c.ip in m && c.since <= t
    ensures
      var next := Step(m, rate, burst, c);
      c.ip in next &&
      Paid(m, rate, burst, c) as real + next[c.ip].tokens + Refill(next[c.ip], rate, t)
        <= m[c.ip].tokens + Refill(m[c.ip], rate, t)
  {
    hide Earned;
    var e := m[c.ip];
    assert [c][0] == c;
    assert e.lastTime <= c.created <= c.since <= c.stored;
    var gained, later := c.since - e.lastTime, if t > c.stored then t - c.stored else 0.0;
    Distribute(gained, later, t - e.lastTime, rate);
    EarnedIsPositive(later, rate);
    EarnedIsPositive(gained, rate);
  }

  lemma Distribute(a: real, b: real, total: real, rate: real)
    requires a + b <= total && rate >= 0.0
    ensures Earned(a, rate) + Earned(b, rate) <= Earned(total, rate)
  {
    Product(total - a - b, rate);
    assert (total - a - b) * rate == total * rate - a * rate - b * rate;
  }

  // The calls admitted for one address in any window number at most burst + rate * length, for any
  // interleaving with other addresses, although each call reads the clock more than once.
  lemma {:induction false} WindowBound(m: Visitors, rate: real, burst: int, calls: seq<Call>, ip: string, s: real, t: real)
    requires Ready(m, rate, burst, calls) && s <= t
    ensures Admitted(m, rate, burst, calls, ip, s, t) as real <= burst as real + Earned(t - s, rate)
    decreases |calls|
  {
    hide Admits, Step, Refill, Earned;
    EarnedIsPositive(t - s, rate);
    if calls != [] {
      var c := calls[0];
      var next := Step(m, rate, burst, c);
      ReadyNext(m, rate, burst, calls);
      if c.ip != ip || !Overlaps(c, s, t) {
        WindowBound(next, rate, burst, calls[1..], ip, s, t);
      } else {
        FirstInWindow(m, rate, burst, c, s, t);
        EntryBound(next, rate, burst, calls[1..], ip, s, t);
      }
    }
  }

  // The same, with the product written out
  lemma CallsPerWindow(m: Visitors, rate: real, burst: int, calls: seq<Call>, ip: string, s: real, t: real)
    requires Ready(m, rate, burst, calls) && s <= t
    ensures Admitted(m, rate, burst, calls, ip, s, t) as real <= burst as real + rate * (t - s)
  {
    hide Admitted, Ready;
    WindowBound(m, rate, burst, calls, ip, s, t);
  }

  lemma AtMostBurst(e: Entry, rate: real, burst: int, now: real)
    ensures Refilled(e, rate, burst, now) <= burst as real
  {
  }

  // The first call inside the window leaves at most burst tokens, one less when it is admitted.
  lemma FirstInWindow(m: Visitors, rate: real, burst: int, c: Call, s: real, t: real)
    requires Ready(m, rate, burst, [c]) && s <= t && s <= c.stored
    ensures
      var next := Step(m, rate, burst, c);
      c.ip in next &&
      Paid(m, rate, burst, c) as real + next[c.ip].tokens + Refill(next[c.ip], rate, t) <= burst as real + Earned(t - s, rate)
  {
    hide Refilled, Earned;
    AtMostBurst(EntryFor(m, burst, c), rate, burst, c.since);
    var next := Step(m, rate, burst, c)[c.ip];
    EarnedIsPositive(t - s, rate);
    if t > next.lastTime {
      Distribute(t - next.lastTime, 0.0, t - s, rate);
      EarnedIsPositive(0.0, rate);
    }
    assert Refill(next, rate, t) <= Earned(t - s, rate);
  }

  // Every call of the address comes at least 1/rate after the lastTime of the one before.
  predicate Paced(last: real, calls: seq<Call>, ip: string, rate: real)
    decreases |calls|
  {
    calls == [] ||
    var c := calls[0];
    if c.ip == ip then
      Earned(c.since - last, rate) >= 1.0 && Paced(c.stored, calls[1..], ip, rate)
    else Paced(last, calls[1..], ip, rate)
  }

  lemma {:induction false} PacedEntryIsNeverRefused(m: Visitors, rate: real, burst: int, calls: seq<Call>, ip: string)
    requires Ready(m, rate, burst, calls) && ip in m && Paced(m[ip].lastTime, calls, ip, rate)
    ensures forall i :: 0 <= i < |calls| && calls[i].ip == ip ==> Answers(m, rate, burst, calls)[i]
    decreases |calls|
  {
    hide Refilled, Earned;
    if calls != [] {
      var c := calls[0];
      var next := Step(m, rate, burst, c);
      ReadyNext(m, rate, burst, calls);
      PacedEntryIsNeverRefused(next, rate, burst, calls[1..], ip);
      if c.ip == ip {
        EnoughAfterPause(m[ip], rate, burst, c.since);
      }
      var answers := Answers(m, rate, burst, calls);
      forall i | 0 <= i < |calls| && calls[i].ip == ip ensures answers[i] {
        if i > 0 {
          assert calls[1..][i - 1] == calls[i];
        }
      }
    }
  }

  lemma EnoughAfterPause(e: Entry, rate: real, burst: int, now: real)
    requires e.tokens >= 0.0 && burst > 0 && Earned(now - e.lastTime, rate) >= 1.0
    ensures Refilled(e, rate, burst, now) >= 1.0
  {
    hide Earned;
  }

  // A caller that keeps a pause of 1/rate between its calls is never refused, from its first call
  // on, whatever the others do.
  lemma {:induction false} PacedCallerIsNeverRefused(m: Visitors, rate: real, burst: int, calls: seq<Call>, ip: string, k: nat)
    requires Ready(m, rate, burst, calls) && ip !in m
    requires k < |calls| && calls[k].ip == ip && forall i :: 0 <= i < k ==> calls[i].ip != ip
    requires Paced(calls[k].stored, calls[k + 1..], ip, rate)
    ensures forall i :: 0 <= i < |calls| && calls[i].ip == ip ==> Answers(m, rate, burst, calls)[i]
    decreases |calls|
  {
    hide Refilled, Earned;
    var c := calls[0];
    var next := Step(m, rate, burst, c);
    ReadyNext(m, rate, burst, calls);
    if k == 0 {
      EarnedIsPositive(c.since - c.created, rate);
      FreshEntryAdmits(rate, burst, c);
      PacedEntryIsNeverRefused(next, rate, burst, calls[1..], ip);
    } else {
      assert calls[1..][k - 1] == calls[k] && calls[1..][k..] == calls[k + 1..];
      PacedCallerIsNeverRefused(next, rate, burst, calls[1..], ip, k - 1);
    }
    var answers := Answers(m, rate, burst, calls);
    forall i | 0 <= i < |calls| && calls[i].ip == ip ensures answers[i] {
      if i > 0 {
        assert calls[1..][i - 1] == calls[i];
      }
    }
  }

  lemma FreshEntryAdmits(rate: real, burst: int, c: Call)
    requires burst > 0 && Earned(c.since - c.created, rate) >= 0.0
    ensures Refilled(Entry(burst as real, c.created), rate, burst, c.since) >= 1.0
  {
    hide Earned;
  }

  // ---------- exactly which calls are admitted ----------

  function After(m: Visitors, rate: real, burst: int, calls: seq<Call>): Visitors {
    if calls == [] then m
    else Step(After(m, rate, burst, calls[..|calls| - 1]), rate, burst, calls[|calls| - 1])
  }

  lemma {:induction false} AfterStep(m: Visitors, rate: real, burst: int, calls: seq<Call>, n: nat)
    requires 0 < n <= |calls|
    ensures After(m, rate, burst, calls[..n]) == After(Step(m, rate, burst, calls[0]), rate, burst, calls[1..][..n - 1])
  {
    hide Step;
    assert calls[..n][..n - 1] == calls[..n - 1];
    if n == 1 {
      assert calls[..0] == [];
    } else {
      AfterStep(m, rate, burst, calls, n - 1);
      assert calls[1..][..n - 1][..n - 2] == calls[1..][..n - 2];
    }
  }

  lemma {:induction false} AnswerAt(m: Visitors, rate: real, burst: int, calls: seq<Call>, n: nat)
    requires n < |calls|
    ensures Answers(m, rate, burst, calls)[n] == Admits(After(m, rate, burst, calls[..n]), rate, burst, calls[n])
    decreases n
  {
    hide Step, Admits;
    if n > 0 {
      AnswerAt(Step(m, rate, burst, calls[0]), rate, burst, calls[1..], n - 1);
      AfterStep(m, rate, burst, calls, n);
    } else {
      assert calls[..0] == [];
    }
  }

  // The calls of one address, and the answers they got
  function Own(calls: seq<Call>, ip: string): seq<Call>
    decreases |calls|
  {
    if calls == [] then [] else (if calls[0].ip == ip then [calls[0]] else []) + Own(calls[1..], ip)
  }

  function OwnAnswers(calls: seq<Call>, answers: seq<bool>, ip: string): seq<bool>
    requires |calls| == |answers|
    decreases |calls|
  {
    if calls == [] then []
    else (if calls[0].ip == ip then [answers[0]] else []) + OwnAnswers(calls[1..], answers[1..], ip)
  }

  // Addresses do not affect each other: one gets the answers it would get alone.
  lemma {:induction false} OwnCallsDecide(m: Visitors, alone: Visitors, rate: real, burst: int, calls: seq<Call>, ip: string)
    requires ip in m <==> ip in alone
    requires ip in m ==> m[ip] == alone[ip]
    ensures OwnAnswers(calls, Answers(m, rate, burst, calls), ip) == Answers(alone, rate, burst, Own(calls, ip))
    decreases |calls|
  {
    hide Refilled;
    if calls != [] {
      var c := calls[0];
      var next := Step(m, rate, burst, c);
      assert Answers(m, rate, burst, calls)[1..] == Answers(next, rate, burst, calls[1..]);
      if c.ip == ip {
        OwnCallsDecide(next, Step(alone, rate, burst, c), rate, burst, calls[1..], ip);
        assert Own(calls, ip)[1..] == Own(calls[1..], ip);
      } else {
        OwnCallsDecide(next, alone, rate, burst, calls[1..], ip);
        assert Own(calls, ip) == Own(calls[1..], ip);
      }
    }
  }

  // What an address earns between its j-th and n-th calls, and how many calls from the j-th on,
  // before the n-th, were admitted
  function Income(own: seq<Call>, rate: real, j: nat, n: nat): real
    requires j <= n < |own|
    decreases n
  {
    if n == j then 0.0 else Income(own, rate, j, n - 1) + Earned(own[n].since - own[n - 1].stored, rate)
  }

  function Spent(answers: seq<bool>, j: nat, n: nat): nat
    requires j <= n <= |answers|
    decreases n
  {
    if n == j then 0 else Spent(answers, j, n - 1) + if answers[n - 1] then 1 else 0
  }

  // The tokens that the n-th call of an address finds
  function Found(m: Visitors, rate: real, burst: int, own: seq<Call>, n: nat): real
    requires n < |own|
  {
    var before := After(m, rate, burst, own[..n]);
    Refilled(EntryFor(before, burst, own[n]), rate, burst, own[n].since)
  }

  ghost predicate Single(own: seq<Call>, ip: string) {
    forall i :: 0 <= i < |own| ==> own[i].ip == ip
  }

  lemma FoundFirst(m: Visitors, rate: real, burst: int, own: seq<Call>)
    requires rate > 0.0 && burst > 0 && Ordered(own) && own != [] && own[0].ip !in m
    ensures Found(m, rate, burst, own, 0) == burst as real
  {
    hide Earned;
    assert own[..0] == [];
    assert own[0].created <= own[0].since;
    EarnedIsPositive(own[0].since - own[0].created, rate);
  }

  function Least(a: real, b: real): real { if a < b then a else b }

  lemma FoundNext(m: Visitors, rate: real, burst: int, own: seq<Call>, ip: string, n: nat)
    requires Single(own, ip) && n + 1 < |own|
    ensures var tokens := Found(m, rate, burst, own, n);
      Found(m, rate, burst, own, n + 1) ==
        Least(burst as real, tokens - (if tokens >= 1.0 then 1.0 else 0.0) + Earned(own[n + 1].since - own[n].stored, rate))
  {
    hide Earned;
    assert own[..n + 1][..n] == own[..n];
    assert own[n].ip == ip && own[n + 1].ip == ip;
  }

  // The tokens found are the least, over the address's calls so far, of a full bucket at that call
  // plus what was earned since minus what was spent since.
  lemma {:induction false} FoundIsLeast(m: Visitors, rate: real, burst: int, own: seq<Call>, ip: string, n: nat)
    requires rate > 0.0 && burst > 0 && Ordered(own) && Single(own, ip) && n < |own| && ip !in m
    ensures var answers := Answers(m, rate, burst, own);
      (forall j: nat :: j <= n ==>
        Found(m, rate, burst, own, n) <= burst as real + Income(own, rate, j, n) - Spent(answers, j, n) as real) &&
      exists j: nat :: j <= n &&
        Found(m, rate, burst, own, n) == burst as real + Income(own, rate, j, n) - Spent(answers, j, n) as real
  {
    hide Earned, Found, Answers, Admits;
    var answers := Answers(m, rate, burst, own);
    if n == 0 {
      FoundFirst(m, rate, burst, own);
      assert Found(m, rate, burst, own, 0) == burst as real + Income(own, rate, 0, 0) - Spent(answers, 0, 0) as real;
    } else {
      FoundIsLeast(m, rate, burst, own, ip, n - 1);
      FoundNext(m, rate, burst, own, ip, n - 1);
      AnswerIs(m, rate, burst, own, n - 1);
      var j: nat :| j <= n - 1 &&
        Found(m, rate, burst, own, n - 1) == burst as real + Income(own, rate, j, n - 1) - Spent(answers, j, n - 1) as real;
      var k := if Found(m, rate, burst, own, n) == burst as real then n else j;
      assert Found(m, rate, burst, own, n) == burst as real + Income(own, rate, k, n) - Spent(answers, k, n) as real;
    }
  }

  lemma AnswerIs(m: Visitors, rate: real, burst: int, own: seq<Call>, n: nat)
    requires n < |own|
    ensures Answers(m, rate, burst, own)[n] <==> Found(m, rate, burst, own, n) >= 1.0
  {
    hide Refilled, After;
    AnswerAt(m, rate, burst, own, n);
  }

  // Exactly which calls are admitted: alone with its own calls, an address not seen before has its
  // n-th call admitted if and only if, counted from each of its calls up to this one, the admitted
  // calls with this one are at most the burst plus what was earned.
  lemma AdmittedIff(m: Visitors, rate: real, burst: int, own: seq<Call>, ip: string, n: nat)
    requires rate > 0.0 && burst > 0 && Ordered(own) && Single(own, ip) && n < |own| && ip !in m
    ensures var answers := Answers(m, rate, burst, own);
      answers[n] <==> forall j: nat :: j <= n ==>
        Spent(answers, j, n) as real + 1.0 <= burst as real + Income(own, rate, j, n)
  {
    hide Found, Answers, Income, Spent;
    FoundIsLeast(m, rate, burst, own, ip, n);
    AnswerIs(m, rate, burst, own, n);
  }

  lemma {:induction false} OwnIsOrdered(calls: seq<Call>, ip: string)
    requires Ordered(calls)
    ensures Ordered(Own(calls, ip)) && Single(Own(calls, ip), ip)
    ensures Own(calls, ip) != [] ==> calls[0].created <= Own(calls, ip)[0].created
    decreases |calls|
  {
    if calls != [] {
      var rest := calls[1..];
      assert Ordered(rest) by {
        forall i | 0 <= i < |rest| - 1 ensures rest[i].stored <= rest[i + 1].created {
          assert calls[i + 1].stored <= calls[i + 1 + 1].created;
        }
      }
      OwnIsOrdered(rest, ip);
      if rest != [] { assert calls[0].stored <= calls[0 + 1].created; }
    }
  }

  lemma {:induction false} SpentAtMost(answers: seq<bool>, j: nat, n: nat)
    requires j <= n <= |answers|
    ensures Spent(answers, j, n) <= n - j
  {
    if n > j { SpentAtMost(answers, j, n - 1); }
  }

  lemma {:induction false} IncomeIsPositive(own: seq<Call>, rate: real, j: nat, n: nat)
    requires rate > 0.0 && Ordered(own) && j <= n < |own|
    ensures Income(own, rate, j, n) >= 0.0
  {
    hide Earned;
    if n > j {
      IncomeIsPositive(own, rate, j, n - 1);
      assert own[n - 1].stored <= own[n - 1 + 1].created <= own[n].since;
      EarnedIsPositive(own[n].since - own[n - 1].stored, rate);
    }
  }

  // In particular the first `burst` calls of an address are all admitted, however close together
  // and whatever the other addresses do.
  lemma BurstIsAdmitted(m: Visitors, rate: real, burst: int, calls: seq<Call>, ip: string, n: nat)
    requires rate > 0.0 && burst > 0 && Ordered(calls) && ip !in m
    requires n < |Own(calls, ip)| && n < burst
    ensures |OwnAnswers(calls, Answers(m, rate, burst, calls), ip)| == |Own(calls, ip)|
    ensures OwnAnswers(calls, Answers(m, rate, burst, calls), ip)[n]
  {
    hide Answers, Own, OwnAnswers, Income, Spent, Ordered, Single;
    var own := Own(calls, ip);
    OwnIsOrdered(calls, ip);
    OwnCallsDecide(m, m, rate, burst, calls, ip);
    AdmittedIff(m, rate, burst, own, ip, n);
    var answers := Answers(m, rate, burst, own);
    forall j: nat | j <= n ensures Spent(answers, j, n) as real + 1.0 <= burst as real + Income(own, rate, j, n) {
      SpentAtMost(answers, j, n);
      IncomeIsPositive(own, rate, j, n);
    }
  }
}
