/**
 The gate in front of the web SSH console: failure counters, single-use captchas and the list of
 security events (internal/cloud_vm_ssh_security.go), and the authentication steps that use them
 (internal/app_cloud_vm_ssh.go).
 */
module SshGate {
  import opened Wrappers
  import opened GoStrings

  const MAX_FAILS := 3
  const MAX_EVENTS := 200
  const CAPTCHA_TTL := 300

  // ---------- map keys ----------

  function FailKey(instance: int, user: string, ip: string): string {
    Itoa(instance) + "|" + user + "|" + ip
  }

  function CaptchaKey(instance: int, id: string): string {
    Itoa(instance) + ":" + id
  }

  lemma ItoaIsPlain(n: int)
    ensures '|' !in Itoa(n) && ':' !in Itoa(n)
  {
  }

  // The user may contain bars; the address must not.
  lemma FailKeyInjective(i: int, user: string, ip: string, j: int, user': string, ip': string)
    requires '|' !in ip && '|' !in ip'
    requires FailKey(i, user, ip) == FailKey(j, user', ip')
    ensures i == j && user == user' && ip == ip'
  {
    hide Itoa;
    ItoaIsPlain(i);
    ItoaIsPlain(j);
    assert FailKey(i, user, ip) == Itoa(i) + ['|'] + (user + ['|'] + ip);
    assert FailKey(j, user', ip') == Itoa(j) + ['|'] + (user' + ['|'] + ip');
    HeadUnique(Itoa(i), Itoa(j), user + ['|'] + ip, user' + ['|'] + ip', '|');
    TailUnique(user, user', ip, ip', '|');
    ItoaInjective(i, j);
  }

  // The condition is needed: addresses with a bar could share a counter. Client addresses come
  // parsed, so they never hold one.
  lemma FailKeyClash()
    ensures FailKey(1, "a", "b|c") == FailKey(1, "a|b", "c")
  {
    assert "a" + "|" + "b|c" == "a|b" + "|" + "c";
    var n := Itoa(1);
    assert n + "|" + "a" + "|" + "b|c" == n + "|" + ("a" + "|" + "b|c");
    assert n + "|" + "a|b" + "|" + "c" == n + "|" + ("a|b" + "|" + "c");
  }

  lemma CaptchaKeyInjective(i: int, id: string, j: int, id': string)
    requires CaptchaKey(i, id) == CaptchaKey(j, id')
    ensures i == j && id == id'
  {
    hide Itoa;
    ItoaIsPlain(i);
    ItoaIsPlain(j);
    HeadUnique(Itoa(i), Itoa(j), id, id', ':');
    ItoaInjective(i, j);
  }

  // ---------- state and operations as values ----------

  datatype Captcha = Captcha(answer: string, expires: int)

  datatype Event = Event(instance: int, user: string, ip: string)

  datatype State = State(fails: map<string, int>, captchas: map<string, Captcha>, events: seq<Event>)

  const EMPTY := State(map[], map[], [])

  datatype Dial = Accepted | Rejected | Unreachable

  // A captcha handed out, or a connection attempt with what it sent, the saved password if it can
  // be decrypted, and what the SSH server would answer.
  datatype Op =
    | Issue(instance: int, id: string, a: int, b: int, now: int)
    | Attempt(instance: int, user: string, ip: string, captchaId: string, captchaAnswer: string, now: int,
              password: string, saved: Option<string>, dial: Dial)

  datatype Outcome = Issued | CaptchaInvalid | PasswordRequired | AuthFailed | DialFailed | Connected

  function PlatformUser(user: string): string { if Blank(user) then "unknown" else user }

  function OwnKey(op: Op): string
    requires op.Attempt?
  {
    FailKey(op.instance, PlatformUser(op.user), op.ip)
  }

  function Count(s: State, key: string): int { if key in s.fails then s.fails[key] else 0 }

  function OwnCaptcha(op: Op): string
    requires op.Attempt?
  {
    CaptchaKey(op.instance, TrimSpace(op.captchaId))
  }

  // The attempt names a captcha and answers it.
  predicate Answers(op: Op)
    requires op.Attempt?
  {
    !Blank(op.captchaId) && !Blank(op.captchaAnswer)
  }

  predicate SameText(a: string, b: string) { ToLower(a) == ToLower(b) }

  predicate CaptchaValid(s: State, op: Op)
    requires op.Attempt?
  {
    Answers(op) && OwnCaptcha(op) in s.captchas &&
    !(op.now > s.captchas[OwnCaptcha(op)].expires) &&
    SameText(TrimSpace(s.captchas[OwnCaptcha(op)].answer), TrimSpace(op.captchaAnswer))
  }

  // Any answered try uses the captcha up, right or wrong.
  function AfterCaptcha(s: State, op: Op): State
    requires op.Attempt?
  {
    if Answers(op) then s.(captchas := s.captchas - {OwnCaptcha(op)}) else s
  }

  predicate Gated(s: State, op: Op)
    requires op.Attempt?
  {
    Count(s, OwnKey(op)) >= MAX_FAILS
  }

  predicate HasPassword(op: Op)
    requires op.Attempt?
  {
    !Blank(op.password) || (op.saved.Some? && !Blank(op.saved.value))
  }

  function DialOutcome(dial: Dial): Outcome {
    match dial case Accepted => Connected case Rejected => AuthFailed case Unreachable => DialFailed
  }

  function Outcomes(s: State, op: Op): Outcome {
    if op.Issue? then Issued
    else if Gated(s, op) && !CaptchaValid(s, op) then CaptchaInvalid
    else if !HasPassword(op) then PasswordRequired
    else DialOutcome(op.dial)
  }

  function Newest(events: seq<Event>): seq<Event> {
    if |events| > MAX_EVENTS then events[..MAX_EVENTS] else events
  }

  function AfterGate(s: State, op: Op): State
    requires op.Attempt?
  {
    if Gated(s, op) then AfterCaptcha(s, op) else s
  }

  function AfterDial(s: State, op: Op): State
    requires op.Attempt?
  {
    match op.dial
    case Rejected =>
      s.(fails := s.fails[OwnKey(op) := Count(s, OwnKey(op)) + 1],
         events := Newest([Event(op.instance, PlatformUser(op.user), op.ip)] + s.events))
    case Accepted => s.(fails := s.fails - {OwnKey(op)})
    case Unreachable => s
  }

  function Step(s: State, op: Op): State {
    if op.Issue? then
      s.(captchas := s.captchas[CaptchaKey(op.instance, op.id) := Captcha(Itoa(op.a + op.b), op.now + CAPTCHA_TTL)])
    else if (Gated(s, op) && !CaptchaValid(s, op)) || !HasPassword(op) then AfterGate(s, op)
    else AfterDial(AfterGate(s, op), op)
  }

  // ---------- the shared state as the code updates it ----------

  class Gate {
    var fails: map<string, int>
    var captchas: map<string, Captcha>
    var events: seq<Event>

    constructor ()
      ensures View() == EMPTY
    {
      fails, captchas, events := map[], map[], [];
    }

    ghost function View(): State
      reads this
    {
      State(fails, captchas, events)
    }

    method GetFailCount(instance: int, user: string, ip: string) returns (n: int)
      ensures n == Count(View(), FailKey(instance, user, ip))
    {
      var key := FailKey(instance, user, ip);
      n := if key in fails then fails[key] else 0;
    }

    method ClearFailCount(instance: int, user: string, ip: string)
      modifies this`fails
      ensures fails == old(fails) - {FailKey(instance, user, ip)}
    {
      fails := fails - {FailKey(instance, user, ip)};
    }

    method IncrFailCount(instance: int, user: string, ip: string) returns (n: int)
      modifies this`fails
      ensures n == old(Count(View(), FailKey(instance, user, ip))) + 1
      ensures fails == old(fails)[FailKey(instance, user, ip) := n]
    {
      var key := FailKey(instance, user, ip);
      if key !in fails {
        fails := fails[key := 0];
      }
      fails := fails[key := fails[key] + 1];
      n := fails[key];
    }

    method RecordSecurityEvent(ev: Event)
      modifies this`events
      ensures events == Newest([ev] + old(events))
    {
      events := [ev] + events;
      if |events| > MAX_EVENTS {
        events := events[..MAX_EVENTS];
      }
    }

    method IssueCaptcha(instance: int, id: string, a: int, b: int, now: int)
      modifies this`captchas
      ensures View() == Step(old(View()), Issue(instance, id, a, b, now))
    {
      captchas := captchas[CaptchaKey(instance, id) := Captcha(Itoa(a + b), now + CAPTCHA_TTL)];
    }

    method ValidateCaptcha(instance: int, rawId: string, rawAnswer: string, now: int, ghost op: Op) returns (ok: bool)
      requires op.Attempt? && op.instance == instance && op.captchaId == rawId && op.captchaAnswer == rawAnswer && op.now == now
      modifies this`captchas
      ensures ok == CaptchaValid(old(View()), op)
      ensures View() == AfterCaptcha(old(View()), op)
    {
      hide TrimSpace, CaptchaKey;
      var id, answer := TrimSpace(rawId), TrimSpace(rawAnswer);
      if id == "" || answer == "" {
        return false;
      }
      var k := CaptchaKey(instance, id);
      if k !in captchas || now > captchas[k].expires {
        captchas := captchas - {k};
        return false;
      }
      var ent := captchas[k];
      captchas := captchas - {k};
      return SameText(TrimSpace(ent.answer), answer);
    }

    // The check that precedes a dial.
    method PassGate(op: Op, platformUser: string) returns (ok: bool)
      requires op.Attempt? && platformUser == PlatformUser(op.user)
      modifies this`captchas
      ensures ok <==> !(Gated(old(View()), op) && !CaptchaValid(old(View()), op))
      ensures View() == AfterGate(old(View()), op)
    {
      hide TrimSpace, FailKey, AfterCaptcha, CaptchaValid;
      var fc := GetFailCount(op.instance, platformUser, op.ip);
      ok := true;
      if fc >= MAX_FAILS {
        ok := ValidateCaptcha(op.instance, op.captchaId, op.captchaAnswer, op.now, op);
      }
    }

    // The dial, and what its result does to the counter.
    method DialServer(op: Op, platformUser: string) returns (r: Outcome)
      requires op.Attempt? && platformUser == PlatformUser(op.user)
      modifies this`fails, this`events
      ensures r == DialOutcome(op.dial)
      ensures View() == AfterDial(old(View()), op)
    {
      hide TrimSpace, FailKey, Newest;
      match op.dial
      case Rejected =>
        var n := IncrFailCount(op.instance, platformUser, op.ip);
        RecordSecurityEvent(Event(op.instance, platformUser, op.ip));
        return AuthFailed;
      case Unreachable =>
        return DialFailed;
      case Accepted =>
        ClearFailCount(op.instance, platformUser, op.ip);
        return Connected;
    }

    // The authentication part of the console handler.
    method Authenticate(op: Op) returns (r: Outcome)
      requires op.Attempt?
      modifies this
      ensures r == Outcomes(old(View()), op)
      ensures View() == Step(old(View()), op)
    {
      hide TrimSpace, AfterGate, AfterDial, Gated, CaptchaValid;
      var platformUser := op.user;
      if TrimSpace(platformUser) == "" {
        platformUser := "unknown";
      }
      var ok := PassGate(op, platformUser);
      if !ok {
        return CaptchaInvalid;
      }
      var pw := TrimSpace(op.password);
      if pw == "" {
        if op.saved.Some? && TrimSpace(op.saved.value) != "" {
          pw := TrimSpace(op.saved.value);
        }
      }
      if pw == "" {
        return PasswordRequired;
      }
      r := DialServer(op, platformUser);
    }
  }

  // ---------- whole runs ----------

  function Run(ops: seq<Op>): State {
    if ops == [] then EMPTY else Step(Run(ops[..|ops| - 1]), ops[|ops| - 1])
  }

  // The state before operation i, and what that operation answers.
  function Before(ops: seq<Op>, i: nat): State
    requires i <= |ops|
  {
    Run(ops[..i])
  }

  function OutcomeAt(ops: seq<Op>, i: nat): Outcome
    requires i < |ops|
  {
    Outcomes(Before(ops, i), ops[i])
  }

  lemma RunNext(ops: seq<Op>, i: nat)
    requires i < |ops|
    ensures Before(ops, i + 1) == Step(Before(ops, i), ops[i])
  {
    hide Step;
    assert ops[..i + 1][..i] == ops[..i];
  }

  lemma NothingAtStart(ops: seq<Op>)
    ensures Before(ops, 0) == EMPTY
  {
    assert ops[..0] == [];
  }

  predicate By(op: Op, instance: int, user: string, ip: string) {
    op.Attempt? && op.instance == instance && (if Blank(op.user) then "unknown" else op.user) == user && op.ip == ip
  }

  // Authentication failures of one caller since its last success, read off the answers.
  function FailuresSinceSuccess(ops: seq<Op>, i: nat, instance: int, user: string, ip: string): nat
    requires i <= |ops|
  {
    if i == 0 then 0
    else
      var n := FailuresSinceSuccess(ops, i - 1, instance, user, ip);
      if !By(ops[i - 1], instance, user, ip) then n
      else match OutcomeAt(ops, i - 1) case Connected => 0 case AuthFailed => n + 1 case _ => n
  }

  ghost predicate PlainAddresses(ops: seq<Op>) {
    forall op :: op in ops && op.Attempt? ==> '|' !in op.ip
  }

  lemma StepCounts(s: State, op: Op, key: string)
    ensures
      Count(Step(s, op), key) ==
        if op.Issue? || OwnKey(op) != key then Count(s, key)
        else match Outcomes(s, op) case Connected => 0 case AuthFailed => Count(s, key) + 1 case _ => Count(s, key)
  {
    hide FailKey, CaptchaValid, Newest, TrimSpace;
  }

  // In every run, the counter of a caller is its number of authentication failures since its last
  // success.
  lemma {:induction false} CounterIsFailures(ops: seq<Op>, i: nat, instance: int, user: string, ip: string)
    requires i <= |ops| && PlainAddresses(ops) && '|' !in ip
    ensures Count(Before(ops, i), FailKey(instance, user, ip)) == FailuresSinceSuccess(ops, i, instance, user, ip)
  {
    hide Step, Outcomes, FailKey, Blank;
    if i == 0 {
      assert ops[..0] == [];
    } else {
      var op, key := ops[i - 1], FailKey(instance, user, ip);
      CounterIsFailures(ops, i - 1, instance, user, ip);
      RunNext(ops, i - 1);
      StepCounts(Before(ops, i - 1), op, key);
      assert op in ops;
      if op.Attempt? && OwnKey(op) == key {
        FailKeyInjective(op.instance, PlatformUser(op.user), op.ip, instance, user, ip);
      }
    }
  }

  // ---------- captchas are used once ----------

  // Operation j hands out the captcha stored under this key.
  predicate Issues(ops: seq<Op>, j: nat, key: string)
    requires j < |ops|
  {
    ops[j].Issue? && CaptchaKey(ops[j].instance, ops[j].id) == key
  }

  // Attempt i answers the captcha stored under this key, right or wrong.
  predicate Tries(ops: seq<Op>, i: nat, key: string)
    requires i < |ops|
  {
    ops[i].Attempt? && Gated(Before(ops, i), ops[i]) && Answers(ops[i]) && OwnCaptcha(ops[i]) == key
  }

  // The captcha now stored under the key was issued at j, and neither issued again nor answered since.
  ghost predicate IssuedAt(ops: seq<Op>, i: nat, key: string, j: nat)
    requires i <= |ops|
  {
    j < i && Issues(ops, j, key) &&
    key in Before(ops, i).captchas &&
    Before(ops, i).captchas[key] == Captcha(Itoa(ops[j].a + ops[j].b), ops[j].now + CAPTCHA_TTL) &&
    forall k :: j < k < i ==> !Tries(ops, k, key) && !Issues(ops, k, key)
  }

  lemma StepCaptchas(s: State, op: Op, key: string)
    ensures
      var t := Step(s, op);
      if op.Issue? && CaptchaKey(op.instance, op.id) == key then
        key in t.captchas && t.captchas[key] == Captcha(Itoa(op.a + op.b), op.now + CAPTCHA_TTL)
      else if op.Attempt? && Gated(s, op) && Answers(op) && OwnCaptcha(op) == key then
        key !in t.captchas
      else
        (key in t.captchas <==> key in s.captchas) && (key in t.captchas ==> t.captchas[key] == s.captchas[key])
  {
    hide FailKey, CaptchaKey, CaptchaValid, HasPassword, Newest, TrimSpace, Count;
  }

  lemma {:induction false} StoredCaptchasWereIssued(ops: seq<Op>, i: nat, key: string) returns (j: nat)
    requires i <= |ops| && key in Before(ops, i).captchas
    ensures IssuedAt(ops, i, key, j)
  {
    hide Step, CaptchaKey, Answers, OwnCaptcha, Gated, Itoa;
    j := 0;
    NothingAtStart(ops);
    if i > 0 {
      RunNext(ops, i - 1);
      StepCaptchas(Before(ops, i - 1), ops[i - 1], key);
      if Issues(ops, i - 1, key) {
        j := i - 1;
      } else {
        j := StoredCaptchasWereIssued(ops, i - 1, key);
        assert !Tries(ops, i - 1, key);
      }
    }
  }

  // Conversely, what was issued stays stored until it is issued again or answered.
  lemma {:induction false} IssuedCaptchasStay(ops: seq<Op>, i: nat, key: string, j: nat)
    requires j < i <= |ops| && Issues(ops, j, key)
    requires forall k :: j < k < i ==> !Tries(ops, k, key) && !Issues(ops, k, key)
    ensures IssuedAt(ops, i, key, j)
  {
    hide Step, CaptchaKey, Answers, OwnCaptcha, Gated, Itoa;
    RunNext(ops, i - 1);
    StepCaptchas(Before(ops, i - 1), ops[i - 1], key);
    if j < i - 1 {
      IssuedCaptchasStay(ops, i - 1, key, j);
      assert !Tries(ops, i - 1, key) && !Issues(ops, i - 1, key);
    }
  }

  // Digits have no case: only the number itself is the right answer.
  lemma OnlyTheNumber(n: int, answer: string)
    ensures SameText(Itoa(n), answer) <==> answer == Itoa(n)
  {
    var digits := Itoa(n);
    assert forall i :: 0 <= i < |digits| ==> digits[i] in digits;
    if SameText(digits, answer) {
      assert |digits| == |answer| && forall i :: 0 <= i < |digits| ==> ToLower(digits)[i] == ToLower(answer)[i];
      assert forall i :: 0 <= i < |digits| ==> ToLowerChar(digits[i]) == digits[i];
      assert forall i :: 0 <= i < |digits| ==> ToLowerChar(answer[i]) == digits[i];
      hide ToLower, Itoa;
      assert forall i :: 0 <= i < |digits| ==> answer[i] == digits[i];
    }
  }

  // An attempt that reaches the SSH server although its caller has failed three times or more.
  predicate GatedDial(ops: seq<Op>, i: nat)
    requires i < |ops|
  {
    ops[i].Attempt? && Gated(Before(ops, i), ops[i]) &&
    (OutcomeAt(ops, i) == Connected || OutcomeAt(ops, i) == AuthFailed || OutcomeAt(ops, i) == DialFailed)
  }

  // The captcha that let a gated dial through: issued earlier for the same instance, under the id
  // the caller sent, not expired, answered correctly, and not answered by anyone in between.
  ghost predicate Unlocks(ops: seq<Op>, j: nat, i: nat)
    requires i < |ops|
  {
    j < i && ops[j].Issue? && ops[i].Attempt? &&
    ops[j].instance == ops[i].instance && ops[j].id == TrimSpace(ops[i].captchaId) &&
    ops[i].now <= ops[j].now + CAPTCHA_TTL &&
    TrimSpace(ops[i].captchaAnswer) == Itoa(ops[j].a + ops[j].b) &&
    forall k :: j < k < i ==> !Tries(ops, k, OwnCaptcha(ops[i]))
  }

  lemma ItoaIsTrimmed(n: int)
    ensures TrimSpace(Itoa(n)) == Itoa(n)
  {
    assert Itoa(n)[0] in Itoa(n) && Itoa(n)[|Itoa(n)| - 1] in Itoa(n);
  }

  lemma GatedDialIsUnlocked(ops: seq<Op>, i: nat) returns (j: nat)
    requires i < |ops|
    ensures GatedDial(ops, i) ==> Unlocks(ops, j, i)
  {
    hide Step, CaptchaKey, Gated, Itoa, TrimSpace, SameText;
    var s, op := Before(ops, i), ops[i];
    j := 0;
    if GatedDial(ops, i) {
      assert CaptchaValid(s, op);
      j := StoredCaptchasWereIssued(ops, i, OwnCaptcha(op));
      ItoaIsTrimmed(ops[j].a + ops[j].b);
      OnlyTheNumber(ops[j].a + ops[j].b, TrimSpace(op.captchaAnswer));
      CaptchaKeyInjective(ops[j].instance, ops[j].id, op.instance, TrimSpace(op.captchaId));
    }
  }

  // Two gated dials never rest on the same captcha; more than that, once a captcha has been
  // answered, even wrongly, no later dial rests on it.
  lemma CaptchaUnlocksOnce(ops: seq<Op>, j: nat, i: nat, k: nat)
    requires i < |ops| && j < k < i && Unlocks(ops, j, i)
    ensures !Tries(ops, k, OwnCaptcha(ops[i]))
    ensures GatedDial(ops, k) ==> !Unlocks(ops, j, k)
  {
    hide Step, CaptchaKey, Gated, Itoa, TrimSpace, SameText;
  }

  // ---------- exactly what an attempt is answered ----------

  // The caller of attempt i has failed three times or more since its last success.
  predicate Limited(ops: seq<Op>, i: nat)
    requires i < |ops|
  {
    ops[i].Attempt? &&
    FailuresSinceSuccess(ops, i, ops[i].instance, if Blank(ops[i].user) then "unknown" else ops[i].user, ops[i].ip) >= 3
  }

  // Such an attempt answers a captcha, right or wrong.
  predicate Spends(ops: seq<Op>, i: nat, instance: int, id: string)
    requires i < |ops|
  {
    Limited(ops, i) && ops[i].instance == instance && TrimSpace(ops[i].captchaId) == id &&
    id != "" && TrimSpace(ops[i].captchaAnswer) != ""
  }

  // Attempt i gives the number asked for by the captcha that was last issued under its id, at j, no
  // more than 300 seconds ago, and nobody has answered since.
  ghost predicate Right(ops: seq<Op>, j: nat, i: nat)
    requires i < |ops|
  {
    j < i && ops[j].Issue? && ops[i].Attempt? && ops[j].instance == ops[i].instance &&
    ops[j].id == TrimSpace(ops[i].captchaId) && ops[j].id != "" &&
    TrimSpace(ops[i].captchaAnswer) == Itoa(ops[j].a + ops[j].b) && ops[i].now <= ops[j].now + 300 &&
    forall k :: j < k < i ==>
      !Spends(ops, k, ops[j].instance, ops[j].id) &&
      !(ops[k].Issue? && ops[k].instance == ops[j].instance && ops[k].id == ops[j].id)
  }

  lemma GatedIsLimited(ops: seq<Op>, i: nat)
    requires i < |ops| && PlainAddresses(ops) && ops[i].Attempt?
    ensures Gated(Before(ops, i), ops[i]) <==> Limited(ops, i)
  {
    hide Step, Outcomes, FailKey, Blank;
    assert ops[i] in ops;
    CounterIsFailures(ops, i, ops[i].instance, PlatformUser(ops[i].user), ops[i].ip);
  }

  lemma SameEvents(ops: seq<Op>, k: nat, instance: int, id: string)
    requires k < |ops| && PlainAddresses(ops) && id != ""
    ensures Tries(ops, k, CaptchaKey(instance, id)) <==> Spends(ops, k, instance, id)
    ensures Issues(ops, k, CaptchaKey(instance, id)) <==>
      ops[k].Issue? && ops[k].instance == instance && ops[k].id == id
  {
    hide CaptchaKey, Step, TrimSpace, Gated, FailuresSinceSuccess;
    assert Limited(ops, k) ==> ops[k].Attempt?;
    hide Limited;
    if ops[k].Attempt? {
      GatedIsLimited(ops, k);
      assert Answers(ops[k]) <==> TrimSpace(ops[k].captchaId) != "" && TrimSpace(ops[k].captchaAnswer) != "";
      if OwnCaptcha(ops[k]) == CaptchaKey(instance, id) {
        CaptchaKeyInjective(ops[k].instance, TrimSpace(ops[k].captchaId), instance, id);
      }
    } else if CaptchaKey(ops[k].instance, ops[k].id) == CaptchaKey(instance, id) {
      CaptchaKeyInjective(ops[k].instance, ops[k].id, instance, id);
    }
  }

  lemma ValidIffRight(ops: seq<Op>, i: nat)
    requires i < |ops| && PlainAddresses(ops) && ops[i].Attempt?
    ensures CaptchaValid(Before(ops, i), ops[i]) <==> exists j: nat :: Right(ops, j, i)
  {
    hide Step, CaptchaKey, Gated, Itoa, TrimSpace, SameText, Limited, Spends, Tries, Issues, ToLower;
    var s, op := Before(ops, i), ops[i];
    var id := TrimSpace(op.captchaId);
    if id != "" {
      forall k: nat | k < |ops|
        ensures Tries(ops, k, OwnCaptcha(op)) <==> Spends(ops, k, op.instance, id)
        ensures Issues(ops, k, OwnCaptcha(op)) <==> ops[k].Issue? && ops[k].instance == op.instance && ops[k].id == id
      {
        SameEvents(ops, k, op.instance, id);
      }
      if CaptchaValid(s, op) {
        var j := StoredCaptchasWereIssued(ops, i, OwnCaptcha(op));
        ItoaIsTrimmed(ops[j].a + ops[j].b);
        OnlyTheNumber(ops[j].a + ops[j].b, TrimSpace(op.captchaAnswer));
        assert Right(ops, j, i);
      }
      if j: nat :| Right(ops, j, i) {
        IssuedCaptchasStay(ops, i, OwnCaptcha(op), j);
        ItoaIsTrimmed(ops[j].a + ops[j].b);
        OnlyTheNumber(ops[j].a + ops[j].b, TrimSpace(op.captchaAnswer));
        assert Itoa(ops[j].a + ops[j].b) != "";
      }
    }
  }

  // In every run: an attempt is refused for its captcha exactly when its caller has failed three
  // times since its last success and does not give the right answer to a captcha that is still good.
  // Otherwise it needs a password, sent or saved, and the SSH server's word decides.
  lemma AnswerIs(ops: seq<Op>, i: nat)
    requires i < |ops| && PlainAddresses(ops) && ops[i].Attempt?
    ensures OutcomeAt(ops, i) ==
      if Limited(ops, i) && !exists j: nat :: Right(ops, j, i) then CaptchaInvalid
      else if Blank(ops[i].password) && (ops[i].saved.None? || Blank(ops[i].saved.value)) then PasswordRequired
      else match ops[i].dial case Accepted => Connected case Rejected => AuthFailed case Unreachable => DialFailed
  {
    hide Step, Gated, Limited, CaptchaValid, Right, Blank;
    GatedIsLimited(ops, i);
    ValidIffRight(ops, i);
  }

  // ---------- the event list ----------

  // All failures so far, newest first.
  function FailureHistory(ops: seq<Op>, i: nat): seq<Event>
    requires i <= |ops|
  {
    if i == 0 then []
    else
      var op := ops[i - 1];
      if op.Attempt? && OutcomeAt(ops, i - 1) == AuthFailed then
        [Event(op.instance, if Blank(op.user) then "unknown" else op.user, op.ip)] + FailureHistory(ops, i - 1)
      else FailureHistory(ops, i - 1)
  }

  lemma StepEvents(s: State, op: Op)
    ensures Step(s, op).events ==
      if op.Attempt? && Outcomes(s, op) == AuthFailed then
        Newest([Event(op.instance, PlatformUser(op.user), op.ip)] + s.events)
      else s.events
  {
    hide FailKey, CaptchaKey, Newest, TrimSpace, Count;
  }

  lemma {:induction false} EventsAreHistory(ops: seq<Op>, i: nat)
    requires i <= |ops|
    ensures Before(ops, i).events == Newest(FailureHistory(ops, i))
  {
    hide Step, Outcomes, Blank;
    if i == 0 {
      assert ops[..0] == [];
    } else {
      EventsAreHistory(ops, i - 1);
      RunNext(ops, i - 1);
      StepEvents(Before(ops, i - 1), ops[i - 1]);
    }
  }

  // The event list is the newest 200 failures, newest first.
  lemma EventsAreNewest(ops: seq<Op>, i: nat)
    requires i <= |ops|
    ensures var history := FailureHistory(ops, i);
      Before(ops, i).events == if |history| > 200 then history[..200] else history
  {
    hide FailureHistory, Before;
    EventsAreHistory(ops, i);
  }
}
