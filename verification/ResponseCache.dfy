/**
 The short-lived cache of JSON answers (internal/api_response_cache.go): the writer that captures a
 response while it is sent, and the middleware that stores and replays it.
 */
module ResponseCache {
  import opened Wrappers
  import opened GoStrings

  // ---------- the capturing writer ----------

  // What a handler does to its response. WriteString belongs to the embedded writer, so text
  // written that way, as io.WriteString or a template would, reaches the client uncaptured.
  datatype Op = WriteHeader(code: int) | Write(bytes: string) | WriteString(text: string)
  {
    predicate Body() { !WriteHeader? }
  }

  // The wrapper's fields, and the embedded writer: its status, whether the header is on its way,
  // and the bytes sent. A header call after the first body byte, or with no positive code, changes
  // nothing there.
  datatype Capture = Capture(buf: string, status: int, sentStatus: int, begun: bool, sent: string)

  const NOTHING := Capture("", 0, 200, false, "")

  function StepCapture(max: int, w: Capture, op: Op): Capture {
    match op
    case WriteHeader(code) =>
      w.(status := code, sentStatus := if !w.begun && code > 0 then code else w.sentStatus)
    case Write(b) =>
      Capture(if |w.buf| < max then w.buf + b else w.buf, if w.status == 0 then 200 else w.status,
              w.sentStatus, true, w.sent + b)
    case WriteString(t) => w.(begun := true, sent := w.sent + t)
  }

  function Captured(max: int, ops: seq<Op>): Capture {
    if ops == [] then NOTHING else StepCapture(max, Captured(max, ops[..|ops| - 1]), ops[|ops| - 1])
  }

  class Writer {
    var buf: string
    var status: int
    const max: int
    var sentStatus: int
    var begun: bool
    var sent: string

    constructor (max: int)
      ensures this.max == max && View() == NOTHING
    {
      this.max, buf, status, sentStatus, begun, sent := max, "", 0, 200, false, "";
    }

    ghost function View(): Capture
      reads this
    {
      Capture(buf, status, sentStatus, begun, sent)
    }

    method WriteHeader(code: int)
      modifies this
      ensures View() == StepCapture(max, old(View()), Op.WriteHeader(code))
    {
      status := code;
      if code > 0 && !begun {
        sentStatus := code;
      }
    }

    method Write(b: string)
      modifies this
      ensures View() == StepCapture(max, old(View()), Op.Write(b))
    {
      if status == 0 {
        status := 200;
      }
      if |buf| < max {
        buf := buf + b;
      }
      begun, sent := true, sent + b;
    }

    method WriteString(t: string)
      modifies this
      ensures View() == StepCapture(max, old(View()), Op.WriteString(t))
    {
      begun, sent := true, sent + t;
    }

    method Serve(ops: seq<Op>)
      requires View() == NOTHING
      modifies this
      ensures View() == Captured(max, ops)
    {
      for i := 0 to |ops|
        invariant View() == Captured(max, ops[..i])
      {
        assert ops[..i + 1][..i] == ops[..i];
        match ops[i]
        case WriteHeader(code) => WriteHeader(code);
        case Write(b) => Write(b);
        case WriteString(t) => WriteString(t);
      }
      assert ops[..|ops|] == ops;
    }
  }

  // Everything passed to Write, and everything that reached the client
  function Written(ops: seq<Op>): string {
    if ops == [] then ""
    else Written(ops[..|ops| - 1]) + if ops[|ops| - 1].Write? then ops[|ops| - 1].bytes else ""
  }

  function Sent(ops: seq<Op>): string {
    if ops == [] then ""
    else
      Sent(ops[..|ops| - 1]) +
      match ops[|ops| - 1]
      case WriteHeader(_) => ""
      case Write(b) => b
      case WriteString(t) => t
  }

  ghost predicate NoStrings(ops: seq<Op>) {
    forall i :: 0 <= i < |ops| ==> !ops[i].WriteString? || ops[i].text == ""
  }

  // The buffer is a prefix of what was written, and all of it exactly while it stays below the limit.
  lemma {:induction false} CaptureIsPrefix(max: int, ops: seq<Op>)
    ensures var w := Captured(max, ops);
      w.buf <= Written(ops) && w.sent == Sent(ops) &&
      (|w.buf| < max <==> |Written(ops)| < max) && (|w.buf| < max ==> w.buf == Written(ops))
  {
    if ops != [] { CaptureIsPrefix(max, ops[..|ops| - 1]); }
  }

  lemma {:induction false} WrittenLength(ops: seq<Op>)
    ensures |Written(ops)| <= |Sent(ops)|
    ensures NoStrings(ops) ==> Written(ops) == Sent(ops)
    ensures !NoStrings(ops) ==> |Written(ops)| < |Sent(ops)|
  {
    if ops != [] {
      WrittenLength(ops[..|ops| - 1]);
    }
  }

  // A buffer below the limit is the whole answer exactly when nothing bypassed the capture.
  lemma CaptureIsComplete(max: int, ops: seq<Op>)
    requires |Captured(max, ops).buf| < max
    ensures Captured(max, ops).buf == Sent(ops) <==> NoStrings(ops)
  {
    hide Captured, Written, Sent, NoStrings;
    CaptureIsPrefix(max, ops);
    WrittenLength(ops);
  }

  // Text that bypasses the capture is missing from it, here with a byte after it that is not.
  lemma BypassedTextIsMissing()
    ensures var w := Captured(10, [WriteString("a"), Write("b")]); w.buf == "b" && w.sent == "ab" && w.status == 200
  {
    var ops := [WriteString("a"), Write("b")];
    assert ops[..1] == [WriteString("a")] && ops[..1][..0] == [];
    assert Captured(10, ops[..1]) == Capture("", 0, 200, true, "a");
  }

  // ---------- the status that the client gets ----------

  // The last positive code, 200 by default
  function LastCode(ops: seq<Op>): int {
    if ops == [] then 200
    else
      var last := ops[|ops| - 1];
      if last.WriteHeader? && last.code > 0 then last.code else LastCode(ops[..|ops| - 1])
  }

  // The calls before the first body byte
  function Head(ops: seq<Op>): (r: seq<Op>)
    ensures r <= ops
  {
    if ops == [] || ops[0].Body() then [] else [ops[0]] + Head(ops[1..])
  }

  // The client gets the last code set before the body.
  lemma {:induction false} SentStatusIs(max: int, ops: seq<Op>)
    ensures var w := Captured(max, ops);
      w.sentStatus == LastCode(Head(ops)) && (w.begun <==> Head(ops) != ops) && (w.buf != "" ==> w.begun)
  {
    if ops != [] {
      SentStatusIs(max, ops[..|ops| - 1]);
      HeadSnoc(ops[..|ops| - 1], ops[|ops| - 1]);
      assert ops[..|ops| - 1] + [ops[|ops| - 1]] == ops;
    }
  }

  lemma {:induction false} HeadSnoc(ops: seq<Op>, op: Op)
    ensures Head(ops + [op]) == if Head(ops) == ops && !op.Body() then ops + [op] else Head(ops)
  {
    if ops == [] {
      assert ([] + [op])[1..] == [];
    } else {
      assert (ops + [op])[1..] == ops[1..] + [op];
      HeadSnoc(ops[1..], op);
      assert [ops[0]] + ops[1..] == ops;
    }
  }

  // Header calls come before the body, with real codes, as net/http asks.
  ghost predicate Timely(ops: seq<Op>) {
    forall j :: 0 <= j < |ops| && ops[j].WriteHeader? ==>
      ops[j].code > 0 && forall i :: 0 <= i < j ==> !ops[i].Body()
  }

  // Then the captured status, once there is one, is the one that was sent.
  lemma {:induction false} TimelyStatusIsSent(max: int, ops: seq<Op>)
    requires Timely(ops)
    ensures var w := Captured(max, ops);
      (w.status != 0 ==> w.status == w.sentStatus) && (w.status == 0 ==> w.sentStatus == 200)
    ensures Captured(max, ops).begun ==> exists i :: 0 <= i < |ops| && ops[i].Body()
  {
    if ops != [] {
      var front := ops[..|ops| - 1];
      assert forall j :: 0 <= j < |front| ==> front[j] == ops[j];
      TimelyStatusIsSent(max, front);
    }
  }

  // A header call after the body is taken for the status although it came too late.
  lemma LateHeaderIsTaken()
    ensures var w := Captured(10, [WriteHeader(500), Write("x"), WriteHeader(200)]);
      w.status == 200 && w.buf == "x" && w.sentStatus == 500
  {
    var ops := [WriteHeader(500), Write("x"), WriteHeader(200)];
    assert ops[..2] == [WriteHeader(500), Write("x")] && ops[..2][..1] == [WriteHeader(500)] && ops[..2][..1][..0] == [];
    assert Captured(10, ops[..2][..1]) == Capture("", 500, 500, false, "");
    assert Captured(10, ops[..2]) == Capture("x", 500, 500, true, "x");
  }

  // ---------- keys and lifetimes ----------

  // What the middleware is configured with: the digest of a key (hexadecimal text), the prefix of
  // the keys in Redis, the lifetime rules in order and the size limit.
  datatype Site = Site(disabled: bool, digest: string -> string, prefix: string, rules: seq<(string, int)>, max: int)

  datatype Request = Request(get: bool, cacheControl: string, nocache: bool, role: string, path: string, query: string)

  function Prefix(prefix: string): string {
    var p := TrimSpace(prefix);
    if p == "" then "labplane:" else if p[|p| - 1] == ':' then p else p + ":"
  }

  function Key(site: Site, q: Request): string {
    Prefix(site.prefix) + "apicache:v1:" + site.digest(TrimSpace(q.role) + ['\0'] + q.path + ['\0'] + q.query)
  }

  // apiResponseCacheTTL: the first rule whose prefix matches, in seconds
  function Lifetime(rules: seq<(string, int)>, path: string): int {
    if rules == [] then 0
    else if rules[0].0 <= path then rules[0].1
    else Lifetime(rules[1..], path)
  }

  // The first rule that matches decides, and without one, at i == |rules|, there is no caching.
  lemma {:induction false} LifetimeIsFirstMatch(rules: seq<(string, int)>, path: string, i: nat)
    requires i <= |rules| && forall j :: 0 <= j < i ==> !(rules[j].0 <= path)
    requires i < |rules| ==> rules[i].0 <= path
    ensures Lifetime(rules, path) == if i < |rules| then rules[i].1 else 0
  {
    if i > 0 {
      var rest := rules[1..];
      assert forall j :: 0 <= j < |rest| ==> rest[j] == rules[j + 1];
      LifetimeIsFirstMatch(rest, path, i - 1);
    }
  }

  predicate SameTarget(q: Request, r: Request) {
    TrimSpace(q.role) == TrimSpace(r.role) && q.path == r.path && q.query == r.query
  }

  ghost predicate CollisionFree(digest: string -> string) {
    forall a, b :: digest(a) == digest(b) ==> a == b
  }

  ghost predicate NulFree(q: Request) {
    '\0' !in TrimSpace(q.role) && '\0' !in q.path
  }

  lemma KeyInjective(site: Site, q: Request, r: Request)
    requires CollisionFree(site.digest) && NulFree(q) && NulFree(r)
    ensures Key(site, q) == Key(site, r) <==> SameTarget(q, r)
  {
    hide TrimSpace, Prefix;
    if Key(site, q) == Key(site, r) {
      var a := TrimSpace(q.role) + ['\0'] + q.path + ['\0'] + q.query;
      var b := TrimSpace(r.role) + ['\0'] + r.path + ['\0'] + r.query;
      var p := Prefix(site.prefix) + "apicache:v1:";
      assert (p + site.digest(a))[|p|..] == site.digest(a);
      assert (p + site.digest(b))[|p|..] == site.digest(b);
      assert a == TrimSpace(q.role) + ['\0'] + (q.path + ['\0'] + q.query);
      assert b == TrimSpace(r.role) + ['\0'] + (r.path + ['\0'] + r.query);
      HeadUnique(TrimSpace(q.role), TrimSpace(r.role), q.path + ['\0'] + q.query, r.path + ['\0'] + r.query, '\0');
      HeadUnique(q.path, r.path, q.query, r.query, '\0');
    }
  }

  // ---------- the middleware ----------

  // A stored body, and the moment Redis forgets it
  datatype Entry = Entry(body: string, expires: int)

  // What the rest of the chain does when it is asked: its writes, the final Content-Type, when it
  // is done, and whether Redis takes the result.
  datatype Handler = Handler(ops: seq<Op>, contentType: string, done: int, stored: bool)

  // A request at a moment, with whether Redis answers the lookup
  datatype Event = Event(q: Request, now: int, readable: bool, h: Handler)

  datatype Response = Response(status: int, body: string, hit: bool)

  predicate Contains(s: string, sub: string) {
    exists i :: 0 <= i <= |s| && sub <= s[i..]
  }

  predicate Consulted(site: Site, q: Request) {
    !site.disabled && q.get && !(TrimSpace(q.cacheControl) == "no-cache" || q.nocache) && Lifetime(site.rules, q.path) > 0
  }

  predicate Hits(site: Site, store: map<string, Entry>, e: Event) {
    Consulted(site, e.q) && e.readable && Key(site, e.q) in store &&
    e.now < store[Key(site, e.q)].expires && !Blank(store[Key(site, e.q)].body)
  }

  // What of an answer is worth keeping: complete, successful JSON
  predicate Keeps(site: Site, h: Handler) {
    var w := Captured(site.max, h.ops);
    w.status == 200 && w.buf != "" && |w.buf| < site.max && Contains(ToLower(h.contentType), "json") && h.stored
  }

  function Step(site: Site, store: map<string, Entry>, e: Event): map<string, Entry> {
    if Consulted(site, e.q) && !Hits(site, store, e) && Keeps(site, e.h) then
      store[Key(site, e.q) := Entry(Captured(site.max, e.h.ops).buf, e.h.done + Lifetime(site.rules, e.q.path))]
    else store
  }

  function Answer(site: Site, store: map<string, Entry>, e: Event): Response {
    if Hits(site, store, e) then Response(200, store[Key(site, e.q)].body, true)
    else Response(LastCode(Head(e.h.ops)), Sent(e.h.ops), false)
  }

  function Run(site: Site, events: seq<Event>): map<string, Entry> {
    if events == [] then map[] else Step(site, Run(site, events[..|events| - 1]), events[|events| - 1])
  }

  class Middleware {
    const site: Site
    var store: map<string, Entry>

    constructor (site: Site)
      ensures this.site == site && store == map[]
    {
      this.site, store := site, map[];
    }

    method LifetimeOf(path: string) returns (ttl: int)
      ensures ttl == Lifetime(site.rules, path)
    {
      for i := 0 to |site.rules|
        invariant Lifetime(site.rules, path) == Lifetime(site.rules[i..], path)
      {
        assert site.rules[i..][1..] == site.rules[i + 1..];
        if site.rules[i].0 <= path {
          return site.rules[i].1;
        }
      }
      return 0;
    }

    // The rest of the chain without a capture
    method Next(h: Handler) returns (r: Response)
      ensures r == Response(LastCode(Head(h.ops)), Sent(h.ops), false)
    {
      hide Captured, Sent, Written, LastCode, Head;
      var w := new Writer(site.max);
      w.Serve(h.ops);
      CaptureIsPrefix(site.max, h.ops);
      SentStatusIs(site.max, h.ops);
      return Response(w.sentStatus, w.sent, false);
    }

    method Serve(e: Event) returns (r: Response)
      modifies this
      ensures r == Answer(site, old(store), e)
      ensures store == Step(site, old(store), e)
    {
      hide Captured, Sent, Written, Lifetime, Contains, ToLower, TrimSpace, Key, Blank, LastCode, Head;
      if site.disabled {
        r := Next(e.h);
        return;
      }
      if !e.q.get {
        r := Next(e.h);
        return;
      }
      if TrimSpace(e.q.cacheControl) == "no-cache" || e.q.nocache {
        r := Next(e.h);
        return;
      }
      var ttl := LifetimeOf(e.q.path);
      if ttl <= 0 {
        r := Next(e.h);
        return;
      }
      var key := Key(site, e.q);
      if e.readable && key in store && e.now < store[key].expires && !Blank(store[key].body) {
        return Response(200, store[key].body, true);
      }
      var w := new Writer(site.max);
      w.Serve(e.h.ops);
      CaptureIsPrefix(site.max, e.h.ops);
      SentStatusIs(site.max, e.h.ops);
      r := Response(w.sentStatus, w.sent, false);
      if w.status != 200 || w.buf == "" || |w.buf| >= site.max {
        return;
      }
      if !Contains(ToLower(e.h.contentType), "json") {
        return;
      }
      if e.h.stored {
        store := store[key := Entry(w.buf, e.h.done + ttl)];
      }
    }
  }

  // ---------- every hit replays an earlier answer ----------

  // The j-th request was answered by the handlers with a successful, complete JSON body.
  ghost predicate Source(site: Site, events: seq<Event>, j: nat, key: string, entry: Entry) {
    j < |events| && Consulted(site, events[j].q) && !Hits(site, Run(site, events[..j]), events[j]) &&
    Keeps(site, events[j].h) && Key(site, events[j].q) == key &&
    entry == Entry(Captured(site.max, events[j].h.ops).buf, events[j].h.done + Lifetime(site.rules, events[j].q.path))
  }

  lemma {:induction false} StoredHasSource(site: Site, events: seq<Event>, key: string) returns (j: nat)
    requires key in Run(site, events)
    ensures Source(site, events, j, key, Run(site, events)[key])
  {
    hide Captured, Lifetime, Keeps, Consulted, Hits, Key;
    var front, last := events[..|events| - 1], events[|events| - 1];
    var before := Run(site, front);
    if Consulted(site, last.q) && !Hits(site, before, last) && Keeps(site, last.h) && Key(site, last.q) == key {
      j := |events| - 1;
    } else {
      j := StoredHasSource(site, front, key);
      assert front[..j] == events[..j];
    }
  }

  // Two requests for the same thing, of which the second is answered like the first, a successful
  // JSON answer still within its lifetime
  ghost predicate Replays(site: Site, events: seq<Event>, j: nat, e: Event, status: int, body: string) {
    j < |events| && SameTarget(events[j].q, e.q) &&
    Answer(site, Run(site, events[..j]), events[j]) == Response(status, body, false) &&
    Contains(ToLower(events[j].h.contentType), "json") &&
    e.now < events[j].h.done + Lifetime(site.rules, e.q.path)
  }

  // In any run, a hit gives exactly the bytes that an earlier request for the same role, path and
  // query was answered with, which was JSON still within its lifetime. Its status was whatever had
  // been set before its body, so the hit repeats that too exactly when it was 200.
  lemma HitReplaysSent(site: Site, events: seq<Event>, e: Event) returns (j: nat)
    requires CollisionFree(site.digest) && NulFree(e.q)
    requires forall i :: 0 <= i < |events| ==> NulFree(events[i].q) && NoStrings(events[i].h.ops)
    ensures var answer := Answer(site, Run(site, events), e);
      answer.hit ==>
        j < |events| && Captured(site.max, events[j].h.ops).status == 200 &&
        Replays(site, events, j, e, LastCode(Head(events[j].h.ops)), answer.body)
  {
    hide Captured, Lifetime, Contains, ToLower, TrimSpace, Key, Run, Sent, NoStrings, Blank, LastCode, Head;
    var key := Key(site, e.q);
    j := 0;
    if Hits(site, Run(site, events), e) {
      j := StoredHasSource(site, events, key);
      KeyInjective(site, events[j].q, e.q);
      CaptureIsComplete(site.max, events[j].h.ops);
    }
  }

  // It was 200 whenever header calls come in time: then a hit repeats the whole answer.
  lemma HitReplays(site: Site, events: seq<Event>, e: Event) returns (j: nat)
    requires CollisionFree(site.digest) && NulFree(e.q)
    requires forall i :: 0 <= i < |events| ==>
      NulFree(events[i].q) && NoStrings(events[i].h.ops) && Timely(events[i].h.ops)
    ensures var answer := Answer(site, Run(site, events), e);
      answer.hit ==> answer.status == 200 && Replays(site, events, j, e, 200, answer.body)
  {
    hide Timely;
    j := HitReplaysSent(site, events, e);
    if Hits(site, Run(site, events), e) {
      hide Captured, Lifetime, Contains, ToLower, TrimSpace, Key, Run, Sent, NoStrings, Blank, LastCode, Head;
      TimelyStatusIsSent(site.max, events[j].h.ops);
      SentStatusIs(site.max, events[j].h.ops);
    }
  }

  // Only ordinary GET requests for a path with a lifetime are answered from the cache or stored in it.
  predicate Ordinary(site: Site, q: Request) {
    !site.disabled && q.get && TrimSpace(q.cacheControl) != "no-cache" && !q.nocache && Lifetime(site.rules, q.path) > 0
  }

  lemma OthersBypass(site: Site, store: map<string, Entry>, e: Event)
    requires !Ordinary(site, e.q)
    ensures Answer(site, store, e) == Response(LastCode(Head(e.h.ops)), Sent(e.h.ops), false) && Step(site, store, e) == store
  {
    hide Lifetime, TrimSpace, Key, Captured, Contains;
  }

  // The text holds these letters from i on, in any case.
  predicate ReadsAt(s: string, i: nat, letters: string) {
    i + |letters| <= |s| && ToLower(s[i..i + |letters|]) == letters
  }

  // What is stored is a non-empty answer below the limit that said 200 and JSON, in any case of letters.
  ghost predicate Storable(site: Site, h: Handler) {
    var w := Captured(site.max, h.ops);
    w.status == 200 && 0 < |w.buf| < site.max && h.stored &&
    exists i: nat :: ReadsAt(h.contentType, i, "json")
  }

  lemma ToLowerSlice(s: string, i: int, j: int)
    requires 0 <= i <= j <= |s|
    ensures ToLower(s[i..j]) == ToLower(s)[i..j]
  {
  }

  lemma ContainsIgnoringCase(s: string, sub: string)
    ensures Contains(ToLower(s), sub) <==> exists i: nat :: ReadsAt(s, i, sub)
  {
    hide ToLower;
    if i: nat :| ReadsAt(s, i, sub) {
      ToLowerSlice(s, i, i + |sub|);
      assert ToLower(s)[i..][..|sub|] == ToLower(s)[i..i + |sub|];
      assert sub <= ToLower(s)[i..];
    }
    if i :| 0 <= i <= |ToLower(s)| && sub <= ToLower(s)[i..] {
      ToLowerSlice(s, i, i + |sub|);
      assert ToLower(s)[i..][..|sub|] == ToLower(s)[i..i + |sub|];
      assert ReadsAt(s, i, sub);
    }
  }

  // A repeated request is answered from the cache exactly when it is an ordinary one whose first
  // answer was storable and is not blank: a body of white space is stored, but a lookup that finds
  // it counts as a miss. After the lifetime it is not.
  lemma RepeatHitsIff(site: Site, store: map<string, Entry>, e: Event, again: Event)
    requires Key(site, e.q) !in store && again.q == e.q
    ensures Answer(site, Step(site, store, e), again).hit <==>
      Ordinary(site, e.q) && Storable(site, e.h) && TrimSpace(Captured(site.max, e.h.ops).buf) != "" &&
      again.readable && again.now < e.h.done + Lifetime(site.rules, e.q.path)
  {
    hide Captured, Lifetime, Contains, ReadsAt, ToLower, TrimSpace, Key;
    ContainsIgnoringCase(e.h.contentType, "json");
  }

  // Nothing else in the store changes.
  lemma OtherKeysStay(site: Site, store: map<string, Entry>, e: Event, key: string)
    requires key != Key(site, e.q)
    ensures key in Step(site, store, e) <==> key in store
    ensures key in store ==> Step(site, store, e)[key] == store[key]
  {
    hide Captured, Lifetime, Contains, ToLower, TrimSpace, Key;
  }

  // Keys carry the configured prefix, ended by one colon, or the default one.
  lemma PrefixEndsInColon(prefix: string)
    ensures var p := TrimSpace(prefix);
      Prefix(prefix) == if p == "" then "labplane:" else if p[|p| - 1] == ':' then p else p + ":"
    ensures Prefix(prefix)[|Prefix(prefix)| - 1] == ':'
  {
    hide TrimSpace;
  }

  // A run takes its requests one by one, from an empty store.
  lemma RunOneMore(site: Site, events: seq<Event>, e: Event)
    ensures Run(site, []) == map[]
    ensures Run(site, events + [e]) == Step(site, Run(site, events), e)
  {
    hide Step;
    assert (events + [e])[..|events|] == events;
  }

  // Small successful JSON answers are always kept, whole.
  lemma SmallAnswersAreKept(site: Site, h: Handler)
    requires NoStrings(h.ops) && 0 < |Sent(h.ops)| < site.max && Captured(site.max, h.ops).status == 200
    requires Contains(ToLower(h.contentType), "json") && h.stored
    ensures Keeps(site, h) && Captured(site.max, h.ops).buf == Sent(h.ops)
  {
    hide Captured, Sent, Written, Contains, ToLower, NoStrings;
    CaptureIsPrefix(site.max, h.ops);
    WrittenLength(h.ops);
  }
}
